/**
 * The message store's logic over an in-memory collection: the record a save
 * builds, the two-way history filter with its newest-first limit and in-place
 * reversal, and the recent-chats aggregation pipeline.
 */
module Messages {
  import opened Wrappers
  import Normalize

  type ObjectId = nat

  /** A stored message; times are nanoseconds. */
  datatype Message = Message(id: ObjectId, fromEmail: string, toEmail: string, content: string, sentAt: int, createdAt: int)

  datatype ChatPartner = ChatPartner(email: string, lastMessage: string, lastMessageTime: int)

  /** An address already in normal form. */
  predicate Normalized(e: string) {
    Normalize.Email(e) == e
  }

  /**
   * The record `SaveMessage` inserts: both addresses normalised, content and send
   * time as given, created at `now`. The id is the one the insert reports.
   */
  function NewMessage(id: ObjectId, fromEmail: string, toEmail: string, content: string, sentAt: int, now: int): (m: Message)
    ensures Normalize.Email(fromEmail) == m.fromEmail && Normalize.Email(toEmail) == m.toEmail
    ensures m.id == id && m.content == content && m.sentAt == sentAt && m.createdAt == now
  {
    Message(id, Normalize.Email(fromEmail), Normalize.Email(toEmail), content, sentAt, now)
  }

  /** Both addresses of a record are stored normalised: normalising them again changes nothing. */
  lemma NewMessageNormalized(id: ObjectId, fromEmail: string, toEmail: string, content: string, sentAt: int, now: int)
    ensures Normalized(NewMessage(id, fromEmail, toEmail, content, sentAt, now).fromEmail)
    ensures Normalized(NewMessage(id, fromEmail, toEmail, content, sentAt, now).toEmail)
  {
    Normalize.EmailIdempotent(fromEmail);
    Normalize.EmailIdempotent(toEmail);
  }

  /** Addresses differing only in case or surrounding blanks produce the same record. */
  lemma NewMessageIgnoresSpelling(id: ObjectId, f1: string, f2: string, t1: string, t2: string, content: string, sentAt: int, now: int)
    requires Normalize.Email(f1) == Normalize.Email(f2) && Normalize.Email(t1) == Normalize.Email(t2)
    ensures NewMessage(id, f1, t1, content, sentAt, now) == NewMessage(id, f2, t2, content, sentAt, now)
  {
  }

  /** The history filter: sent from u1 to u2, or from u2 to u1. */
  predicate InConversation(m: Message, u1: string, u2: string) {
    (m.fromEmail == u1 && m.toEmail == u2) || (m.fromEmail == u2 && m.toEmail == u1)
  }

  lemma InConversationSymmetric(m: Message, u1: string, u2: string)
    ensures InConversation(m, u1, u2) <==> InConversation(m, u2, u1)
  {
  }

  /** The messages of the conversation between u1 and u2, in collection order. */
  function Matching(coll: seq<Message>, u1: string, u2: string): (r: seq<Message>)
    ensures forall m :: m in r ==> m in coll && InConversation(m, u1, u2)
    ensures forall m :: m in coll && InConversation(m, u1, u2) ==> multiset(r)[m] == multiset(coll)[m]
    ensures |r| <= |coll|
  {
    if coll == [] then []
    else
      var rest := Matching(coll[1..], u1, u2);
      assert coll == [coll[0]] + coll[1..];
      if InConversation(coll[0], u1, u2) then [coll[0]] + rest else rest
  }

  /** The filter does not care which of the two users asks. */
  lemma {:induction false} MatchingSymmetric(coll: seq<Message>, u1: string, u2: string)
    ensures Matching(coll, u1, u2) == Matching(coll, u2, u1)
  {
    if coll != [] {
      MatchingSymmetric(coll[1..], u1, u2);
      InConversationSymmetric(coll[0], u1, u2);
    }
  }

  /** Ordered by `key`, largest first. */
  predicate Descending<T>(s: seq<T>, key: T -> int) {
    forall i, j :: 0 <= i < j < |s| ==> key(s[i]) >= key(s[j])
  }

  /** One step of a descending sort: place x among elements already in order. */
  function InsertDescending<T>(x: T, s: seq<T>, key: T -> int): (r: seq<T>)
    requires Descending(s, key)
    ensures |r| == |s| + 1
    ensures r[0] == x || (s != [] && r[0] == s[0])
    ensures Descending(r, key)
    ensures multiset(r) == multiset(s) + multiset{x}
  {
    if s == [] || key(s[0]) <= key(x) then [x] + s
    else
      var rest := InsertDescending(x, s[1..], key);
      assert s == [s[0]] + s[1..];
      assert key(s[0]) >= key(rest[0]);
      [s[0]] + rest
  }

  /** A descending sort (`-1` in a MongoDB sort); elements with equal keys keep no particular order. */
  function SortDescending<T>(s: seq<T>, key: T -> int): (r: seq<T>)
    ensures Descending(r, key)
    ensures multiset(r) == multiset(s)
    ensures |r| == |s|
  {
    if s == [] then []
    else
      assert s == [s[0]] + s[1..];
      InsertDescending(s[0], SortDescending(s[1..], key), key)
  }

  function SentAt(m: Message): int {
    m.sentAt
  }

  /** Ordered newest first by send time. */
  predicate NewestFirst(s: seq<Message>) {
    forall i, j :: 0 <= i < j < |s| ==> s[i].sentAt >= s[j].sentAt
  }

  /** Ordered oldest first by send time. */
  predicate OldestFirst(s: seq<Message>) {
    forall i, j :: 0 <= i < j < |s| ==> s[i].sentAt <= s[j].sentAt
  }

  /** The history query's sort, `sent_at: -1`. */
  function SortNewestFirst(s: seq<Message>): (r: seq<Message>)
    ensures NewestFirst(r)
    ensures multiset(r) == multiset(s)
    ensures |r| == |s|
  {
    SortDescending(s, SentAt)
  }

  function Magnitude(limit: int): nat {
    if limit < 0 then -limit else limit
  }

  /** How many documents `SetLimit(limit)` lets a find return out of n: 0 means all, a negative limit its magnitude. */
  function LimitCount(limit: int, n: nat): (k: nat)
    ensures k <= n
    ensures limit == 0 ==> k == n
    ensures limit != 0 ==> k <= Magnitude(limit)
    ensures limit != 0 ==> k == n || k == Magnitude(limit)
  {
    if limit == 0 || n <= Magnitude(limit) then n else Magnitude(limit)
  }

  /** The documents the find returns: the conversation, newest first, cut to the limit. */
  function Newest(coll: seq<Message>, u1: string, u2: string, limit: int): seq<Message> {
    var sorted := SortNewestFirst(Matching(coll, u1, u2));
    sorted[..LimitCount(limit, |sorted|)]
  }

  function Reverse<T>(s: seq<T>): (r: seq<T>)
    ensures |r| == |s|
    ensures forall i :: 0 <= i < |s| ==> r[i] == s[|s| - 1 - i]
  {
    if s == [] then [] else Reverse(s[1..]) + [s[0]]
  }

  lemma ReverseKeepsMultiset<T>(s: seq<T>)
    ensures multiset(Reverse(s)) == multiset(s)
  {
    if s != [] {
      ReverseKeepsMultiset(s[1..]);
      assert s == [s[0]] + s[1..];
    }
  }

  lemma ReverseInvolutive<T>(s: seq<T>)
    ensures Reverse(Reverse(s)) == s
  {
  }

  /** `GetMessageHistory`: the conversation's newest messages up to the limit, oldest first. */
  function History(coll: seq<Message>, user1: string, user2: string, limit: int): seq<Message> {
    Reverse(Newest(coll, Normalize.Email(user1), Normalize.Email(user2), limit))
  }

  /** The result reads oldest first. */
  lemma HistoryChronological(coll: seq<Message>, user1: string, user2: string, limit: int)
    ensures OldestFirst(History(coll, user1, user2, limit))
  {
    var sorted := SortNewestFirst(Matching(coll, Normalize.Email(user1), Normalize.Email(user2)));
    var n := Newest(coll, Normalize.Email(user1), Normalize.Email(user2), limit);
    assert n == sorted[..LimitCount(limit, |sorted|)];
    assert NewestFirst(n);
    ReversedNewestIsOldest(n);
  }

  /** Read backwards, a newest-first sequence is oldest first. */
  lemma ReversedNewestIsOldest(s: seq<Message>)
    requires NewestFirst(s)
    ensures OldestFirst(Reverse(s))
  {
    var r := Reverse(s);
    forall i, j | 0 <= i < j < |r|
      ensures r[i].sentAt <= r[j].sentAt
    {
      assert r[i] == s[|s| - 1 - i] && r[j] == s[|s| - 1 - j];
    }
  }

  /**
   * The result holds only messages of the conversation, no more than a non-zero
   * limit allows, and all of the conversation when it fits.
   */
  lemma HistoryContents(coll: seq<Message>, user1: string, user2: string, limit: int)
    ensures forall m :: m in History(coll, user1, user2, limit) ==>
      m in coll && InConversation(m, Normalize.Email(user1), Normalize.Email(user2))
    ensures limit > 0 ==> |History(coll, user1, user2, limit)| <= limit
    ensures |History(coll, user1, user2, limit)| == LimitCount(limit, |Matching(coll, Normalize.Email(user1), Normalize.Email(user2))|)
    ensures limit == 0 ==> multiset(History(coll, user1, user2, limit))
                           == multiset(Matching(coll, Normalize.Email(user1), Normalize.Email(user2)))
  {
    var u1, u2 := Normalize.Email(user1), Normalize.Email(user2);
    var sorted := SortNewestFirst(Matching(coll, u1, u2));
    var n := Newest(coll, u1, u2, limit);
    ReverseKeepsMultiset(n);
    forall m | m in History(coll, user1, user2, limit)
      ensures m in coll && InConversation(m, u1, u2)
    {
      assert m in multiset(n);
      assert m in n;
      assert m in multiset(sorted);
    }
    if limit == 0 {
      assert n == sorted;
    }
  }

  /** In a newest-first sequence, nothing after position k is newer than anything before it. */
  lemma PrefixIsNewest(s: seq<Message>, k: nat)
    requires NewestFirst(s) && k <= |s|
    ensures forall x, y :: x in s[..k] && y in s[k..] ==> y.sentAt <= x.sentAt
  {
    forall x, y | x in s[..k] && y in s[k..]
      ensures y.sentAt <= x.sentAt
    {
      var i :| 0 <= i < k && s[i] == x;
      var j :| k <= j < |s| && s[j] == y;
    }
  }

  /** Cutting a newest-first sequence after k keeps the k newest: what is left out is no newer. */
  lemma CutKeepsNewest(sorted: seq<Message>, k: nat, h: seq<Message>)
    requires NewestFirst(sorted) && k <= |sorted|
    requires multiset(h) == multiset(sorted[..k])
    ensures multiset(h) <= multiset(sorted)
    ensures forall x: Message, y: Message :: x in h && y in multiset(sorted) - multiset(h) ==> y.sentAt <= x.sentAt
  {
    assert sorted == sorted[..k] + sorted[k..];
    assert multiset(sorted) - multiset(h) == multiset(sorted[k..]);
    PrefixIsNewest(sorted, k);
    forall x: Message, y: Message | x in h && y in multiset(sorted) - multiset(h)
      ensures y.sentAt <= x.sentAt
    {
      assert x in multiset(sorted[..k]);
      assert y in multiset(sorted[k..]);
    }
  }

  /** Every conversation message the limit leaves out is no newer than any message returned. */
  lemma HistoryKeepsNewest(coll: seq<Message>, user1: string, user2: string, limit: int)
    ensures var all := Matching(coll, Normalize.Email(user1), Normalize.Email(user2));
            var h := History(coll, user1, user2, limit);
            && multiset(h) <= multiset(all)
            && forall x: Message, y: Message :: x in h && y in multiset(all) - multiset(h) ==> y.sentAt <= x.sentAt
  {
    var all := Matching(coll, Normalize.Email(user1), Normalize.Email(user2));
    var sorted := SortNewestFirst(all);
    var k := LimitCount(limit, |sorted|);
    var h := History(coll, user1, user2, limit);
    assert h == Reverse(sorted[..k]);
    ReverseKeepsMultiset(sorted[..k]);
    CutKeepsNewest(sorted, k, h);
  }

  /** Asking with any spelling of the two addresses, in either order, gives the same history. */
  lemma HistoryIgnoresSpellingAndOrder(coll: seq<Message>, a1: string, a2: string, b1: string, b2: string, limit: int)
    requires Normalize.Email(a1) == Normalize.Email(b1) && Normalize.Email(a2) == Normalize.Email(b2)
    ensures History(coll, a1, a2, limit) == History(coll, b1, b2, limit)
    ensures History(coll, a1, a2, limit) == History(coll, b2, b1, limit)
  {
    MatchingSymmetric(coll, Normalize.Email(a1), Normalize.Email(a2));
  }

  /** A message saved with one spelling of the addresses is found by a query with another (messages_test). */
  lemma SavedMessageFound(coll: seq<Message>, id: ObjectId, from: string, to: string, content: string, sentAt: int, now: int,
                          q1: string, q2: string)
    requires Normalize.Email(q1) == Normalize.Email(from) && Normalize.Email(q2) == Normalize.Email(to)
    ensures NewMessage(id, from, to, content, sentAt, now) in multiset(History(coll + [NewMessage(id, from, to, content, sentAt, now)], q1, q2, 0))
  {
    var m := NewMessage(id, from, to, content, sentAt, now);
    var c := coll + [m];
    HistoryContents(c, q1, q2, 0);
    assert m in c && InConversation(m, Normalize.Email(q1), Normalize.Email(q2));
    assert multiset(Matching(c, Normalize.Email(q1), Normalize.Email(q2)))[m] == multiset(c)[m] > 0;
  }

  /** The `$match` stage of the recent-chats pipeline: messages sent by or to the user. */
  predicate Involves(m: Message, user: string) {
    m.fromEmail == user || m.toEmail == user
  }

  /** The `$cond` grouping key: the recipient when the user sent the message, else the sender. */
  function Partner(m: Message, user: string): (p: string)
    ensures Involves(m, user) ==> InConversation(m, user, p)
    ensures m.fromEmail != user ==> p == m.fromEmail
  {
    if m.fromEmail == user then m.toEmail else m.fromEmail
  }

  /** For a stored (normalised) message, the history between the user and its partner contains it. */
  lemma PartnerHistoryHasMessage(coll: seq<Message>, m: Message, user: string)
    requires m in coll && Normalized(m.fromEmail) && Normalized(m.toEmail)
    requires Involves(m, Normalize.Email(user))
    ensures m in multiset(History(coll, user, Partner(m, Normalize.Email(user)), 0))
  {
    var u := Normalize.Email(user);
    var p := Partner(m, u);
    assert Normalize.Email(p) == p;
    HistoryContents(coll, user, p, 0);
    assert multiset(Matching(coll, u, Normalize.Email(p)))[m] == multiset(coll)[m] > 0;
  }

  /** The `$cond` key files m, a message of the user's, under partner p. */
  predicate GroupedUnder(m: Message, user: string, p: string) {
    Involves(m, user) && Partner(m, user) == p
  }

  /**
   * The `$group` keys as a set: the users whose conversation with `user` holds at
   * least one message of the collection.
   */
  function Partners(coll: seq<Message>, user: string): (r: set<string>)
    ensures forall p :: p in r <==> exists m :: m in coll && InConversation(m, user, p)
  {
    var r := set m | m in coll && Involves(m, user) :: Partner(m, user);
    assert forall p :: p in r ==> exists m :: m in coll && InConversation(m, user, p);
    assert forall m, p :: m in coll && InConversation(m, user, p) ==> GroupedUnder(m, user, p);
    r
  }

  /** The `$group` keys in order of first appearance in the collection, each once. */
  function PartnerList(coll: seq<Message>, user: string): (r: seq<string>)
    ensures forall i, j :: 0 <= i < j < |r| ==> r[i] != r[j]
    ensures forall p :: p in r <==> exists m :: m in coll && GroupedUnder(m, user, p)
  {
    if coll == [] then []
    else
      var n := |coll| - 1;
      var rest := PartnerList(coll[..n], user);
      assert coll == coll[..n] + [coll[n]];
      assert forall m :: m in coll <==> m in coll[..n] || m == coll[n];
      var q := Partner(coll[n], user);
      if GroupedUnder(coll[n], user, q) && q !in rest then rest + [q] else rest
  }

  /** `$last` without an earlier `$sort`: the latest message in collection order that is filed under p. */
  function LastWith(coll: seq<Message>, user: string, p: string): (r: Option<Message>)
    ensures r.Some? ==> r.value in coll && GroupedUnder(r.value, user, p)
    ensures r.None? ==> forall m :: m in coll ==> !GroupedUnder(m, user, p)
  {
    if coll == [] then None
    else
      var n := |coll| - 1;
      assert coll == coll[..n] + [coll[n]];
      if GroupedUnder(coll[n], user, p) then Some(coll[n]) else LastWith(coll[..n], user, p)
  }

  /** One row of the `$group` output: the partner and its last message's content and send time. */
  datatype GroupRow = GroupRow(partner: string, lastMessage: string, lastMessageAt: int)

  /** The `$group` row for partner p. */
  function RowFor(coll: seq<Message>, user: string, p: string): GroupRow {
    match LastWith(coll, user, p)
    case Some(m) => GroupRow(p, m.content, m.sentAt)
    case None => GroupRow(p, "", 0)
  }

  /** The `$group` stage: one row per partner. */
  function Groups(coll: seq<Message>, user: string): seq<GroupRow> {
    var ps := PartnerList(coll, user);
    seq(|ps|, i requires 0 <= i < |ps| => RowFor(coll, user, ps[i]))
  }

  function LastAt(row: GroupRow): int {
    row.lastMessageAt
  }

  /** The message `$limit` produces for a limit MongoDB refuses. */
  const LimitNotPositive := "the limit must be positive"

  /**
   * The recent-chats pipeline for an already normalised user: `$match`, `$group`,
   * `$sort` by `last_message_at` descending, `$limit`.
   */
  function RecentChats(coll: seq<Message>, user: string, limit: int): Result<seq<GroupRow>, string> {
    if limit <= 0 then Err(LimitNotPositive)
    else
      var sorted := SortDescending(Groups(coll, user), LastAt);
      Ok(sorted[..LimitCount(limit, |sorted|)])
  }

  /** The row of a partner names the latest message filed under it, with nothing later in the collection. */
  lemma {:induction false} LastWithIsLast(coll: seq<Message>, user: string, p: string) returns (k: nat)
    requires LastWith(coll, user, p).Some?
    ensures k < |coll| && coll[k] == LastWith(coll, user, p).value
    ensures forall j :: k < j < |coll| ==> !GroupedUnder(coll[j], user, p)
  {
    var n := |coll| - 1;
    if GroupedUnder(coll[n], user, p) {
      k := n;
    } else {
      k := LastWithIsLast(coll[..n], user, p);
    }
  }

  /** A sequence without repeated elements holds each element once. */
  lemma {:induction false} DistinctOnce<T>(s: seq<T>)
    requires forall i, j :: 0 <= i < j < |s| ==> s[i] != s[j]
    ensures forall x :: multiset(s)[x] <= 1
    ensures |set x | x in s| == |s|
  {
    if s != [] {
      var t := s[1..];
      DistinctOnce(t);
      assert s == [s[0]] + t;
      assert s[0] !in t;
      assert (set x | x in s) == {s[0]} + (set x | x in t);
    }
  }

  /** An element at two positions occurs at least twice. */
  lemma TwiceCounted<T>(s: seq<T>, i: nat, j: nat)
    requires i < j < |s| && s[i] == s[j]
    ensures multiset(s)[s[i]] >= 2
  {
    assert s == s[..j] + s[j..];
    assert s[i] in s[..j];
    assert s[j] in s[j..];
  }

  /** The `$group` keys listed are exactly the partners. */
  lemma PartnerListIsPartners(coll: seq<Message>, user: string)
    ensures forall p :: p in PartnerList(coll, user) <==> p in Partners(coll, user)
  {
    forall p
      ensures p in PartnerList(coll, user) <==> p in Partners(coll, user)
    {
      if p in PartnerList(coll, user) {
        var m :| m in coll && GroupedUnder(m, user, p);
        assert InConversation(m, user, p);
      }
      if p in Partners(coll, user) {
        var m :| m in coll && InConversation(m, user, p);
        assert GroupedUnder(m, user, p);
      }
    }
  }

  /** Every `$group` row is the row of a partner of the user. */
  lemma GroupRowsArePartners(coll: seq<Message>, user: string)
    ensures forall x :: x in Groups(coll, user) ==> x.partner in Partners(coll, user) && x == RowFor(coll, user, x.partner)
  {
    PartnerListIsPartners(coll, user);
  }

  /** The `$group` stage yields each partner's row, and each row once. */
  lemma GroupsOncePerPartner(coll: seq<Message>, user: string)
    ensures forall p :: p in Partners(coll, user) ==> RowFor(coll, user, p) in Groups(coll, user)
    ensures forall x :: multiset(Groups(coll, user))[x] <= 1
    ensures |Groups(coll, user)| == |Partners(coll, user)|
  {
    var ps := PartnerList(coll, user);
    var g := Groups(coll, user);
    PartnerListIsPartners(coll, user);
    forall p | p in Partners(coll, user)
      ensures RowFor(coll, user, p) in g
    {
      var i :| 0 <= i < |ps| && ps[i] == p;
      assert g[i] == RowFor(coll, user, p);
    }
    assert forall i, j :: 0 <= i < j < |g| ==> g[i] != g[j] by {
      forall i, j | 0 <= i < j < |g|
        ensures g[i] != g[j]
      {
        assert g[i].partner == ps[i] && g[j].partner == ps[j];
      }
    }
    DistinctOnce(g);
    DistinctOnce(ps);
    assert (set x | x in ps) == Partners(coll, user);
  }

  /** A prefix of a permutation of a repetition-free sequence is repetition-free and drawn from it. */
  lemma PrefixOfPermutation<T>(g: seq<T>, sorted: seq<T>, k: nat)
    requires multiset(sorted) == multiset(g) && k <= |sorted|
    requires forall x :: multiset(g)[x] <= 1
    ensures forall i :: 0 <= i < k ==> sorted[i] in g
    ensures forall i, j :: 0 <= i < j < k ==> sorted[i] != sorted[j]
  {
    forall i | 0 <= i < k
      ensures sorted[i] in g
    {
      assert sorted[i] in multiset(sorted);
    }
    forall i, j | 0 <= i < j < k
      ensures sorted[i] != sorted[j]
    {
      if sorted[i] == sorted[j] {
        TwiceCounted(sorted, i, j);
      }
    }
  }

  /**
   * A prefix of a permutation of rows that are keyed by partner, each in `ps`, names
   * partners of `ps` only, and none twice.
   */
  lemma PrefixNamesPartners(g: seq<GroupRow>, sorted: seq<GroupRow>, k: nat, ps: set<string>)
    requires multiset(sorted) == multiset(g) && k <= |sorted|
    requires forall x :: multiset(g)[x] <= 1
    requires forall x :: x in g ==> x.partner in ps
    requires forall x, y :: x in g && y in g && x.partner == y.partner ==> x == y
    ensures forall i :: 0 <= i < k ==> sorted[i].partner in ps
    ensures forall i, j :: 0 <= i < j < k ==> sorted[i].partner != sorted[j].partner
  {
    PrefixOfPermutation(g, sorted, k);
  }

  /** Every recent-chats row names a partner of the user, no partner twice, and there are at most `limit` rows. */
  lemma RecentChatsNamePartners(coll: seq<Message>, user: string, limit: int)
    requires limit > 0
    ensures var rows := RecentChats(coll, user, limit).value;
      && |rows| <= limit
      && (forall i :: 0 <= i < |rows| ==> rows[i].partner in Partners(coll, user))
      && (forall i, j :: 0 <= i < j < |rows| ==> rows[i].partner != rows[j].partner)
  {
    var g := Groups(coll, user);
    var sorted := SortDescending(g, LastAt);
    var k := LimitCount(limit, |sorted|);
    assert RecentChats(coll, user, limit).value == sorted[..k];
    GroupsOncePerPartner(coll, user);
    GroupRowsArePartners(coll, user);
    PrefixNamesPartners(g, sorted, k, Partners(coll, user));
  }

  /** When the limit covers every partner, every partner of the user has a row. */
  lemma RecentChatsListEveryPartner(coll: seq<Message>, user: string, limit: int)
    requires limit > 0 && |Partners(coll, user)| <= limit
    ensures var rows := RecentChats(coll, user, limit).value;
      forall p :: p in Partners(coll, user) ==> exists i :: 0 <= i < |rows| && rows[i].partner == p
  {
    var g := Groups(coll, user);
    var sorted := SortDescending(g, LastAt);
    var rows := RecentChats(coll, user, limit).value;
    GroupsOncePerPartner(coll, user);
    assert rows == sorted;
    forall p | p in Partners(coll, user)
      ensures exists i :: 0 <= i < |rows| && rows[i].partner == p
    {
      assert RowFor(coll, user, p) in multiset(sorted);
      var i :| 0 <= i < |sorted| && sorted[i] == RowFor(coll, user, p);
      assert rows[i].partner == p;
    }
  }

  /**
   * Each row carries the content and send time of the last message, in collection
   * order, that the user exchanged with that partner.
   */
  lemma RecentChatsLastMessage(coll: seq<Message>, user: string, limit: int, i: nat) returns (k: nat)
    requires limit > 0 && i < |RecentChats(coll, user, limit).value|
    ensures var row := RecentChats(coll, user, limit).value[i];
      && k < |coll| && GroupedUnder(coll[k], user, row.partner)
      && coll[k].content == row.lastMessage && coll[k].sentAt == row.lastMessageAt
      && forall j :: k < j < |coll| ==> !GroupedUnder(coll[j], user, row.partner)
  {
    var g := Groups(coll, user);
    var sorted := SortDescending(g, LastAt);
    var row := RecentChats(coll, user, limit).value[i];
    assert row == sorted[i];
    assert row in multiset(g);
    GroupRowsArePartners(coll, user);
    var p := row.partner;
    assert row == RowFor(coll, user, p);
    assert LastWith(coll, user, p).Some? by {
      var m :| m in coll && InConversation(m, user, p);
      assert GroupedUnder(m, user, p);
    }
    k := LastWithIsLast(coll, user, p);
  }

  /** The rows come most recent conversation first. */
  lemma RecentChatsNewestFirst(coll: seq<Message>, user: string, limit: int)
    requires limit > 0
    ensures var rows := RecentChats(coll, user, limit).value;
      forall i, j :: 0 <= i < j < |rows| ==> rows[i].lastMessageAt >= rows[j].lastMessageAt
  {
    var sorted := SortDescending(Groups(coll, user), LastAt);
    var rows := RecentChats(coll, user, limit).value;
    assert rows == sorted[..|rows|];
    forall i, j | 0 <= i < j < |rows|
      ensures rows[i].lastMessageAt >= rows[j].lastMessageAt
    {
      assert LastAt(sorted[i]) >= LastAt(sorted[j]);
    }
  }

  /** An element of a descending sequence either lies in its first k positions or is no larger than any of them. */
  lemma CutOffIsNoLarger<T>(sorted: seq<T>, k: nat, key: T -> int, x: T)
    requires Descending(sorted, key) && k <= |sorted| && x in sorted
    ensures (exists i :: 0 <= i < k && sorted[i] == x) || forall i :: 0 <= i < k ==> key(x) <= key(sorted[i])
  {
    var t :| 0 <= t < |sorted| && sorted[t] == x;
    if t >= k {
      assert forall i :: 0 <= i < k ==> key(sorted[i]) >= key(sorted[t]);
    }
  }

  /** A partner the limit cuts off talked no later than any partner listed. */
  lemma RecentChatsCutKeepsRecent(coll: seq<Message>, user: string, limit: int, p: string)
    requires limit > 0 && p in Partners(coll, user)
    ensures var rows := RecentChats(coll, user, limit).value;
      || (exists i :: 0 <= i < |rows| && rows[i].partner == p)
      || (forall i :: 0 <= i < |rows| ==> RowFor(coll, user, p).lastMessageAt <= rows[i].lastMessageAt)
  {
    var g := Groups(coll, user);
    var sorted := SortDescending(g, LastAt);
    var rows := RecentChats(coll, user, limit).value;
    var x := RowFor(coll, user, p);
    assert rows == sorted[..|rows|];
    assert x in sorted by {
      GroupsOncePerPartner(coll, user);
      assert x in multiset(sorted);
    }
    CutOffIsNoLarger(sorted, |rows|, LastAt, x);
    if exists i :: 0 <= i < |rows| && sorted[i] == x {
      var i :| 0 <= i < |rows| && sorted[i] == x;
      assert rows[i].partner == p;
    } else {
      forall i | 0 <= i < |rows|
        ensures x.lastMessageAt <= rows[i].lastMessageAt
      {
        assert LastAt(x) <= LastAt(sorted[i]);
      }
    }
  }

  /** `ChatPartner` built from a row. */
  function ToPartner(row: GroupRow): ChatPartner {
    ChatPartner(row.partner, row.lastMessage, row.lastMessageAt)
  }

  /** The append loop of `GetRecentChats`: one partner per row, in row order. */
  method CollectPartners(rows: seq<GroupRow>) returns (partners: seq<ChatPartner>)
    ensures |partners| == |rows|
    ensures forall i :: 0 <= i < |rows| ==> partners[i] == ToPartner(rows[i])
  {
    partners := [];
    for n := 0 to |rows|
      invariant |partners| == n
      invariant forall i :: 0 <= i < n ==> partners[i] == ToPartner(rows[i])
    {
      partners := partners + [ToPartner(rows[n])];
    }
  }

  /** The swap loop: exchange the ends and move inwards until they meet. */
  method ReverseInPlace<T>(a: array<T>)
    modifies a
    ensures a[..] == Reverse(old(a[..]))
  {
    if a.Length == 0 {
      return;
    }
    var i, j := 0, a.Length - 1;
    while i < j
      invariant 0 <= i <= j + 1 <= a.Length && i + j == a.Length - 1
      invariant forall k :: 0 <= k < i ==> a[k] == old(a[a.Length - 1 - k])
      invariant forall k :: j < k < a.Length ==> a[k] == old(a[a.Length - 1 - k])
      invariant forall k :: i <= k <= j ==> a[k] == old(a[k])
    {
      a[i], a[j] := a[j], a[i];
      i, j := i + 1, j - 1;
    }
  }

  /** The found messages copied into a fresh array and reversed there, as the history query does. */
  method ReversedCopy<T>(found: seq<T>) returns (r: seq<T>)
    ensures r == Reverse(found)
  {
    if |found| == 0 {
      return [];
    }
    var a := new T[|found|](k requires 0 <= k < |found| => found[k]);
    assert a[..] == found;
    ReverseInPlace(a);
    return a[..];
  }

  /** `MessagesStore` over an in-memory collection; inserts and finds report failure through oracles. */
  class MessagesStore {
    var coll: seq<Message>

    constructor (coll: seq<Message>)
      ensures this.coll == coll
    {
      this.coll := coll;
    }

    /**
     * `SaveMessage`: an insert error leaves the collection as it was; otherwise the
     * record with the id the insert assigned is appended and returned.
     */
    method SaveMessage(fromEmail: string, toEmail: string, content: string, sentAt: int, now: int,
                       insert: Result<ObjectId, string>)
      returns (r: Result<Message, string>)
      modifies this
      ensures insert.Err? ==> r == Err(insert.error) && coll == old(coll)
      ensures insert.Ok? ==> r == Ok(NewMessage(insert.value, fromEmail, toEmail, content, sentAt, now))
                              && coll == old(coll) + [r.value]
    {
      var msg := NewMessage(0, fromEmail, toEmail, content, sentAt, now);
      if insert.Err? {
        return Err(insert.error);
      }
      msg := msg.(id := insert.value);
      coll := coll + [msg];
      return Ok(msg);
    }

    /**
     * `GetMessageHistory`: the newest `limit` messages between the two users,
     * reversed in place into chronological order; a failing find is passed on.
     */
    method GetMessageHistory(user1: string, user2: string, limit: int, findError: Option<string>)
      returns (r: Result<seq<Message>, string>)
      ensures findError.Some? ==> r == Err(findError.value)
      ensures findError.None? ==> r == Ok(History(coll, user1, user2, limit))
    {
      if findError.Some? {
        return Err(findError.value);
      }
      var found := Newest(coll, Normalize.Email(user1), Normalize.Email(user2), limit);
      var chronological := ReversedCopy(found);
      return Ok(chronological);
    }

    /**
     * `GetRecentChats`: the pipeline runs over the collection for the normalised
     * user with the given limit, and its rows become partners in the same order.
     * `aggError` is a failure of the aggregation or of reading its cursor.
     */
    method GetRecentChats(userEmail: string, limit: int, aggError: Option<string>)
      returns (r: Result<seq<ChatPartner>, string>)
      ensures aggError.Some? ==> r == Err(aggError.value)
      ensures aggError.None? ==>
        var rows := RecentChats(coll, Normalize.Email(userEmail), limit);
        && (rows.Err? ==> r == Err(rows.error))
        && (rows.Ok? ==> r.Ok? && |r.value| == |rows.value|
                         && forall i :: 0 <= i < |r.value| ==> r.value[i] == ToPartner(rows.value[i]))
    {
      if aggError.Some? {
        return Err(aggError.value);
      }
      var user := Normalize.Email(userEmail);
      var results := RecentChats(coll, user, limit);
      if results.Err? {
        return Err(results.error);
      }
      var partners := CollectPartners(results.value);
      return Ok(partners);
    }
  }
}

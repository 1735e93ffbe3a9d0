/**
 * The connection hub: for each email, the live outbound streams of that user's
 * sessions, keyed by a connection id drawn from a counter. Emails are used as
 * given; the hub does not normalise them.
 */
module Hub {
  import opened Wrappers
  import Sets

  /** A connection id (`int64` in the source; wrap-around is not modelled). */
  type ConnId = int

  /** An opaque handle on a stream the hub can push responses to. */
  datatype StreamSender = StreamSender(handle: nat)

  /** `v1.ChatStreamResponse` */
  datatype ChatStreamResponse = ChatStreamResponse(msgId: string, fromEmail: string, content: string, sentAt: int)

  /** What one `Send` on one connection returned. */
  datatype Status = Sent | Failed(reason: string)

  /** The error SendToUser returns. */
  datatype SendError = NotConnected(email: string) | SendFailed(reason: string)

  type Streams = map<string, map<ConnId, StreamSender>>

  /** No email maps to an empty set of connections. */
  ghost predicate NoEmptyEntries(streams: Streams) {
    forall e :: e in streams ==> streams[e] != map[]
  }

  /** Every live id was handed out by the counter, and no id is live under two emails. */
  ghost predicate IdsIssuedOnce(streams: Streams, nextID: int) {
    && (forall e, id :: e in streams && id in streams[e] ==> 0 < id <= nextID)
    && (forall e1, e2, id :: e1 in streams && e2 in streams && id in streams[e1] && id in streams[e2] ==> e1 == e2)
  }

  ghost predicate HubInvariant(streams: Streams, nextID: int) {
    nextID >= 0 && NoEmptyEntries(streams) && IdsIssuedOnce(streams, nextID)
  }

  /** The connections of `email`, empty when it has no entry. */
  function ConnsOf(streams: Streams, email: string): map<ConnId, StreamSender> {
    if email in streams then streams[email] else map[]
  }

  /** Register's effect: the pair id |-> s is added under email, creating the entry if absent. */
  function Insert(streams: Streams, email: string, id: ConnId, s: StreamSender): (r: Streams)
    ensures r.Keys == streams.Keys + {email}
    ensures r[email] == ConnsOf(streams, email)[id := s]
    ensures forall e :: e in streams && e != email ==> r[e] == streams[e]
  {
    streams[email := ConnsOf(streams, email)[id := s]]
  }

  /**
   * Unregister's effect: id leaves email's connections, and email's entry goes
   * when no connection is left; an absent email or id changes nothing.
   */
  function Remove(streams: Streams, email: string, id: ConnId): (r: Streams)
    ensures (email !in streams || id !in streams[email]) && NoEmptyEntries(streams) ==> r == streams
    ensures forall e :: e in r <==> e in streams && (e != email || streams[e] - {id} != map[])
    ensures forall e :: e in r ==> r[e] == if e == email then streams[e] - {id} else streams[e]
  {
    if email in streams then
      var conns := streams[email] - {id};
      assert id !in streams[email] ==> conns == streams[email];
      if conns == map[] then streams - {email} else streams[email := conns]
    else streams
  }

  /** Unregistering each id of `ids` in turn. */
  function RemoveAll(streams: Streams, email: string, ids: seq<ConnId>): Streams
    decreases |ids|
  {
    if ids == [] then streams else RemoveAll(Remove(streams, email, ids[0]), email, ids[1..])
  }

  /**
   * The closed form of removing a set of ids from one email at once: exactly those
   * connections go, the others stay, and the entry goes if none is left.
   */
  function Evict(streams: Streams, email: string, gone: set<ConnId>): (r: Streams)
    ensures forall e :: e in r <==> e in streams && (e != email || streams[e] - gone != map[])
    ensures forall e :: e in r ==> r[e] == if e == email then streams[e] - gone else streams[e]
  {
    if email in streams then
      var rest := streams[email] - gone;
      if rest == map[] then streams - {email} else streams[email := rest]
    else streams
  }

  /** Removing ids one at a time, in any order, is the same as evicting them all at once. */
  lemma {:induction false} RemoveAllIsEvict(streams: Streams, email: string, ids: seq<ConnId>)
    requires NoEmptyEntries(streams)
    ensures RemoveAll(streams, email, ids) == Evict(streams, email, set i | i in ids)
    decreases |ids|
  {
    if ids == [] {
      assert (set i | i in ids) == {};
      if email in streams {
        assert streams[email] - {} == streams[email];
      }
    } else {
      var rest := set i | i in ids[1..];
      RemoveAllIsEvict(Remove(streams, email, ids[0]), email, ids[1..]);
      EvictAfterRemove(streams, email, ids[0], rest);
      assert (set i | i in ids) == {ids[0]} + rest;
    }
  }

  /** Evicting after one Unregister is evicting that id too. */
  lemma EvictAfterRemove(streams: Streams, email: string, id: ConnId, gone: set<ConnId>)
    ensures Evict(Remove(streams, email, id), email, gone) == Evict(streams, email, {id} + gone)
  {
    if email in streams {
      assert streams[email] - {id} - gone == streams[email] - ({id} + gone);
    }
  }

  /** Registering a fresh id keeps the hub invariant. */
  lemma InsertKeepsInvariant(streams: Streams, nextID: int, email: string, s: StreamSender)
    requires HubInvariant(streams, nextID)
    ensures HubInvariant(Insert(streams, email, nextID + 1, s), nextID + 1)
  {
    var id := nextID + 1;
    var r := Insert(streams, email, id, s);
    assert id in r[email];
    forall e1, e2, i | e1 in r && e2 in r && i in r[e1] && i in r[e2]
      ensures e1 == e2
    {
      if i == id {
        assert e1 == email && e2 == email;
      }
    }
  }

  /** Unregistering keeps the hub invariant. */
  lemma RemoveKeepsInvariant(streams: Streams, nextID: int, email: string, id: ConnId)
    requires HubInvariant(streams, nextID)
    ensures HubInvariant(Remove(streams, email, id), nextID)
  {
  }

  /** Evicting keeps the hub invariant. */
  lemma EvictKeepsInvariant(streams: Streams, nextID: int, email: string, gone: set<ConnId>)
    requires HubInvariant(streams, nextID)
    ensures HubInvariant(Evict(streams, email, gone), nextID)
  {
  }

  /** `ConnectionHub` */
  class ConnectionHub {
    var streams: Streams
    var nextID: int

    ghost predicate Valid()
      reads this
    {
      HubInvariant(streams, nextID)
    }

    /** `NewConnectionHub` */
    constructor ()
      ensures Valid()
      ensures streams == map[] && nextID == 0
    {
      streams := map[];
      nextID := 0;
    }

    /** Adds s under email with a fresh id, larger than every id handed out before. */
    method Register(email: string, s: StreamSender) returns (id: ConnId)
      requires Valid()
      modifies this
      ensures Valid()
      ensures id == old(nextID) + 1 && nextID == id
      ensures forall e :: e in old(streams) ==> id !in old(streams)[e]
      ensures streams == Insert(old(streams), email, id, s)
    {
      InsertKeepsInvariant(streams, nextID, email, s);
      nextID := nextID + 1;
      id := nextID;
      var conns := if email in streams then streams[email] else map[];
      streams := streams[email := conns[id := s]];
    }

    /** Removes one connection; a no-op for an absent email or id. */
    method Unregister(email: string, id: ConnId)
      requires Valid()
      modifies this
      ensures Valid()
      ensures nextID == old(nextID)
      ensures streams == Remove(old(streams), email, id)
    {
      RemoveKeepsInvariant(streams, nextID, email, id);
      if email in streams {
        var conns := streams[email] - {id};
        if conns == map[] {
          streams := streams - {email};
        } else {
          streams := streams[email := conns];
        }
      }
    }

    /**
     * Sends to every connection of email, in an arbitrary order (Go's map order),
     * keeps the first failure as the result, then unregisters every connection
     * whose send failed. `outcome(id)` is what Send on connection id returns;
     * `tried` lists the connections Send was called on, in call order.
     */
    method SendToUser(email: string, resp: ChatStreamResponse, outcome: ConnId -> Status)
      returns (err: Option<SendError>, tried: seq<ConnId>)
      requires Valid()
      modifies this
      ensures Valid()
      ensures nextID == old(nextID)
      ensures email !in old(streams) || old(streams)[email] == map[] ==>
        err == Some(NotConnected(email)) && tried == [] && streams == old(streams)
      ensures email in old(streams) && old(streams)[email] != map[] ==>
        && (forall id :: id in tried <==> id in old(streams)[email])
        && (forall i, j :: 0 <= i < j < |tried| ==> tried[i] != tried[j])
        && (err.None? <==> forall id :: id in tried ==> outcome(id).Sent?)
        && (err.Some? ==> exists j :: 0 <= j < |tried| && err.value.SendFailed? && outcome(tried[j]) == Failed(err.value.reason)
                            && forall i :: 0 <= i < j ==> outcome(tried[i]).Sent?)
        && streams == Evict(old(streams), email, set id | id in old(streams)[email] && outcome(id).Failed?)
    {
      if email !in streams || streams[email] == map[] {
        return Some(NotConnected(email)), [];
      }
      var conns := streams[email];
      tried := MapOrder(conns.Keys);
      var failedIDs;
      err, failedIDs := SendEach(tried, outcome);
      forall id
        ensures id in failedIDs <==> id in conns && outcome(id).Failed?
      {
      }
      assert (set id | id in failedIDs) == set id | id in conns && outcome(id).Failed?;
      UnregisterEach(email, failedIDs);
      RemoveAllIsEvict(old(streams), email, failedIDs);
    }

    /** The deferred unregisters of the send loop, one failed connection after another. */
    method UnregisterEach(email: string, ids: seq<ConnId>)
      requires Valid()
      modifies this
      ensures Valid() && nextID == old(nextID)
      ensures streams == RemoveAll(old(streams), email, ids)
    {
      var k := 0;
      while k < |ids|
        invariant 0 <= k <= |ids|
        invariant Valid() && nextID == old(nextID)
        invariant streams == RemoveAll(old(streams), email, ids[..k])
      {
        Unregister(email, ids[k]);
        RemoveAllStep(old(streams), email, ids, k);
        k := k + 1;
      }
      assert ids[..k] == ids;
    }
  }

  /**
   * The send loop of `SendToUser` over the connections in `order`: every one is
   * tried, the first failure is the error reported, and the failed ones are
   * collected for eviction.
   */
  method SendEach(order: seq<ConnId>, outcome: ConnId -> Status) returns (err: Option<SendError>, failed: seq<ConnId>)
    ensures forall id :: id in failed <==> id in order && outcome(id).Failed?
    ensures err.None? <==> forall id :: id in order ==> outcome(id).Sent?
    ensures err.Some? ==> exists j :: 0 <= j < |order| && err.value.SendFailed? && outcome(order[j]) == Failed(err.value.reason)
                                      && forall i :: 0 <= i < j ==> outcome(order[i]).Sent?
  {
    failed := [];
    err := None;
    ghost var first: nat := 0;
    for n := 0 to |order|
      invariant forall id :: id in failed <==> id in order[..n] && outcome(id).Failed?
      invariant err.None? <==> forall i :: 0 <= i < n ==> outcome(order[i]).Sent?
      invariant err.Some? ==> first < n && err.value.SendFailed? && outcome(order[first]) == Failed(err.value.reason)
                              && forall i :: 0 <= i < first ==> outcome(order[i]).Sent?
    {
      assert order[..n + 1] == order[..n] + [order[n]];
      var st := outcome(order[n]);
      if st.Failed? {
        if err.None? {
          err, first := Some(SendFailed(st.reason)), n;
        }
        failed := failed + [order[n]];
      }
    }
    assert order[..|order|] == order;
    if err.None? {
      forall id | id in order
        ensures outcome(id).Sent?
      {
        var i :| 0 <= i < |order| && order[i] == id;
      }
    } else {
      var id := order[first];
      assert id in order && !outcome(id).Sent?;
    }
  }

  /**
   * Go's `range` over a map visits the keys in an unspecified order: any order
   * that lists every key exactly once.
   */
  method MapOrder(keys: set<ConnId>) returns (order: seq<ConnId>)
    ensures forall id :: id in order <==> id in keys
    ensures forall i, j :: 0 <= i < j < |order| ==> order[i] != order[j]
  {
    var remaining := keys;
    order := [];
    while remaining != {}
      invariant remaining <= keys
      invariant forall id :: id in order <==> id in keys && id !in remaining
      invariant forall i, j :: 0 <= i < j < |order| ==> order[i] != order[j]
      decreases remaining
    {
      ghost var some := Sets.Element(remaining);
      var id :| id in remaining;
      order := order + [id];
      remaining := remaining - {id};
    }
  }

  /** One more Unregister extends a RemoveAll by one id. */
  lemma {:induction false} RemoveAllStep(streams: Streams, email: string, ids: seq<ConnId>, k: nat)
    requires k < |ids|
    ensures Remove(RemoveAll(streams, email, ids[..k]), email, ids[k]) == RemoveAll(streams, email, ids[..k + 1])
    decreases k
  {
    if k > 0 {
      RemoveAllStep(Remove(streams, email, ids[0]), email, ids[1..], k - 1);
      assert ids[1..][..k - 1] == ids[..k][1..];
      assert ids[1..][..k] == ids[..k + 1][1..];
    } else {
      assert ids[..1][1..] == [];
    }
  }

  /** hub_test: a send reaches every connection of the user. */
  method SendToAllScenario(resp: ChatStreamResponse) returns (err: Option<SendError>, tried: seq<ConnId>, a: ConnId, b: ConnId)
    ensures err.None? && a in tried && b in tried && a != b
  {
    var hub := new ConnectionHub();
    a := hub.Register("alice@example.com", StreamSender(1));
    b := hub.Register("alice@example.com", StreamSender(2));
    err, tried := hub.SendToUser("alice@example.com", resp, id => Sent);
  }

  /** hub_test: after unregistering one of two connections, a send reaches only the other. */
  method UnregisterThenSendScenario(resp: ChatStreamResponse) returns (err: Option<SendError>, tried: seq<ConnId>, a: ConnId, b: ConnId)
    ensures err.None? && a !in tried && b in tried
  {
    var hub := new ConnectionHub();
    a := hub.Register("alice@example.com", StreamSender(1));
    b := hub.Register("alice@example.com", StreamSender(2));
    hub.Unregister("alice@example.com", a);
    err, tried := hub.SendToUser("alice@example.com", resp, id => Sent);
  }

  /** hub_test: a send to a user who never connected fails and calls no sender. */
  method SendToOfflineScenario(resp: ChatStreamResponse) returns (err: Option<SendError>, tried: seq<ConnId>)
    ensures err == Some(NotConnected("nobody@example.com")) && tried == []
  {
    var hub := new ConnectionHub();
    err, tried := hub.SendToUser("nobody@example.com", resp, id => Sent);
  }

  /** A sequence without repetitions whose only value is x is [x]. */
  lemma OnlyElement<T>(s: seq<T>, x: T)
    requires x in s && forall y :: y in s ==> y == x
    requires forall i, j :: 0 <= i < j < |s| ==> s[i] != s[j]
    ensures s == [x]
  {
    assert s[0] in s;
    if |s| > 1 {
      SecondElement(s);
      assert false;
    }
  }

  lemma SecondElement<T>(s: seq<T>)
    requires |s| > 1
    ensures s[1] in s
  {
  }

  /** The outcome of every send in the partial-failure test: the second sender always fails. */
  function FailingSecond(bad: ConnId): ConnId -> Status {
    id => if id == bad then Failed("send fail") else Sent
  }

  /** hub_test's two registrations for one user: a healthy sender and one that will fail. */
  method TwoConnections() returns (hub: ConnectionHub, ok: ConnId, bad: ConnId)
    ensures fresh(hub) && hub.Valid() && bad != ok
    ensures hub.streams == map["d@example.com" := map[ok := StreamSender(1), bad := StreamSender(2)]]
  {
    hub := new ConnectionHub();
    ok := hub.Register("d@example.com", StreamSender(1));
    bad := hub.Register("d@example.com", StreamSender(2));
  }

  /**
   * The set-up of hub_test's partial-failure case: a send to the two connections on
   * which the second fails, and the hub it leaves.
   */
  method PartialFailure(resp: ChatStreamResponse) returns (hub: ConnectionHub, err: Option<SendError>, ok: ConnId, bad: ConnId)
    ensures fresh(hub) && hub.Valid()
    ensures err.Some? && bad != ok
    ensures hub.streams == map["d@example.com" := map[ok := StreamSender(1)]]
  {
    hub, ok, bad := TwoConnections();
    ghost var before := hub.streams;
    ghost var conns := before["d@example.com"];
    var tried;
    err, tried := hub.SendToUser("d@example.com", resp, FailingSecond(bad));
    assert bad in tried;
    assert (set id | id in conns && FailingSecond(bad)(id).Failed?) == {bad};
    assert hub.streams == Evict(before, "d@example.com", {bad});
    ghost var rest := conns - {bad};
    assert rest == map[ok := StreamSender(1)];
    assert ok in rest;
    assert Evict(before, "d@example.com", {bad}) == before["d@example.com" := rest];
  }

  /** hub_test: one failing of two connections is reported and evicted, and the healthy one stays. */
  method PartialFailureScenario(resp: ChatStreamResponse) returns (err: Option<SendError>, left: set<ConnId>, ok: ConnId, bad: ConnId)
    ensures err.Some? && left == {ok} && bad != ok
  {
    var hub;
    hub, err, ok, bad := PartialFailure(resp);
    left := hub.streams["d@example.com"].Keys;
  }

  /**
   * hub_test: after the failing send evicted the bad connection, a second send on
   * the same hub, with the bad sender still failing, succeeds and reaches only the
   * healthy connection.
   */
  method SendAfterEvictionScenario(resp1: ChatStreamResponse, resp2: ChatStreamResponse)
    returns (err1: Option<SendError>, err2: Option<SendError>, tried2: seq<ConnId>, ok: ConnId)
    ensures err1.Some? && err2.None? && tried2 == [ok]
  {
    var hub, bad;
    hub, err1, ok, bad := PartialFailure(resp1);
    err2, tried2 := hub.SendToUser("d@example.com", resp2, FailingSecond(bad));
    OnlyElement(tried2, ok);
  }

}

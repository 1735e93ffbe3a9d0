/**
 * The chat service handlers. `ChatStream` runs the session loop against the
 * connection hub and the message store; the user directory, the stream's receive
 * and send results, the clock and the insert ids are oracles indexed by the loop
 * iteration. The unary handlers map collaborator failures to status codes.
 */
module Handlers {
  import opened Wrappers
  import opened Status
  import Normalize
  import Hub
  import Interceptors
  import Messages
  import Sets

  /** `html.EscapeString`'s replacement for one character. */
  function EscapeChar(c: char): string {
    match c
    case '&' => "&amp;"
    case '\'' => "&#39;"
    case '<' => "&lt;"
    case '>' => "&gt;"
    case '"' => "&#34;"
    case _ => [c]
  }

  predicate Special(c: char) {
    c == '&' || c == '\'' || c == '<' || c == '>' || c == '"'
  }

  /** `html.EscapeString`: no markup character survives, and text without any is left alone. */
  function EscapeHTML(s: string): (r: string)
    ensures forall i :: 0 <= i < |r| ==> r[i] != '<' && r[i] != '>' && r[i] != '"' && r[i] != '\''
    ensures (forall i :: 0 <= i < |s| ==> !Special(s[i])) ==> r == s
    ensures |r| >= |s|
  {
    if s == [] then [] else EscapeChar(s[0]) + EscapeHTML(s[1..])
  }

  /** `html.UnescapeString`, restricted to the five entities EscapeHTML produces. */
  function UnescapeHTML(s: string): string
    decreases |s|
  {
    if s == [] then []
    else if "&amp;" <= s then "&" + UnescapeHTML(s[5..])
    else if "&#39;" <= s then "'" + UnescapeHTML(s[5..])
    else if "&lt;" <= s then "<" + UnescapeHTML(s[4..])
    else if "&gt;" <= s then ">" + UnescapeHTML(s[4..])
    else if "&#34;" <= s then "\"" + UnescapeHTML(s[5..])
    else [s[0]] + UnescapeHTML(s[1..])
  }

  /** Escaping loses nothing: the stored content unescapes to what the client sent. */
  lemma {:induction false} UnescapeEscape(s: string)
    ensures UnescapeHTML(EscapeHTML(s)) == s
  {
    if s != [] {
      var rest := EscapeHTML(s[1..]);
      assert UnescapeHTML(EscapeHTML(s)) == [s[0]] + UnescapeHTML(rest) by {
        assert EscapeHTML(s) == EscapeChar(s[0]) + rest;
        UnescapeEscapeChar(s[0], rest);
      }
      UnescapeEscape(s[1..]);
      assert s == [s[0]] + s[1..];
    }
  }

  /** Unescaping reads one escaped character back and then goes on with what follows it. */
  lemma UnescapeEscapeChar(c: char, rest: string)
    ensures UnescapeHTML(EscapeChar(c) + rest) == [c] + UnescapeHTML(rest)
  {
    var e := EscapeChar(c);
    var t := e + rest;
    assert t[|e|..] == rest;
    if c == '&' {
      assert "&amp;" <= t;
    } else if c == '\'' {
      assert !("&amp;" <= t) by { assert t[1] == '#'; }
      assert "&#39;" <= t;
    } else if c == '<' {
      assert !("&amp;" <= t) && !("&#39;" <= t) by { assert t[1] == 'l'; }
      assert "&lt;" <= t;
    } else if c == '>' {
      assert !("&amp;" <= t) && !("&#39;" <= t) && !("&lt;" <= t) by { assert t[1] == 'g'; }
      assert "&gt;" <= t;
    } else if c == '"' {
      assert !("&amp;" <= t) && !("&lt;" <= t) && !("&gt;" <= t) by { assert t[1] == '#'; }
      assert !("&#39;" <= t) by { assert t[2] == '3' && t[3] == '4'; }
      assert "&#34;" <= t;
    } else {
      assert t[0] == c && c != '&';
      assert !("&amp;" <= t) && !("&#39;" <= t) && !("&lt;" <= t) && !("&gt;" <= t) && !("&#34;" <= t);
    }
  }

  /** `ObjectID.Hex`: lower-case hexadecimal digits of the id. */
  function Hex(n: nat): string
    decreases n
  {
    var digit := "0123456789abcdef"[n % 16];
    if n < 16 then [digit] else Hex(n / 16) + [digit]
  }

  /** One outcome of `stream.Recv`; running out of outcomes is `io.EOF`. */
  datatype ChatStreamRequest = ChatStreamRequest(toEmail: string, content: string)
  datatype RecvOutcome = Request(req: ChatStreamRequest) | RecvFailed(reason: string)

  /**
   * What the session's collaborators answer at loop iteration k: the user
   * directory (`UserExists`), the insert's id or error, the two clock readings
   * (the handler's `time.Now()` and SaveMessage's), and the acknowledgement send.
   */
  datatype Collaborators = Collaborators(
    userExists: (nat, string) -> Result<bool, string>,
    insert: nat -> Result<Messages.ObjectId, string>,
    sentAt: nat -> int,
    createdAt: nat -> int,
    ackError: nat -> Option<string>)

  /** The observable steps of a session, in order. */
  datatype Event =
    | Registered(id: Hub.ConnId)
    | Saved(msg: Messages.Message)
    | Acked(resp: Hub.ChatStreamResponse)
    | FannedOut(step: nat, to: string, resp: Hub.ChatStreamResponse)
    | Unregistered(id: Hub.ConnId)

  /** The acknowledgement built from a saved record. */
  function AckFor(m: Messages.Message): (resp: Hub.ChatStreamResponse)
    ensures resp.msgId == Hex(m.id)
    ensures resp.fromEmail == m.fromEmail && resp.content == m.content && resp.sentAt == m.sentAt
  {
    Hub.ChatStreamResponse(Hex(m.id), m.fromEmail, m.content, m.sentAt)
  }

  datatype SessionOutcome = SessionOutcome(err: Option<StatusError>, saved: seq<Messages.Message>, events: seq<Event>)

  /**
   * The shape of a session's event trace: each round is Saved, then the
   * acknowledgement of that very record, then (with a hub) one fan-out of it; only
   * the last round may stop after its save, when the acknowledgement failed.
   */
  predicate Rounds(evs: seq<Event>, hubPresent: bool)
    decreases |evs|
  {
    if evs == [] then true
    else if |evs| == 1 then evs[0].Saved?
    else
      && evs[0].Saved?
      && evs[1] == Acked(AckFor(evs[0].msg))
      && if hubPresent then
           |evs| >= 3 && evs[2].FannedOut? && evs[2].resp == evs[1].resp && Rounds(evs[3..], hubPresent)
         else Rounds(evs[2..], hubPresent)
  }

  /** How one iteration ends: the session stops (with the records saved in it), or goes on after a delivered ack. */
  datatype StepResult = Stop(err: StatusError, saved: seq<Messages.Message>) | Continue(msg: Messages.Message, to: string)

  /**
   * One iteration of the loop on the received `r`: check the recipient, save the
   * escaped content under the normalised addresses, acknowledge it.
   */
  function Step(email: string, r: RecvOutcome, env: Collaborators, k: nat): (s: StepResult)
    ensures s.Stop? ==> s.err.code == Internal || s.err == StatusError(NotFound, "recipient not found")
    ensures s.Stop? ==> |s.saved| <= 1
    ensures s.Stop? && s.saved != [] ==> s.err.code == Internal && r.Request? && s.saved[0].fromEmail == Normalize.Email(email)
                                          && s.saved[0].toEmail == Normalize.Email(r.req.toEmail)
    ensures s.Continue? ==> r.Request? && s.msg.fromEmail == Normalize.Email(email) && s.msg.toEmail == Normalize.Email(r.req.toEmail)
                            && s.to == r.req.toEmail
    ensures r.RecvFailed? ==> s.Stop? && s.err.code == Internal && s.saved == []
    ensures s.Stop? && s.err.code == NotFound <==> r.Request? && env.userExists(k, r.req.toEmail) == Ok(false)
    ensures r.Request? && env.userExists(k, r.req.toEmail).Err? ==> s.Stop? && s.err.code == Internal && s.saved == []
    ensures r.Request? && env.userExists(k, r.req.toEmail) == Ok(true) && env.insert(k).Ok? ==>
              (s.Continue? <==> env.ackError(k).None?)
    ensures r.Request? && env.userExists(k, r.req.toEmail) == Ok(true) && env.insert(k).Ok? && env.ackError(k).Some? ==>
              s.Stop? && s.err.code == Internal && |s.saved| == 1
  {
    match r
    case RecvFailed(e) => Stop(StatusError(Internal, "receive error: " + e), [])
    case Request(req) =>
      match env.userExists(k, req.toEmail)
      case Err(e) => Stop(StatusError(Internal, "failed to verify recipient: " + e), [])
      case Ok(found) =>
        if !found then Stop(StatusError(NotFound, "recipient not found"), [])
        else match env.insert(k)
          case Err(e) => Stop(StatusError(Internal, "failed to save message: " + e), [])
          case Ok(id) =>
            var m := Messages.NewMessage(id, email, req.toEmail, EscapeHTML(req.content), env.sentAt(k), env.createdAt(k));
            match env.ackError(k)
            case Some(e) => Stop(StatusError(Internal, "failed to send response to sender: " + e), [m])
            case None => Continue(m, req.toEmail)
  }

  /**
   * The session from iteration k on, as far as it does not depend on the hub: the
   * status it ends with, the records it saves and its trace. A fan-out's own
   * outcome never enters it.
   */
  function Run(email: string, recv: seq<RecvOutcome>, env: Collaborators, hubPresent: bool, k: nat): (out: SessionOutcome)
    requires k <= |recv|
    decreases |recv| - k
    ensures out.err.Some? ==> out.err.value.code == Internal || out.err.value == StatusError(NotFound, "recipient not found")
    ensures Rounds(out.events, hubPresent)
    ensures out.err.None? ==> |out.saved| == |recv| - k
  {
    if k == |recv| then SessionOutcome(None, [], [])
    else match Step(email, recv[k], env, k)
      case Stop(err, saved) => SessionOutcome(Some(err), saved, if saved == [] then [] else [Saved(saved[0])])
      case Continue(m, to) =>
        var rest := Run(email, recv, env, hubPresent, k + 1);
        var fan := if hubPresent then [FannedOut(k, to, AckFor(m))] else [];
        RoundsCons(m, fan, rest.events, hubPresent);
        SessionOutcome(rest.err, [m] + rest.saved, [Saved(m), Acked(AckFor(m))] + fan + rest.events)
  }

  /** One more complete round in front of a well-formed trace keeps it well formed. */
  lemma RoundsCons(m: Messages.Message, fan: seq<Event>, rest: seq<Event>, hubPresent: bool)
    requires Rounds(rest, hubPresent)
    requires hubPresent ==> |fan| == 1 && fan[0].FannedOut? && fan[0].resp == AckFor(m)
    requires !hubPresent ==> fan == []
    ensures Rounds([Saved(m), Acked(AckFor(m))] + fan + rest, hubPresent)
  {
    var evs := [Saved(m), Acked(AckFor(m))] + fan + rest;
    if hubPresent {
      assert evs[3..] == rest;
    } else {
      assert evs[2..] == rest;
    }
  }

  /** A session that has saved `saved` and produced `trace`, followed by the outcome of the rest. */
  function Resume(saved: seq<Messages.Message>, trace: seq<Event>, rest: SessionOutcome): SessionOutcome {
    SessionOutcome(rest.err, saved + rest.saved, trace + rest.events)
  }

  /**
   * A session in which every request names an existing recipient and every save
   * and acknowledgement succeeds ends without error at end of input, having saved
   * one record per request, whatever happened to the fan-outs.
   */
  lemma {:induction false} CleanSession(email: string, recv: seq<RecvOutcome>, env: Collaborators, hubPresent: bool, k: nat)
    requires k <= |recv|
    requires forall j :: k <= j < |recv| ==> recv[j].Request?
    requires forall j :: k <= j < |recv| ==> env.userExists(j, recv[j].req.toEmail) == Ok(true)
    requires forall j :: k <= j < |recv| ==> env.insert(j).Ok? && env.ackError(j).None?
    ensures Run(email, recv, env, hubPresent, k).err.None?
    ensures |Run(email, recv, env, hubPresent, k).saved| == |recv| - k
    decreases |recv| - k
  {
    if k < |recv| {
      CleanRound(email, recv, env, hubPresent, k);
      CleanSession(email, recv, env, hubPresent, k + 1);
      assert Run(email, recv, env, hubPresent, k + 1).err.None?;
      assert Run(email, recv, env, hubPresent, k).err.None?;
    } else {
      RunAtEnd(email, recv, env, hubPresent);
      assert Run(email, recv, env, hubPresent, k).err.None?;
    }
  }

  /** A clean round passes the status of the rest of the session through and saves one record. */
  lemma CleanRound(email: string, recv: seq<RecvOutcome>, env: Collaborators, hubPresent: bool, k: nat)
    requires k < |recv| && recv[k].Request?
    requires env.userExists(k, recv[k].req.toEmail) == Ok(true)
    requires env.insert(k).Ok? && env.ackError(k).None?
    ensures Run(email, recv, env, hubPresent, k).err == Run(email, recv, env, hubPresent, k + 1).err
  {
    CleanStep(email, recv[k], env, k);
    RunContinues(email, recv, env, hubPresent, k);
  }

  /** At the end of the input the session ends without error, having saved and traced nothing. */
  lemma RunAtEnd(email: string, recv: seq<RecvOutcome>, env: Collaborators, hubPresent: bool)
    ensures Run(email, recv, env, hubPresent, |recv|) == SessionOutcome(None, [], [])
  {
  }

  /** A request to an existing recipient whose save and acknowledgement succeed lets the session go on. */
  lemma CleanStep(email: string, r: RecvOutcome, env: Collaborators, k: nat)
    requires r.Request? && env.userExists(k, r.req.toEmail) == Ok(true)
    requires env.insert(k).Ok? && env.ackError(k).None?
    ensures Step(email, r, env, k).Continue?
  {
  }

  /**
   * The step at iteration k: a missing recipient or a failing lookup or save ends
   * the session before anything is saved in that step.
   */
  lemma StepFailuresSaveNothing(email: string, recv: seq<RecvOutcome>, env: Collaborators, hubPresent: bool, k: nat)
    requires k < |recv| && recv[k].Request?
    ensures var to := recv[k].req.toEmail;
            var out := Run(email, recv, env, hubPresent, k);
            && (env.userExists(k, to) == Ok(false) ==> out == SessionOutcome(Some(StatusError(NotFound, "recipient not found")), [], []))
            && (env.userExists(k, to).Err? ==> out.err.value.code == Internal && out.saved == [])
            && (env.userExists(k, to) == Ok(true) && env.insert(k).Err? ==> out.err.value.code == Internal && out.events == [])
            && (env.userExists(k, to) == Ok(true) && env.insert(k).Ok? ==>
                  && out.saved != [] && out.saved[0].id == env.insert(k).value
                  && out.saved[0].content == EscapeHTML(recv[k].req.content)
                  && out.saved[0].fromEmail == Normalize.Email(email) && out.saved[0].toEmail == Normalize.Email(to))
  {
  }

  /** The hub after the send of one fan-out: failed connections of the recipient evicted. */
  function AfterSend(streams: Hub.Streams, to: string, outcome: Hub.ConnId -> Hub.Status): Hub.Streams {
    if to in streams && streams[to] != map[] then Hub.Evict(streams, to, set c | c in streams[to] && outcome(c).Failed?)
    else streams
  }

  /** The hub after the fan-outs of a trace, in order; `fanout(k)` is what the sends of iteration k return. */
  function Deliver(streams: Hub.Streams, evs: seq<Event>, fanout: nat -> (Hub.ConnId -> Hub.Status)): Hub.Streams
    decreases |evs|
  {
    if evs == [] then streams
    else
      var prev := Deliver(streams, evs[..|evs| - 1], fanout);
      var e := evs[|evs| - 1];
      if e.FannedOut? then AfterSend(prev, e.to, fanout(e.step)) else prev
  }

  lemma DeliverSnoc(streams: Hub.Streams, evs: seq<Event>, e: Event, fanout: nat -> (Hub.ConnId -> Hub.Status))
    ensures Deliver(streams, evs + [e], fanout)
            == if e.FannedOut? then AfterSend(Deliver(streams, evs, fanout), e.to, fanout(e.step)) else Deliver(streams, evs, fanout)
  {
    assert (evs + [e])[..|evs|] == evs;
  }

  /** A round leaves the hub as its fan-out, if any, leaves it. */
  lemma DeliverRound(streams: Hub.Streams, trace: seq<Event>, m: Messages.Message, fan: seq<Event>,
                     fanout: nat -> (Hub.ConnId -> Hub.Status))
    requires fan == [] || (|fan| == 1 && fan[0].FannedOut?)
    ensures Deliver(streams, trace + ([Saved(m), Acked(AckFor(m))] + fan), fanout)
            == if fan == [] then Deliver(streams, trace, fanout)
               else AfterSend(Deliver(streams, trace, fanout), fan[0].to, fanout(fan[0].step))
  {
    var round := trace + [Saved(m)] + [Acked(AckFor(m))];
    DeliverSnoc(streams, trace, Saved(m), fanout);
    DeliverSnoc(streams, trace + [Saved(m)], Acked(AckFor(m)), fanout);
    if fan == [] {
      assert trace + ([Saved(m), Acked(AckFor(m))] + fan) == round;
    } else {
      DeliverSnoc(streams, round, fan[0], fanout);
      assert trace + ([Saved(m), Acked(AckFor(m))] + fan) == round + [fan[0]];
    }
  }

  /** Every connection in a is in b under the same email with the same sender. */
  ghost predicate SubStreams(a: Hub.Streams, b: Hub.Streams) {
    forall e :: e in a ==> e in b && forall c :: c in a[e] ==> c in b[e] && a[e][c] == b[e][c]
  }

  /** Fan-outs only ever remove connections. */
  lemma {:induction false} DeliverShrinks(streams: Hub.Streams, evs: seq<Event>, fanout: nat -> (Hub.ConnId -> Hub.Status))
    ensures SubStreams(Deliver(streams, evs, fanout), streams)
    decreases |evs|
  {
    if evs != [] {
      DeliverShrinks(streams, evs[..|evs| - 1], fanout);
    }
  }

  /**
   * After the deferred unregister, the hub holds no connection the session did not
   * find there, and a user with no connection before the session has none after.
   */
  lemma SessionLeavesNoConnection(before: Hub.Streams, email: string, id: Hub.ConnId, self: Hub.StreamSender,
                                  evs: seq<Event>, fanout: nat -> (Hub.ConnId -> Hub.Status))
    requires forall e :: e in before ==> id !in before[e]
    ensures var after := Hub.Remove(Deliver(Hub.Insert(before, email, id, self), evs, fanout), email, id);
            && SubStreams(after, before)
            && (email !in before ==> email !in after)
  {
    var inserted := Hub.Insert(before, email, id, self);
    var delivered := Deliver(inserted, evs, fanout);
    DeliverShrinks(inserted, evs, fanout);
    var after := Hub.Remove(delivered, email, id);
    forall e | e in after
      ensures e in before && forall c :: c in after[e] ==> c in before[e] && after[e][c] == before[e][c]
    {
      assert e in delivered;
      if e == email {
        var left := delivered[email] - {id};
        var some := Sets.Element(left.Keys);
        var c :| c in left;
        assert c in inserted[email] && c != id;
        assert c in Hub.ConnsOf(before, email);
      }
    }
  }

  /**
   * The events one iteration adds to the trace: the saved record alone when the
   * acknowledgement fails, else its round, with a fan-out when there is a hub.
   */
  function RoundEvents(s: StepResult, hubPresent: bool, k: nat): seq<Event> {
    match s
    case Stop(_, saved) => if saved == [] then [] else [Saved(saved[0])]
    case Continue(m, to) => [Saved(m), Acked(AckFor(m))] + (if hubPresent then [FannedOut(k, to, AckFor(m))] else [])
  }

  /** The session from k is the step at k, followed, when it goes on, by the session from k + 1. */
  lemma RunStep(email: string, recv: seq<RecvOutcome>, env: Collaborators, hubPresent: bool, k: nat)
    requires k < |recv|
    ensures var s := Step(email, recv[k], env, k);
      && (s.Stop? ==> Run(email, recv, env, hubPresent, k) == SessionOutcome(Some(s.err), s.saved, RoundEvents(s, hubPresent, k)))
      && (s.Continue? ==>
            var rest := Run(email, recv, env, hubPresent, k + 1);
            Run(email, recv, env, hubPresent, k) == SessionOutcome(rest.err, [s.msg] + rest.saved, RoundEvents(s, hubPresent, k) + rest.events))
  {
  }

  /** A step that goes on passes the rest of the session's status through and saves one record more. */
  lemma RunContinues(email: string, recv: seq<RecvOutcome>, env: Collaborators, hubPresent: bool, k: nat)
    requires k < |recv| && Step(email, recv[k], env, k).Continue?
    ensures Run(email, recv, env, hubPresent, k).err == Run(email, recv, env, hubPresent, k + 1).err
    ensures |Run(email, recv, env, hubPresent, k).saved| == 1 + |Run(email, recv, env, hubPresent, k + 1).saved|
  {
  }

  /** Resuming before anything happened is the session itself. */
  lemma ResumeFromStart(out: SessionOutcome)
    ensures Resume([], [], out) == out
  {
    AppendNothing(out.saved);
    AppendNothing(out.events);
  }

  /** Resuming at the end of the input keeps what was saved and traced. */
  lemma ResumeAtEnd(saved: seq<Messages.Message>, trace: seq<Event>)
    ensures Resume(saved, trace, SessionOutcome(None, [], [])) == SessionOutcome(None, saved, trace)
  {
    AppendNothing(saved);
    AppendNothing(trace);
  }

  /**
   * Appending nothing changes nothing. Stated over any element type, so the session
   * proofs use it as one fact instead of re-deriving sequence equality of records.
   */
  lemma AppendNothing<T>(s: seq<T>)
    ensures [] + s == s && s + [] == s
  {
  }

  /** Resuming after one more turn is resuming with that turn's records and events appended. */
  lemma ResumeAppend(saved: seq<Messages.Message>, trace: seq<Event>, added: seq<Messages.Message>, evs: seq<Event>,
                     rest: SessionOutcome)
    ensures Resume(saved, trace, Resume(added, evs, rest)) == Resume(saved + added, trace + evs, rest)
  {
    AppendAssoc(saved, added, rest.saved);
    AppendAssoc(trace, evs, rest.events);
  }

  /**
   * One iteration of `ChatStream` on the received `r`, as `Step` describes it: the
   * record it saves, the events it adds, and the hub after the fan-out.
   */
  method ChatRound(hub: Hub.ConnectionHub?, store: Messages.MessagesStore, email: string, r: RecvOutcome,
                   env: Collaborators, k: nat, fanout: nat -> (Hub.ConnId -> Hub.Status),
                   ghost start: Hub.Streams, ghost trace: seq<Event>)
    returns (stop: Option<StatusError>, evs: seq<Event>)
    requires hub != null ==> hub.Valid() && hub.streams == Deliver(start, trace, fanout)
    modifies hub, store
    ensures hub != null ==> hub.Valid() && hub.nextID == old(hub.nextID)
                            && hub.streams == Deliver(start, trace + evs, fanout)
    ensures evs == RoundEvents(Step(email, r, env, k), hub != null, k)
    ensures Step(email, r, env, k).Stop? ==>
      stop == Some(Step(email, r, env, k).err) && store.coll == old(store.coll) + Step(email, r, env, k).saved
    ensures Step(email, r, env, k).Continue? ==>
      stop.None? && store.coll == old(store.coll) + [Step(email, r, env, k).msg]
  {
    assert trace + [] == trace;
    match r
    case RecvFailed(e) =>
      return Some(StatusError(Internal, "receive error: " + e)), [];
    case Request(req) =>
      var known := env.userExists(k, req.toEmail);
      if known.Err? {
        return Some(StatusError(Internal, "failed to verify recipient: " + known.error)), [];
      }
      if !known.value {
        return Some(StatusError(NotFound, "recipient not found")), [];
      }
      stop, evs := SaveAndFanOut(hub, store, email, req, env, k, fanout, start, trace);
  }

  /**
   * The rest of an iteration once the recipient is known to exist: save the
   * record, acknowledge it to the sender, and hand it to the hub.
   */
  method SaveAndFanOut(hub: Hub.ConnectionHub?, store: Messages.MessagesStore, email: string, req: ChatStreamRequest,
                       env: Collaborators, k: nat, fanout: nat -> (Hub.ConnId -> Hub.Status),
                       ghost start: Hub.Streams, ghost trace: seq<Event>)
    returns (stop: Option<StatusError>, evs: seq<Event>)
    requires hub != null ==> hub.Valid() && hub.streams == Deliver(start, trace, fanout)
    requires env.userExists(k, req.toEmail) == Ok(true)
    modifies hub, store
    ensures hub != null ==> hub.Valid() && hub.nextID == old(hub.nextID)
                            && hub.streams == Deliver(start, trace + evs, fanout)
    ensures evs == RoundEvents(Step(email, Request(req), env, k), hub != null, k)
    ensures Step(email, Request(req), env, k).Stop? ==>
      stop == Some(Step(email, Request(req), env, k).err) && store.coll == old(store.coll) + Step(email, Request(req), env, k).saved
    ensures Step(email, Request(req), env, k).Continue? ==>
      stop.None? && store.coll == old(store.coll) + [Step(email, Request(req), env, k).msg]
  {
    var saved := store.SaveMessage(email, req.toEmail, EscapeHTML(req.content), env.sentAt(k), env.createdAt(k), env.insert(k));
    if saved.Err? {
      assert trace + [] == trace;
      return Some(StatusError(Internal, "failed to save message: " + saved.error)), [];
    }
    var m := saved.value;
    if env.ackError(k).Some? {
      DeliverSnoc(start, trace, Saved(m), fanout);
      return Some(StatusError(Internal, "failed to send response to sender: " + env.ackError(k).value)), [Saved(m)];
    }
    var resp := AckFor(m);
    var fan: seq<Event> := [];
    if hub != null {
      var _, _ := hub.SendToUser(req.toEmail, resp, fanout(k));
      fan := [FannedOut(k, req.toEmail, resp)];
    }
    DeliverRound(start, trace, m, fan, fanout);
    return None, [Saved(m), Acked(resp)] + fan;
  }

  /** Concatenation regroups freely; stated generically for the same reason as `AppendNothing`. */
  lemma AppendAssoc<T>(a: seq<T>, b: seq<T>, c: seq<T>)
    ensures a + b + c == a + (b + c)
  {
  }

  /**
   * One turn of the receive loop: the iteration on the k-th receive, described by
   * how the session from k goes on. It stops with the records `added` and the
   * events `evs`, or continues with them in front of the session from k + 1.
   */
  method Turn(hub: Hub.ConnectionHub?, store: Messages.MessagesStore, email: string, recv: seq<RecvOutcome>,
              env: Collaborators, k: nat, fanout: nat -> (Hub.ConnId -> Hub.Status),
              ghost start: Hub.Streams, ghost trace: seq<Event>)
    returns (stop: Option<StatusError>, evs: seq<Event>, ghost added: seq<Messages.Message>)
    requires k < |recv|
    requires hub != null ==> hub.Valid() && hub.streams == Deliver(start, trace, fanout)
    modifies hub, store
    ensures hub != null ==> hub.Valid() && hub.nextID == old(hub.nextID)
                            && hub.streams == Deliver(start, trace + evs, fanout)
    ensures store.coll == old(store.coll) + added
    ensures stop.Some? ==> Run(email, recv, env, hub != null, k) == SessionOutcome(stop, added, evs)
    ensures stop.None? ==> Run(email, recv, env, hub != null, k) == Resume(added, evs, Run(email, recv, env, hub != null, k + 1))
  {
    ghost var step := Step(email, recv[k], env, k);
    stop, evs := ChatRound(hub, store, email, recv[k], env, k, fanout, start, trace);
    added := if stop.Some? then step.saved else [step.msg];
    RunStep(email, recv, env, hub != null, k);
  }

  /**
   * Turn, seen from the start of the session: if the session so far, followed by
   * the rest from k, is `whole`, then so is the session so far extended by this
   * turn, followed by the rest from k + 1 (or the turn ends it).
   */
  method Advance(hub: Hub.ConnectionHub?, store: Messages.MessagesStore, email: string, recv: seq<RecvOutcome>,
                 env: Collaborators, k: nat, fanout: nat -> (Hub.ConnId -> Hub.Status),
                 ghost start: Hub.Streams, ghost base: seq<Messages.Message>, ghost saved: seq<Messages.Message>,
                 ghost trace: seq<Event>, ghost whole: SessionOutcome)
    returns (stop: Option<StatusError>, evs: seq<Event>, ghost added: seq<Messages.Message>)
    requires k < |recv|
    requires hub != null ==> hub.Valid() && hub.streams == Deliver(start, trace, fanout)
    requires store.coll == base + saved
    requires whole == Resume(saved, trace, Run(email, recv, env, hub != null, k))
    modifies hub, store
    ensures hub != null ==> hub.Valid() && hub.nextID == old(hub.nextID)
                            && hub.streams == Deliver(start, trace + evs, fanout)
    ensures store.coll == base + (saved + added)
    ensures stop.Some? ==> whole == SessionOutcome(stop, saved + added, trace + evs)
    ensures stop.None? ==> whole == Resume(saved + added, trace + evs, Run(email, recv, env, hub != null, k + 1))
  {
    stop, evs, added := Turn(hub, store, email, recv, env, k, fanout, start, trace);
    assert store.coll == base + (saved + added) by {
      AppendAssoc(base, saved, added);
    }
    if stop.None? {
      assert whole == Resume(saved + added, trace + evs, Run(email, recv, env, hub != null, k + 1)) by {
        ResumeAppend(saved, trace, added, evs, Run(email, recv, env, hub != null, k + 1));
      }
    }
  }

  /**
   * The receive loop of `ChatStream`, from the first request until it stops or the
   * input ends: its status, records and trace are those of `Run`, and the hub is
   * left as the trace's fan-outs leave it.
   */
  method Serve(hub: Hub.ConnectionHub?, store: Messages.MessagesStore, email: string, recv: seq<RecvOutcome>,
               env: Collaborators, fanout: nat -> (Hub.ConnId -> Hub.Status))
    returns (err: Option<StatusError>, trace: seq<Event>)
    requires hub != null ==> hub.Valid()
    modifies hub, store
    ensures hub != null ==> hub.Valid() && hub.nextID == old(hub.nextID)
                            && hub.streams == Deliver(old(hub.streams), trace, fanout)
    ensures err == Run(email, recv, env, hub != null, 0).err
    ensures trace == Run(email, recv, env, hub != null, 0).events
    ensures store.coll == old(store.coll) + Run(email, recv, env, hub != null, 0).saved
  {
    var hubPresent := hub != null;
    ghost var start: Hub.Streams := if hub != null then hub.streams else map[];
    ghost var saved: seq<Messages.Message> := [];
    trace := [];
    var stopped := false;
    err := None;
    var k := 0;
    ghost var whole := Run(email, recv, env, hubPresent, 0);
    assert whole == Resume(saved, trace, Run(email, recv, env, hubPresent, k)) by {
      ResumeFromStart(whole);
    }
    while k < |recv| && !stopped
      invariant 0 <= k <= |recv|
      invariant hubPresent == (hub != null)
      invariant store.coll == old(store.coll) + saved
      invariant hub != null ==> hub.Valid() && hub.nextID == old(hub.nextID) && hub.streams == Deliver(start, trace, fanout)
      invariant !stopped ==> err.None? && whole == Resume(saved, trace, Run(email, recv, env, hubPresent, k))
      invariant stopped ==> whole == SessionOutcome(err, saved, trace)
      decreases |recv| - k
    {
      var stop, evs;
      ghost var added;
      stop, evs, added := Advance(hub, store, email, recv, env, k, fanout, start, old(store.coll), saved, trace, whole);
      if stop.Some? {
        err, stopped := stop, true;
      }
      saved := saved + added;
      trace := trace + evs;
      k := k + 1;
    }
    if !stopped {
      assert whole == SessionOutcome(None, saved, trace) by {
        ResumeAtEnd(saved, trace);
      }
    }
  }

  /**
   * `ChatStream`. Without claims it fails before touching the hub. Otherwise it
   * registers its own stream, runs the loop, and unregisters on every way out:
   * the status, the saved records and the trace are those of Run, and the hub
   * ends as the fan-outs left it minus the session's connection.
   */
  method ChatStream(hub: Hub.ConnectionHub?, store: Messages.MessagesStore, ctx: Interceptors.Context,
                    self: Hub.StreamSender, recv: seq<RecvOutcome>, env: Collaborators,
                    fanout: nat -> (Hub.ConnId -> Hub.Status))
    returns (err: Option<StatusError>, events: seq<Event>)
    requires hub != null ==> hub.Valid()
    modifies hub, store
    ensures hub != null ==> hub.Valid()
    ensures Interceptors.GetClaims(ctx).None? ==>
      && err == Some(StatusError(Unauthenticated, "missing auth claims")) && events == []
      && store.coll == old(store.coll)
      && (hub != null ==> hub.streams == old(hub.streams) && hub.nextID == old(hub.nextID))
    ensures Interceptors.GetClaims(ctx).Some? ==>
      var email := Interceptors.GetClaims(ctx).value.email;
      var out := Run(email, recv, env, hub != null, 0);
      && err == out.err
      && store.coll == old(store.coll) + out.saved
      && (hub == null ==> events == out.events)
      && (hub != null ==>
           && hub.nextID == old(hub.nextID) + 1
           && events == [Registered(hub.nextID)] + out.events + [Unregistered(hub.nextID)]
           && hub.streams == Hub.Remove(Deliver(Hub.Insert(old(hub.streams), email, hub.nextID, self), out.events, fanout),
                                        email, hub.nextID))
  {
    var claims := Interceptors.GetClaims(ctx);
    if claims.None? {
      return Some(StatusError(Unauthenticated, "missing auth claims")), [];
    }
    var email := claims.value.email;
    var id: Hub.ConnId := 0;
    if hub != null {
      id := hub.Register(email, self);
    }
    var trace;
    err, trace := Serve(hub, store, email, recv, env, fanout);
    if hub != null {
      hub.Unregister(email, id);
      events := [Registered(id)] + trace + [Unregistered(id)];
    } else {
      events := trace;
    }
  }

  /** `ListChats`' limit: the request's, or 50 when it is 0. */
  function ListLimit(requested: int): (limit: int)
    ensures requested == 0 ==> limit == 50
    ensures requested != 0 ==> limit == requested
  {
    if requested == 0 then 50 else requested
  }

  /** `GetHistory` always asks for the 100 most recent messages. */
  const HistoryLimit: int := 100

  /** The index of the first failing send among n, or n when all succeed. */
  function FirstFailure(send: nat -> Option<string>, n: nat): (i: nat)
    ensures i <= n
    ensures forall j :: 0 <= j < i ==> send(j).None?
    ensures i < n ==> send(i).Some?
  {
    if n == 0 then 0
    else
      var i := FirstFailure(send, n - 1);
      if i < n - 1 then i else if send(n - 1).Some? then n - 1 else n
  }

  /**
   * The send loop shared by the listing handlers: items go out in order until the
   * first failed send, whose error is reported; nothing after it is sent.
   */
  method SendInOrder<T, R>(items: seq<T>, convert: T -> R, send: nat -> Option<string>)
    returns (failed: Option<string>, sent: seq<R>)
    ensures var n := FirstFailure(send, |items|);
      && |sent| == n
      && (forall i :: 0 <= i < n ==> sent[i] == convert(items[i]))
      && (n == |items| ==> failed.None?)
      && (n < |items| ==> failed == Some(send(n).value))
  {
    sent := [];
    for i := 0 to |items|
      invariant |sent| == i && i <= FirstFailure(send, |items|)
      invariant forall j :: 0 <= j < i ==> sent[j] == convert(items[j])
    {
      if send(i).Some? {
        return Some(send(i).value), sent;
      }
      sent := sent + [convert(items[i])];
    }
    return None, sent;
  }

  datatype ListChatsResponse = ListChatsResponse(email: string, lastMessage: string, lastMessageAt: int)

  datatype GetHistoryResponse = GetHistoryResponse(msgId: string, fromEmail: string, toEmail: string, content: string, sentAt: int)

  function ToListResponse(p: Messages.ChatPartner): ListChatsResponse {
    ListChatsResponse(p.email, p.lastMessage, p.lastMessageTime)
  }

  function ToHistoryResponse(m: Messages.Message): GetHistoryResponse {
    GetHistoryResponse(Hex(m.id), m.fromEmail, m.toEmail, m.content, m.sentAt)
  }

  /**
   * `ListChats`: the caller's recent partners, fetched with the request's limit
   * (50 when 0) and streamed in order until a send fails. `send(i)` is the error
   * of the i-th send, `aggError` a failure of the aggregation itself.
   */
  method ListChats(store: Messages.MessagesStore, ctx: Interceptors.Context, requestedLimit: int,
                   aggError: Option<string>, send: nat -> Option<string>)
    returns (err: Option<StatusError>, sent: seq<ListChatsResponse>)
    ensures Interceptors.GetClaims(ctx).None? ==> err == Some(StatusError(Unauthenticated, "missing auth claims")) && sent == []
    ensures Interceptors.GetClaims(ctx).Some? && aggError.Some? ==>
      err == Some(StatusError(Internal, "failed to read recent chats: " + aggError.value)) && sent == []
    ensures Interceptors.GetClaims(ctx).Some? && aggError.None? ==>
      var rows := Messages.RecentChats(store.coll, Normalize.Email(Interceptors.GetClaims(ctx).value.email), ListLimit(requestedLimit));
      && (rows.Err? ==> err == Some(StatusError(Internal, "failed to read recent chats: " + rows.error)) && sent == [])
      && (rows.Ok? ==>
           var n := FirstFailure(send, |rows.value|);
           && |sent| == n
           && (forall i :: 0 <= i < n ==> sent[i] == ToListResponse(Messages.ToPartner(rows.value[i])))
           && (n == |rows.value| ==> err.None?)
           && (n < |rows.value| ==> err == Some(StatusError(Internal, "failed to send partner: " + send(n).value))))
  {
    var claims := Interceptors.GetClaims(ctx);
    if claims.None? {
      return Some(StatusError(Unauthenticated, "missing auth claims")), [];
    }
    var limit := requestedLimit;
    if limit == 0 {
      limit := 50;
    }
    var r := store.GetRecentChats(claims.value.email, limit, aggError);
    if r.Err? {
      return Some(StatusError(Internal, "failed to read recent chats: " + r.error)), [];
    }
    var failed;
    failed, sent := SendInOrder(r.value, ToListResponse, send);
    if failed.Some? {
      return Some(StatusError(Internal, "failed to send partner: " + failed.value)), sent;
    }
    return None, sent;
  }

  /**
   * `GetHistory`: the history between the caller and `withEmail`, at most 100
   * messages, oldest first, streamed in order until a send fails.
   */
  method GetHistory(store: Messages.MessagesStore, ctx: Interceptors.Context, withEmail: string,
                    findError: Option<string>, send: nat -> Option<string>)
    returns (err: Option<StatusError>, sent: seq<GetHistoryResponse>)
    ensures Interceptors.GetClaims(ctx).None? ==> err == Some(StatusError(Unauthenticated, "missing auth claims")) && sent == []
    ensures Interceptors.GetClaims(ctx).Some? && findError.Some? ==>
      err == Some(StatusError(Internal, "failed to get history: " + findError.value)) && sent == []
    ensures Interceptors.GetClaims(ctx).Some? && findError.None? ==>
      var h := Messages.History(store.coll, Interceptors.GetClaims(ctx).value.email, withEmail, HistoryLimit);
      var n := FirstFailure(send, |h|);
      && |sent| == n
      && (forall i :: 0 <= i < n ==> sent[i] == ToHistoryResponse(h[i]))
      && (n == |h| ==> err.None?)
      && (n < |h| ==> err == Some(StatusError(Internal, "failed to send message: " + send(n).value)))
  {
    var claims := Interceptors.GetClaims(ctx);
    if claims.None? {
      return Some(StatusError(Unauthenticated, "missing auth claims")), [];
    }
    var r := store.GetMessageHistory(claims.value.email, withEmail, 100, findError);
    if r.Err? {
      return Some(StatusError(Internal, "failed to get history: " + r.error)), [];
    }
    var failed;
    failed, sent := SendInOrder(r.value, ToHistoryResponse, send);
    if failed.Some? {
      return Some(StatusError(Internal, "failed to send message: " + failed.value)), sent;
    }
    return None, sent;
  }

  /** A user record as the user store returns it. */
  datatype User = User(id: Messages.ObjectId, email: string, password: string)

  /** A signed token and its expiry. */
  datatype Issued = Issued(token: string, expiresAt: int)

  datatype AuthResponse = AuthResponse(token: string, userId: string, expiresAt: int)

  /**
   * `Register`: hash the password, create the user, issue a token for the stored
   * user. Every failure is Internal; the store's own error is not disclosed.
   */
  function Register(email: string, password: string, hash: string -> Result<string, string>,
                    createUser: (string, string) -> Result<User, string>,
                    issue: (Messages.ObjectId, string) -> Result<Issued, string>): (r: Result<AuthResponse, StatusError>)
    ensures r.Err? ==> r.error.code == Internal
    ensures r.Ok? <==> hash(password).Ok? && createUser(email, hash(password).value).Ok?
                       && issue(createUser(email, hash(password).value).value.id, createUser(email, hash(password).value).value.email).Ok?
    ensures r.Ok? ==>
      var u := createUser(email, hash(password).value).value;
      r.value == AuthResponse(issue(u.id, u.email).value.token, Hex(u.id), issue(u.id, u.email).value.expiresAt)
    ensures hash(password).Ok? && createUser(email, hash(password).value).Err? ==>
      r == Err(StatusError(Internal, "failed to create user"))
  {
    match hash(password)
    case Err(e) => Err(StatusError(Internal, "failed to hash password: " + e))
    case Ok(hashed) =>
      match createUser(email, hashed)
      case Err(_) => Err(StatusError(Internal, "failed to create user"))
      case Ok(user) =>
        match issue(user.id, user.email)
        case Err(e) => Err(StatusError(Internal, "failed to generate token: " + e))
        case Ok(t) => Ok(AuthResponse(t.token, Hex(user.id), t.expiresAt))
  }

  /**
   * `Login`: any lookup failure, an unknown email or a database error, is NotFound;
   * a wrong password is PermissionDenied, a token failure Internal; otherwise the
   * token issued for the stored user.
   */
  function Login(email: string, password: string, getUser: string -> Result<User, string>,
                 checkPassword: (string, string) -> bool,
                 issue: (Messages.ObjectId, string) -> Result<Issued, string>): (r: Result<AuthResponse, StatusError>)
    ensures getUser(email).Err? <==> r == Err(StatusError(NotFound, "user not found"))
    ensures r == Err(StatusError(PermissionDenied, "invalid credentials")) <==>
      getUser(email).Ok? && !checkPassword(getUser(email).value.password, password)
    ensures r.Ok? ==>
      var u := getUser(email).value;
      && getUser(email).Ok? && checkPassword(u.password, password) && issue(u.id, u.email).Ok?
      && r.value == AuthResponse(issue(u.id, u.email).value.token, Hex(u.id), issue(u.id, u.email).value.expiresAt)
    ensures r.Err? ==> r.error.code in {NotFound, PermissionDenied, Internal}
  {
    match getUser(email)
    case Err(_) => Err(StatusError(NotFound, "user not found"))
    case Ok(user) =>
      if !checkPassword(user.password, password) then Err(StatusError(PermissionDenied, "invalid credentials"))
      else match issue(user.id, user.email)
        case Err(e) => Err(StatusError(Internal, "failed to generate token: " + e))
        case Ok(t) => Ok(AuthResponse(t.token, Hex(user.id), t.expiresAt))
  }
}

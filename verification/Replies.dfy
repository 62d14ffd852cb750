/**
 * Replies to kernel events in the policy engine (policy.c): events that wait for the
 * session engine, replies that are held back during an upgrade, and replies sent.
 */
module Replies {
  import opened Basics

  type Token = nat

  /** struct reply_wait */
  datatype Wait = Wait(token: Token, flags: bv32, start: nat, timeout: nat)

  /** struct eventdev_reply */
  datatype Reply = Reply(token: Token, reply: bv32)

  /** A message to the session engine */
  datatype ToSession = Ask(token: Token) | Cancel(token: Token)

  /** sent is everything that was put into eventq_p2m, session everything in eventq_p2s. */
  datatype State = State(replyq: seq<Wait>, hold: seq<Reply>, sent: seq<Reply>, session: seq<ToSession>)

  datatype Event =
    /** The policy engine has evaluated an event that needs a reply. */
    | Evaluated(token: Token, reply: bv32, ask: bool, held: bool, flags: bv32, timeout: nat, now: nat)
    | SessionReply(token: Token, reply: bv32)
    | Timer(now: nat, terminate: nat)
    /** The end of an upgrade releases held replies. */
    | Release

  // ------------------------------------------------------------------ one event

  predicate Expired(w: Wait, now: nat, terminate: nat) {
    terminate >= 3 || now >= w.start + w.timeout
  }

  /** The waiting events that the timer keeps, or those that it cancels */
  function Select(q: seq<Wait>, expired: bool, now: nat, terminate: nat): (r: seq<Wait>)
    ensures forall w :: w in r <==> w in q && Expired(w, now, terminate) == expired
  {
    if q == [] then []
    else
      var n := |q| - 1;
      assert q == q[..n] + [q[n]];
      Select(q[..n], expired, now, terminate) + if Expired(q[n], now, terminate) == expired then [q[n]] else []
  }

  function Denials(q: seq<Wait>): (r: seq<Reply>)
    ensures |r| == |q| && forall k | 0 <= k < |q| :: r[k] == Reply(q[k].token, EPERM)
  {
    seq(|q|, k requires 0 <= k < |q| => Reply(q[k].token, EPERM))
  }

  function Cancels(q: seq<Wait>): (r: seq<ToSession>)
    ensures |r| == |q| && forall k | 0 <= k < |q| :: r[k] == Cancel(q[k].token)
  {
    seq(|q|, k requires 0 <= k < |q| => Cancel(q[k].token))
  }

  /** The first event that waits for a reply with this token */
  function FindWait(q: seq<Wait>, token: Token): (r: Option<nat>)
    ensures r.Some? ==> r.value < |q| && q[r.value].token == token && forall k | 0 <= k < r.value :: q[k].token != token
    ensures r.None? ==> forall k | 0 <= k < |q| :: q[k].token != token
    decreases |q|
  {
    if q == [] then None
    else
      var n := |q| - 1;
      var f := FindWait(q[..n], token);
      if f.Some? then f else if q[n].token == token then Some(n) else None
  }

  function Step(s: State, e: Event): State {
    match e
    case Evaluated(token, reply, ask, held, flags, timeout, now) =>
      if ask then s.(replyq := s.replyq + [Wait(token, flags, now, timeout)], session := s.session + [Ask(token)])
      else if held then s.(hold := s.hold + [Reply(token, reply)])
      else s.(sent := s.sent + [Reply(token, reply)])
    case SessionReply(token, reply) =>
      (match FindWait(s.replyq, token)
       case None => s
       case Some(k) =>
         s.(replyq := s.replyq[..k] + s.replyq[k + 1..], sent := s.sent + [Reply(token, reply | s.replyq[k].flags)]))
    case Timer(now, terminate) =>
      var gone := Select(s.replyq, true, now, terminate);
      s.(replyq := Select(s.replyq, false, now, terminate),
         sent := s.sent + Denials(gone), session := s.session + Cancels(gone))
    case Release => s.(sent := s.sent + s.hold, hold := [])
  }

  // ------------------------------------------------------------------ conservation

  function Bit(b: bool): nat {
    if b then 1 else 0
  }

  /** How often a token waits for the session engine */
  function Waiting(q: seq<Wait>, t: Token): nat {
    if q == [] then 0 else Waiting(q[..|q| - 1], t) + Bit(q[|q| - 1].token == t)
  }

  /** How often a token occurs among replies */
  function Replied(q: seq<Reply>, t: Token): nat {
    if q == [] then 0 else Replied(q[..|q| - 1], t) + Bit(q[|q| - 1].token == t)
  }

  /** How often a token waits, is held back or has been answered */
  function Places(s: State, t: Token): nat {
    Waiting(s.replyq, t) + Replied(s.hold, t) + Replied(s.sent, t)
  }

  /** Whether an event brings in the token */
  function Produces(e: Event, t: Token): nat {
    Bit(e.Evaluated? && e.token == t)
  }

  lemma {:induction false} RepliedAppend(a: seq<Reply>, b: seq<Reply>, t: Token)
    ensures Replied(a + b, t) == Replied(a, t) + Replied(b, t)
  {
    if b == [] {
      assert a + b == a;
    } else {
      var n := |b| - 1;
      RepliedAppend(a, b[..n], t);
      assert (a + b)[..|a| + n] == a + b[..n];
    }
  }

  lemma {:induction false} WaitingAppend(a: seq<Wait>, b: seq<Wait>, t: Token)
    ensures Waiting(a + b, t) == Waiting(a, t) + Waiting(b, t)
  {
    if b == [] {
      assert a + b == a;
    } else {
      var n := |b| - 1;
      WaitingAppend(a, b[..n], t);
      assert (a + b)[..|a| + n] == a + b[..n];
    }
  }

  lemma OneWait(w: Wait, r: Reply, t: Token)
    ensures Waiting([w], t) == Bit(w.token == t) && Replied([r], t) == Bit(r.token == t)
  {
    assert [w][..0] == [] && [r][..0] == [];
  }

  lemma WaitingRemove(q: seq<Wait>, k: nat, t: Token)
    requires k < |q|
    ensures Waiting(q, t) == Waiting(q[..k] + q[k + 1..], t) + Bit(q[k].token == t)
  {
    hide *;
    WaitingAppend(q[..k], q[k + 1..], t);
    WaitingAppend(q[..k], [q[k]], t);
    WaitingAppend(q[..k] + [q[k]], q[k + 1..], t);
    OneWait(q[k], Reply(0, 0), t);
    assert q == q[..k] + [q[k]] + q[k + 1..];
  }

  lemma {:induction false} SelectSplits(q: seq<Wait>, now: nat, terminate: nat, t: Token)
    ensures Waiting(Select(q, true, now, terminate), t) + Waiting(Select(q, false, now, terminate), t) == Waiting(q, t)
  {
    if q != [] {
      var n := |q| - 1;
      SelectSplits(q[..n], now, terminate, t);
      var a, b := Select(q[..n], true, now, terminate), Select(q[..n], false, now, terminate);
      OneWait(q[n], Reply(0, 0), t);
      SelectNext(q, n, now, terminate);
      assert q[..n + 1] == q;
      assert Waiting(q, t) == Waiting(q[..n], t) + Bit(q[n].token == t);
      hide Select;
      hide Waiting;
      hide Expired;
      if Expired(q[n], now, terminate) {
        WaitingAppend(a, [q[n]], t);
        assert b + [] == b;
      } else {
        WaitingAppend(b, [q[n]], t);
        assert a + [] == a;
      }
    }
  }

  lemma {:induction false} DenialTokens(q: seq<Wait>, t: Token)
    ensures Replied(Denials(q), t) == Waiting(q, t)
  {
    if q != [] {
      var n := |q| - 1;
      DenialTokens(q[..n], t);
      assert Denials(q)[..n] == Denials(q[..n]);
    }
  }

  /** No event loses or duplicates a token, whatever the session engine answers and whenever. */
  lemma StepConserves(s: State, e: Event, t: Token)
    ensures Places(Step(s, e), t) == Places(s, t) + Produces(e, t)
  {
    hide Waiting;
    hide Replied;
    match e {
      case Evaluated(token, reply, ask, held, flags, timeout, now) =>
        var w, r := Wait(token, flags, now, timeout), Reply(token, reply);
        OneWait(w, r, t);
        WaitingAppend(s.replyq, [w], t);
        RepliedAppend(s.hold, [r], t);
        RepliedAppend(s.sent, [r], t);
      case SessionReply(token, reply) =>
        var f := FindWait(s.replyq, token);
        if f.Some? {
          var r := Reply(token, reply | s.replyq[f.value].flags);
          WaitingRemove(s.replyq, f.value, t);
          OneWait(s.replyq[f.value], r, t);
          RepliedAppend(s.sent, [r], t);
        }
      case Timer(now, terminate) =>
        var gone := Select(s.replyq, true, now, terminate);
        SelectSplits(s.replyq, now, terminate, t);
        DenialTokens(gone, t);
        RepliedAppend(s.sent, Denials(gone), t);
      case Release =>
        RepliedAppend(s.sent, s.hold, t);
        assert Replied([], t) == 0 by { NoReply(t); }
    }
  }

  lemma NoReply(t: Token)
    ensures Replied([], t) == 0
  {
  }

  function Run(s: State, events: seq<Event>): State
    decreases |events|
  {
    if events == [] then s else Step(Run(s, events[..|events| - 1]), events[|events| - 1])
  }

  /** How many events bring in the token */
  function Produced(events: seq<Event>, t: Token): nat {
    if events == [] then 0 else Produced(events[..|events| - 1], t) + Produces(events[|events| - 1], t)
  }

  const IDLE := State([], [], [], [])

  /**
   * In every run a token is waiting for the session engine, held back or answered as often as
   * it was produced: with unique tokens it is in exactly one place and answered at most once.
   */
  lemma {:induction false} ExactlyOnce(events: seq<Event>, t: Token)
    ensures Places(Run(IDLE, events), t) == Produced(events, t)
    decreases |events|
  {
    if events != [] {
      var n := |events| - 1;
      ExactlyOnce(events[..n], t);
      StepConserves(Run(IDLE, events[..n]), events[n], t);
    }
  }

  /** Replies that were sent stay as they are; a reply for a token that does not wait is ignored. */
  lemma LateReplyIgnored(s: State, e: Event)
    ensures s.sent <= Step(s, e).sent
    ensures e.SessionReply? && Waiting(s.replyq, e.token) == 0 ==> Step(s, e) == s
  {
    if e.SessionReply? {
      var f := FindWait(s.replyq, e.token);
      if f.Some? {
        WaitingRemove(s.replyq, f.value, e.token);
      }
    }
  }

  // ------------------------------------------------------------------ what the session engine is told

  /** Questions about a token less their cancellations */
  function Told(q: seq<ToSession>, t: Token): int {
    if q == [] then 0
    else
      var m := q[|q| - 1];
      Told(q[..|q| - 1], t) + if m.token != t then 0 else if m.Ask? then 1 else -1
  }

  lemma {:induction false} ToldAppend(a: seq<ToSession>, b: seq<ToSession>, t: Token)
    ensures Told(a + b, t) == Told(a, t) + Told(b, t)
  {
    if b == [] {
      assert a + b == a;
    } else {
      var n := |b| - 1;
      ToldAppend(a, b[..n], t);
      assert (a + b)[..|a| + n] == a + b[..n];
    }
  }

  lemma {:induction false} CancelTokens(q: seq<Wait>, t: Token)
    ensures Told(Cancels(q), t) + Waiting(q, t) == 0
  {
    if q != [] {
      var n := |q| - 1;
      CancelTokens(q[..n], t);
      assert Cancels(q)[..n] == Cancels(q[..n]);
    }
  }

  /**
   * The session engine is told of every event that waits for it and of every wait that the timer ends: what
   * it has been told differs from what waits only by its own replies.
   */
  lemma SessionTold(s: State, e: Event, t: Token)
    ensures var n := Step(s, e);
      && s.session <= n.session
      && Told(n.session, t) - Waiting(n.replyq, t)
         == Told(s.session, t) - Waiting(s.replyq, t)
            + Bit(e.SessionReply? && e.token == t && exists w <- s.replyq :: w.token == t)
  {
    hide Waiting;
    hide Told;
    match e {
      case Evaluated(token, reply, ask, held, flags, timeout, now) =>
        var w := Wait(token, flags, now, timeout);
        OneWait(w, Reply(token, reply), t);
        WaitingAppend(s.replyq, [w], t);
        ToldAppend(s.session, [Ask(token)], t);
        OneAsk(token, t);
      case SessionReply(token, reply) =>
        var f := FindWait(s.replyq, token);
        if f.Some? {
          WaitingRemove(s.replyq, f.value, t);
          assert s.replyq[f.value] in s.replyq;
        }
      case Timer(now, terminate) =>
        var gone := Select(s.replyq, true, now, terminate);
        SelectSplits(s.replyq, now, terminate, t);
        CancelTokens(gone, t);
        ToldAppend(s.session, Cancels(gone), t);
      case Release =>
    }
  }

  lemma OneAsk(token: Token, t: Token)
    ensures Told([Ask(token)], t) == Bit(token == t)
  {
    assert [Ask(token)][..0] == [];
  }

  // ------------------------------------------------------------------ the value of a reply

  /** Wait k is the oldest one for the token. */
  predicate Oldest(q: seq<Wait>, k: nat, token: Token) {
    k < |q| && q[k].token == token && forall j | 0 <= j < k :: q[j].token != token
  }

  /**
   * The reply of the session engine answers the oldest wait for its token: what is sent is that reply
   * joined with the flags of the event. Without such a wait it changes nothing.
   */
  ghost predicate SessionAnswered(s: State, token: Token, reply: bv32, t: State) {
    if exists w <- s.replyq :: w.token == token
    then exists k: nat :: Oldest(s.replyq, k, token)
                          && t == s.(replyq := s.replyq[..k] + s.replyq[k + 1..],
                                     sent := s.sent + [Reply(token, reply | s.replyq[k].flags)])
    else t == s
  }

  lemma SessionAnswer(s: State, token: Token, reply: bv32)
    ensures SessionAnswered(s, token, reply, Step(s, SessionReply(token, reply)))
  {
    var f := FindWait(s.replyq, token);
    hide FindWait;
    if f.Some? {
      assert Oldest(s.replyq, f.value, token) && s.replyq[f.value] in s.replyq;
    }
  }

  /** Event j asked the session engine, and w waits for its reply. */
  predicate Asked(events: seq<Event>, j: nat, w: Wait) {
    j < |events| && events[j].Evaluated? && events[j].ask
    && w == Wait(events[j].token, events[j].flags, events[j].now, events[j].timeout)
  }

  /** The time of a wait was not over at any timer event between j and i. */
  predicate InTime(events: seq<Event>, j: nat, i: nat, w: Wait)
    requires i <= |events|
  {
    forall l | j < l < i && events[l].Timer? :: events[l].terminate < 3 && events[l].now < w.start + w.timeout
  }

  /** The session engine did not answer the token between j and i. */
  predicate Unanswered(events: seq<Event>, j: nat, i: nat, token: Token)
    requires i <= |events|
  {
    forall l | j < l < i && events[l].SessionReply? :: events[l].token != token
  }

  /** The wait is open before event i: asked at j, in time, and not answered if its token is not used twice. */
  predicate Open(events: seq<Event>, j: nat, i: nat, w: Wait)
    requires i <= |events|
  {
    && j < i && Asked(events, j, w) && InTime(events, j, i, w)
    && (Produced(events, w.token) <= 1 ==> Unanswered(events, j, i, w.token))
  }

  /** The reply is the verdict of event i, which was held back until a release if that was called for. */
  predicate Verdict(events: seq<Event>, i: nat, x: Reply) {
    && i < |events| && events[i].Evaluated? && !events[i].ask && x == Reply(events[i].token, events[i].reply)
    && (events[i].held ==> exists l :: i < l < |events| && events[l].Release?)
  }

  /** The reply is held back: the verdict of event i, with no release since. */
  predicate HeldBack(events: seq<Event>, i: nat, x: Reply) {
    && i < |events| && events[i].Evaluated? && !events[i].ask && events[i].held
    && x == Reply(events[i].token, events[i].reply)
    && forall l | i < l < |events| :: !events[l].Release?
  }

  /** Event i is the session engine's answer to an open wait, and the reply joins it with the flags. */
  predicate ByUser(events: seq<Event>, j: nat, i: nat, w: Wait, x: Reply) {
    && i < |events| && Open(events, j, i, w) && events[i].SessionReply? && events[i].token == w.token
    && x == Reply(w.token, events[i].reply | w.flags)
  }

  /** Event i is the timer that ended an open wait. */
  predicate TimedOut(events: seq<Event>, j: nat, i: nat, w: Wait, x: Reply) {
    && i < |events| && Open(events, j, i, w) && events[i].Timer?
    && (events[i].terminate >= 3 || events[i].now >= w.start + w.timeout)
    && x == Reply(w.token, EPERM)
  }

  ghost predicate Justified(events: seq<Event>, x: Reply) {
    || (exists i: nat :: Verdict(events, i, x))
    || (exists j: nat, i: nat, w :: ByUser(events, j, i, w, x))
    || (exists j: nat, i: nat, w :: TimedOut(events, j, i, w, x))
  }

  ghost predicate AllOpen(events: seq<Event>, q: seq<Wait>) {
    forall w <- q :: exists j: nat :: Open(events, j, |events|, w)
  }

  ghost predicate AllHeldBack(events: seq<Event>, q: seq<Reply>) {
    forall x <- q :: exists i: nat :: HeldBack(events, i, x)
  }

  /** Where everything in a state comes from */
  ghost predicate Explained(events: seq<Event>, s: State) {
    AllOpen(events, s.replyq) && AllHeldBack(events, s.hold) && forall x <- s.sent :: Justified(events, x)
  }

  lemma {:induction false} ProducedGrows(events: seq<Event>, t: Token)
    requires events != []
    ensures Produced(events[..|events| - 1], t) <= Produced(events, t)
  {
  }

  lemma OpenPast(events: seq<Event>, j: nat, i: nat, w: Wait)
    requires events != [] && i < |events| && Open(events[..|events| - 1], j, i, w)
    ensures Open(events, j, i, w)
  {
    var n := |events| - 1;
    ProducedGrows(events, w.token);
    hide Produced;
    assert forall l | 0 <= l < n :: events[..n][l] == events[l];
  }

  lemma VerdictPast(events: seq<Event>, i: nat, x: Reply)
    requires events != [] && Verdict(events[..|events| - 1], i, x)
    ensures Verdict(events, i, x)
  {
    assert forall l | 0 <= l < |events| - 1 :: events[..|events| - 1][l] == events[l];
  }

  lemma UserPast(events: seq<Event>, j: nat, i: nat, w: Wait, x: Reply)
    requires events != [] && ByUser(events[..|events| - 1], j, i, w, x)
    ensures ByUser(events, j, i, w, x)
  {
    OpenPast(events, j, i, w);
    hide Open;
  }

  lemma TimedOutPast(events: seq<Event>, j: nat, i: nat, w: Wait, x: Reply)
    requires events != [] && TimedOut(events[..|events| - 1], j, i, w, x)
    ensures TimedOut(events, j, i, w, x)
  {
    OpenPast(events, j, i, w);
    hide Open;
  }

  /** Nothing that explains a reply is undone by a further event. */
  lemma JustifiedStays(events: seq<Event>, x: Reply)
    requires events != [] && Justified(events[..|events| - 1], x)
    ensures Justified(events, x)
  {
    hide ByUser;
    hide TimedOut;
    hide Verdict;
    var past := events[..|events| - 1];
    if i: nat :| Verdict(past, i, x) {
      VerdictPast(events, i, x);
    } else if j: nat, i: nat, w :| ByUser(past, j, i, w, x) {
      UserPast(events, j, i, w, x);
    } else {
      var j: nat, i: nat, w :| TimedOut(past, j, i, w, x);
      TimedOutPast(events, j, i, w, x);
    }
  }

  /** A wait stays open unless the event is a timer after its time or an answer to its token. */
  lemma OpenStays(events: seq<Event>, j: nat, w: Wait)
    requires events != []
    requires var n := |events| - 1; Open(events[..n], j, n, w)
    ensures var n := |events| - 1; Open(events, j, n, w)
    ensures var e := events[|events| - 1];
      (e.Timer? ==> e.terminate < 3 && e.now < w.start + w.timeout)
      && (e.SessionReply? && e.token == w.token ==> Produced(events, w.token) > 1)
      ==> Open(events, j, |events|, w)
  {
    var n := |events| - 1;
    ProducedGrows(events, w.token);
    hide Produced;
    assert forall l | 0 <= l < n :: events[..n][l] == events[l];
  }

  lemma HeldBackStays(events: seq<Event>, i: nat, x: Reply)
    requires events != [] && HeldBack(events[..|events| - 1], i, x)
    ensures !events[|events| - 1].Release? ==> HeldBack(events, i, x)
    ensures events[|events| - 1].Release? ==> Verdict(events, i, x)
  {
    var n := |events| - 1;
    assert forall l | 0 <= l < n :: events[..n][l] == events[l];
  }

  lemma {:induction false} WaitsOnce(q: seq<Wait>, w: Wait)
    requires w in q
    ensures Waiting(q, w.token) >= 1
  {
    var n := |q| - 1;
    if q[n] != w {
      WaitsOnce(q[..n], w);
    }
  }

  /** If another wait for a token remains after an answer, the token is used twice. */
  lemma UsedTwice(events: seq<Event>, k: nat, w: Wait)
    requires var s := Run(IDLE, events); k < |s.replyq| && w in s.replyq[..k] + s.replyq[k + 1..]
                                         && w.token == s.replyq[k].token
    ensures Produced(events, w.token) > 1
  {
    var s := Run(IDLE, events);
    ExactlyOnce(events, w.token);
    hide Run;
    WaitingRemove(s.replyq, k, w.token);
    WaitsOnce(s.replyq[..k] + s.replyq[k + 1..], w);
  }

  lemma WaitsExplained(events: seq<Event>, s: State)
    requires events != [] && s == Run(IDLE, events[..|events| - 1]) && Explained(events[..|events| - 1], s)
    ensures AllOpen(events, Step(s, events[|events| - 1]).replyq)
  {
    hide Run;
    hide Produced;
    hide Open;
    hide FindWait;
    var n := |events| - 1;
    var e := events[n];
    forall w | w in Step(s, e).replyq ensures exists j: nat :: Open(events, j, |events|, w) {
      if w in s.replyq {
        var j: nat :| Open(events[..n], j, n, w);
        OpenStays(events, j, w);
        if e.SessionReply? && e.token == w.token {
          UsedTwice(events[..n], FindWait(s.replyq, e.token).value, w);
          ProducedGrows(events, w.token);
        }
      } else {
        NewlyOpen(events, w);
      }
    }
  }

  lemma NewlyOpen(events: seq<Event>, w: Wait)
    requires events != [] && Asked(events, |events| - 1, w)
    ensures Open(events, |events| - 1, |events|, w)
  {
  }

  lemma HoldExplained(events: seq<Event>, s: State)
    requires events != [] && Explained(events[..|events| - 1], s)
    ensures AllHeldBack(events, Step(s, events[|events| - 1]).hold)
  {
    var n := |events| - 1;
    hide Open;
    hide Justified;
    hide FindWait;
    forall x | x in Step(s, events[n]).hold ensures exists i: nat :: HeldBack(events, i, x) {
      if x in s.hold {
        var i: nat :| HeldBack(events[..n], i, x);
        HeldBackStays(events, i, x);
      } else {
        assert HeldBack(events, n, x);
      }
    }
  }

  /** A wait that ends with the last event has its reply justified. */
  lemma EndJustified(events: seq<Event>, q: seq<Wait>, w: Wait, x: Reply)
    requires events != [] && AllOpen(events[..|events| - 1], q) && w in q
    requires var e := events[|events| - 1];
      || (e.SessionReply? && e.token == w.token && x == Reply(w.token, e.reply | w.flags))
      || (e.Timer? && (e.terminate >= 3 || e.now >= w.start + w.timeout) && x == Reply(w.token, EPERM))
    ensures Justified(events, x)
  {
    var n := |events| - 1;
    hide Open;
    var j: nat :| Open(events[..n], j, n, w);
    OpenStays(events, j, w);
    if events[n].SessionReply? {
      assert ByUser(events, j, n, w, x);
    } else {
      assert TimedOut(events, j, n, w, x);
    }
  }

  lemma SentExplained(events: seq<Event>, s: State)
    requires events != [] && Explained(events[..|events| - 1], s)
    ensures forall x <- Step(s, events[|events| - 1]).sent :: Justified(events, x)
  {
    var n := |events| - 1;
    var e := events[n];
    hide AllOpen;
    hide FindWait;
    hide Justified;
    forall x | x in Step(s, e).sent ensures Justified(events, x) {
      if x in s.sent {
        JustifiedStays(events, x);
      } else if e.Release? {
        var i: nat :| HeldBack(events[..n], i, x);
        HeldBackStays(events, i, x);
        VerdictJustified(events, i, x);
      } else if e.Evaluated? {
        VerdictJustified(events, n, x);
      } else if e.SessionReply? {
        var k := FindWait(s.replyq, e.token).value;
        EndJustified(events, s.replyq, s.replyq[k], x);
      } else {
        var gone := Select(s.replyq, true, e.now, e.terminate);
        var k: nat :| k < |gone| && Denials(gone)[k] == x;
        assert gone[k] in gone;
        EndJustified(events, s.replyq, gone[k], x);
      }
    }
  }

  lemma VerdictJustified(events: seq<Event>, i: nat, x: Reply)
    requires Verdict(events, i, x)
    ensures Justified(events, x)
  {
  }

  /**
   * In every run, whatever is sent is the verdict of an event that did not ask, or the session engine's
   * reply to one that did, joined with the flags of that event and given in time, or EPERM for one whose
   * time was over; what is held back is the verdict of an event and has not been released.
   */
  lemma {:induction false} RepliesExplained(events: seq<Event>)
    ensures Explained(events, Run(IDLE, events))
    decreases |events|
  {
    if events != [] {
      var n := |events| - 1;
      RepliesExplained(events[..n]);
      var s := Run(IDLE, events[..n]);
      WaitsExplained(events, s);
      HoldExplained(events, s);
      SentExplained(events, s);
      hide Step;
    }
    hide Open;
    hide Justified;
  }

  // ------------------------------------------------------------------ the handlers

  class ReplyTracker {
    var replyq: seq<Wait>
    var hold: seq<Reply>
    var sent: seq<Reply>
    var session: seq<ToSession>

    function Value(): State
      reads this
    {
      State(replyq, hold, sent, session)
    }

    constructor ()
      ensures Value() == IDLE
    {
      replyq, hold, sent, session := [], [], [], [];
    }

    /** The last part of dispatch_m2p */
    method HandleReply(token: Token, reply: bv32, ask: bool, held: bool, flags: bv32, timeout: nat, now: nat)
      modifies this
      ensures Value() == Step(old(Value()), Evaluated(token, reply, ask, held, flags, timeout, now))
    {
      if ask {
        replyq := replyq + [Wait(token, flags, now, timeout)];
        session := session + [Ask(token)];
      } else if held {
        hold := hold + [Reply(token, reply)];
      } else {
        sent := sent + [Reply(token, reply)];
      }
    }

    /** The search in dispatch_s2p */
    method FindToken(token: Token) returns (k: nat)
      ensures k <= |replyq|
      ensures FindWait(replyq, token) == if k == |replyq| then None else Some(k)
    {
      k := 0;
      while k < |replyq| && replyq[k].token != token
        invariant k <= |replyq| && forall j | 0 <= j < k :: replyq[j].token != token
      {
        k := k + 1;
      }
    }

    /** A reply of the session engine in dispatch_s2p: only the first one for a token counts. */
    method HandleSessionReply(token: Token, reply: bv32)
      modifies this
      ensures Value() == Step(old(Value()), SessionReply(token, reply))
      ensures SessionAnswered(old(Value()), token, reply, Value())
    {
      hide FindWait;
      hide SessionAnswered;
      hide Oldest;
      ghost var s := Value();
      var k := FindToken(token);
      if k < |replyq| {
        var w := replyq[k];
        replyq := replyq[..k] + replyq[k + 1..];
        sent := sent + [Reply(token, reply | w.flags)];
      }
      assert Value() == Step(s, SessionReply(token, reply));
      hide Step;
      SessionAnswer(s, token, reply);
    }

    /** An event has waited too long: it is denied and the session engine is told. */
    method CancelWait(k: nat, ghost gone: seq<Wait>, ghost sent0: seq<Reply>, ghost session0: seq<ToSession>)
      requires k < |replyq| && sent == sent0 + Denials(gone) && session == session0 + Cancels(gone)
      modifies `replyq, `sent, `session
      ensures replyq == old(replyq)[..k] + old(replyq)[k + 1..]
      ensures sent == sent0 + Denials(gone + [old(replyq)[k]]) && session == session0 + Cancels(gone + [old(replyq)[k]])
    {
      var w := replyq[k];
      OneMore(gone, w);
      hide Denials;
      hide Cancels;
      sent := sent + [Reply(w.token, EPERM)];
      session := session + [Cancel(w.token)];
      replyq := replyq[..k] + replyq[k + 1..];
    }

    /** dispatch_timer */
    method DispatchTimer(now: nat, terminate: nat)
      modifies `replyq, `sent, `session
      ensures Value() == Step(old(Value()), Timer(now, terminate))
    {
      hide Select;
      hide Denials;
      hide Cancels;
      ghost var all, sent0, session0, j := replyq, sent, session, 0;
      assert sent == sent0 + [] && session == session0 + [];
      NoneGone();
      ghost var kept: seq<Wait>, gone: seq<Wait> := [], [];
      SelectNone(all, now, terminate);
      var k := 0;
      while k < |replyq|
        invariant j <= |all| && k == |kept| && replyq == kept + all[j..]
        invariant kept == Select(all[..j], false, now, terminate) && gone == Select(all[..j], true, now, terminate)
        invariant sent == sent0 + Denials(gone) && session == session0 + Cancels(gone)
        decreases |replyq| - k
      {
        var w := replyq[k];
        SelectNext(all, j, now, terminate);
        Shift(kept, all, j);
        if terminate < 3 && now < w.start + w.timeout {
          kept := kept + [w];
          k := k + 1;
        } else {
          CancelWait(k, gone, sent0, session0);
          gone := gone + [w];
        }
        j := j + 1;
      }
      assert all[..j] == all && replyq == kept;
    }

    /** The loop of dispatch_upgrade that moves held replies */
    method ReleaseHeld()
      modifies this
      ensures Value() == Step(old(Value()), Release)
    {
      while hold != []
        invariant sent + hold == old(sent) + old(hold) && replyq == old(replyq) && session == old(session)
        decreases |hold|
      {
        var r := hold[0];
        assert sent + hold == (sent + [r]) + hold[1..];
        hold := hold[1..];
        sent := sent + [r];
      }
    }
  }

  lemma OneMore(q: seq<Wait>, w: Wait)
    ensures Denials(q + [w]) == Denials(q) + [Reply(w.token, EPERM)]
            && Cancels(q + [w]) == Cancels(q) + [Cancel(w.token)]
  {
  }

  lemma NoneGone()
    ensures Denials([]) == [] && Cancels([]) == []
  {
  }

  lemma SelectNone(q: seq<Wait>, now: nat, terminate: nat)
    ensures Select(q[..0], true, now, terminate) == [] && Select(q[..0], false, now, terminate) == []
  {
  }

  lemma SelectNext(q: seq<Wait>, j: nat, now: nat, terminate: nat)
    requires j < |q|
    ensures Select(q[..j + 1], true, now, terminate)
         == Select(q[..j], true, now, terminate) + if Expired(q[j], now, terminate) then [q[j]] else []
    ensures Select(q[..j + 1], false, now, terminate)
         == Select(q[..j], false, now, terminate) + if Expired(q[j], now, terminate) then [] else [q[j]]
  {
    assert q[..j + 1][..j] == q[..j];
  }

  lemma Shift(kept: seq<Wait>, all: seq<Wait>, j: nat)
    requires j < |all|
    ensures var q := kept + all[j..]; var k := |kept|;
      q[k] == all[j] && q == kept + [all[j]] + all[j + 1..] && q[..k] + q[k + 1..] == kept + all[j + 1..]
  {
  }
}

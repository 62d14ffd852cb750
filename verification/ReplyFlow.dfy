/**
 * The way of replies through policy engine and master: what Pipeline.dfy does with its
 * queues is what Replies.dfy says about held and sent replies.
 */
module ReplyFlow {
  import opened Basics
  import Contexts
  import Processes
  import opened Upgrade
  import opened Pipeline
  import R = Replies

  /** The replies in a queue */
  function Answers(q: seq<Msg>): seq<R.Reply> {
    if q == [] then []
    else
      var n := |q| - 1;
      Answers(q[..n]) + if q[n].Reply? then [R.Reply(q[n].token, q[n].error)] else []
  }

  /** All replies that the policy engine has sent: at the device or on the way to it, in order */
  function Sent(s: Sys): seq<R.Reply> {
    Answers(s.dev) + Answers(s.p2m)
  }

  /** The state as the bookkeeping of replies sees it; what waits for the session is not in the pipeline. */
  function Tracked(s: Sys): R.State {
    R.State([], Answers(s.hold), Sent(s), [])
  }

  /** What an action means for the replies */
  function ReplyEvent(s: Sys, a: Action): Option<R.Event> {
    if !a.PolicyReads? || s.m2p == [] then None
    else
      match s.m2p[0]
      case KernelMsg(event, token, answer) =>
        (match event
         case FileAccess(_, _, _, _, _, _) =>
           if answer.None? then None else Some(R.Evaluated(token, answer.value, false, false, 0, 0, 0))
         case PathEvent(_, cookie, _, _) =>
           var error := ErrorOf(event, answer, !s.u.ok && s.u.counter == 0);
           Some(R.Evaluated(token, error, false, OnHold(Handle(s.u, event, a.env), cookie), 0, 0, 0))
         case _ => None)
      case EndMsg => Some(R.Release)
      case _ => None
  }

  lemma {:induction false} AnswersAppend(p: seq<Msg>, q: seq<Msg>)
    ensures Answers(p + q) == Answers(p) + Answers(q)
  {
    if q == [] {
      assert p + q == p;
    } else {
      var n := |q| - 1;
      AnswersAppend(p, q[..n]);
      assert (p + q)[..|p| + n] == p + q[..n];
      var last := if q[n].Reply? then [R.Reply(q[n].token, q[n].error)] else [];
      assert Answers(p) + (Answers(q[..n]) + last) == Answers(p) + Answers(q[..n]) + last;
    }
  }

  lemma OneAnswer(m: Msg)
    ensures Answers([m]) == if m.Reply? then [R.Reply(m.token, m.error)] else []
  {
    assert [m][..0] == [];
  }

  /** A reply that is relayed stays behind those relayed before and ahead of the rest. */
  lemma Relay(s: Sys, m: Msg, rest: seq<Msg>)
    requires s.p2m == [m] + rest && (m.Reply? || FromPolicy(m))
    ensures Sent(MasterForwards(s.(p2m := rest), m)) == Sent(s)
  {
    OneAnswer(m);
    AnswersAppend([m], rest);
    AnswersAppend(s.dev, [m]);
    hide Answers;
    assert Answers(s.dev) + (Answers([m]) + Answers(rest)) == Answers(s.dev) + Answers([m]) + Answers(rest);
    assert [] + Answers(rest) == Answers(rest);
  }

  lemma SentAppend(s: Sys, q: seq<Msg>)
    ensures Sent(s.(p2m := s.p2m + q)) == Sent(s) + Answers(q)
  {
    AnswersAppend(s.p2m, q);
    hide Answers;
    assert Answers(s.dev) + (Answers(s.p2m) + Answers(q)) == Answers(s.dev) + Answers(s.p2m) + Answers(q);
  }

  lemma StartedTracked(s: Sys, v: Upg)
    ensures Tracked(Started(s, v)) == Tracked(s)
  {
    var q := if v.started then [StartMsg] else [];
    SentAppend(s, q);
    OneAnswer(StartMsg);
    assert Sent(s) + [] == Sent(s);
  }

  lemma AnsweredTracked(s: Sys, e: KEvent, token: nat, answer: Option<bv32>, refused: bool)
    ensures Tracked(Answered(s, e, token, answer, refused)) ==
            match e
            case FileAccess(_, _, _, _, _, _) =>
              if answer.None? then Tracked(s)
              else R.Step(Tracked(s), R.Evaluated(token, answer.value, false, false, 0, 0, 0))
            case PathEvent(_, cookie, _, _) =>
              R.Step(Tracked(s), R.Evaluated(token, ErrorOf(e, answer, refused), false, OnHold(s.u, cookie), 0, 0, 0))
            case _ => Tracked(s)
  {
    hide OnHold;
    hide ErrorOf;
    match e {
      case FileAccess(_, _, _, _, _, _) =>
        if answer.Some? {
          SentAppend(s, [Reply(token, answer.value)]);
          OneAnswer(Reply(token, answer.value));
        }
      case PathEvent(_, cookie, _, _) =>
        var m := Reply(token, ErrorOf(e, answer, refused));
        SentAppend(s, [m]);
        AnswersAppend(s.hold, [m]);
        OneAnswer(m);
      case _ =>
    }
    hide Answers;
  }

  /** Every action does to the replies what the bookkeeping says, or nothing. */
  lemma RefinesReplies(s: Sys, a: Action)
    requires SysInv(s)
    ensures Tracked(Next(s, a)) ==
            if ReplyEvent(s, a).None? then Tracked(s) else R.Step(Tracked(s), ReplyEvent(s, a).value)
  {
    match a {
      case MasterReadsPolicy =>
        if s.p2m != [] {
          assert s.p2m[0] in s.p2m;
          assert s.p2m == [s.p2m[0]] + s.p2m[1..];
          Relay(s, s.p2m[0], s.p2m[1..]);
        }
      case PolicyReads(env) => if s.m2p != [] { PolicyReplies(s, env); }
      case _ => OtherActions(s, a);
    }
    hide *;
  }

  /** No other action touches replies. */
  lemma OtherActions(s: Sys, a: Action)
    requires !a.MasterReadsPolicy? && !a.PolicyReads?
    ensures Tracked(Next(s, a)) == Tracked(s)
  {
    hide Answers;
  }

  lemma PolicyReplies(s: Sys, env: Contexts.Env)
    requires SysInv(s) && s.m2p != []
    ensures var e := ReplyEvent(s, PolicyReads(env));
      Tracked(Next(s, PolicyReads(env))) == if e.None? then Tracked(s) else R.Step(Tracked(s), e.value)
  {
    hide SysInv;
    hide Handle;
    hide Complete;
    hide Fill;
    hide Next;
    hide Answered;
    hide Started;
    hide OnHold;
    hide ErrorOf;
    hide Answers;
    PolicyStep(s, env);
    FromMaster(s);
    var m := s.m2p[0];
    var t := s.(m2p := s.m2p[1..]);
    match m {
      case KernelMsg(event, token, answer) =>
        StartedTracked(t, Handle(s.u, event, env));
        AnsweredTracked(Started(t, Handle(s.u, event, env)), event, token, answer, !s.u.ok && s.u.counter == 0);
        StartedState(t, Handle(s.u, event, env));
      case ChunkReq =>
        var data := Fill(s.u).0;
        SentAppend(s, [ChunkMsg(data)]);
        OneAnswer(ChunkMsg(data));
        assert Sent(s) + [] == Sent(s);
      case EndMsg =>
        SentAppend(s, s.hold);
        NoAnswers();
      case _ =>
    }
  }

  lemma StartedState(s: Sys, v: Upg)
    ensures Started(s, v).u == v
  {
  }

  lemma NoAnswers()
    ensures Answers([]) == []
  {
  }

  /** Replies that were sent stay in place and in order, whatever the processes do. */
  lemma SentGrows(s: Sys, a: Action)
    requires SysInv(s)
    ensures Sent(s) <= Sent(Next(s, a))
  {
    hide *;
    RefinesReplies(s, a);
    SentOf(s);
    SentOf(Next(s, a));
    var e := ReplyEvent(s, a);
    if e.Some? {
      R.LateReplyIgnored(Tracked(s), e.value);
    }
  }

  /** Root's lock of a package manager comes while no upgrade may start and none is going on. */
  predicate Refused(u: Upg, e: KEvent) {
    && e.PathEvent? && e.op.Lock? && e.uid == 0 && (e.mode.StrictLock? || e.mode.LooseLock?)
    && !u.ok && u.counter == 0
  }

  /**
   * The answer to a path event: a refused lock gets EPERM and begins nothing, any other lock or unlock
   * gets 0, a link or rename what the rules say. It waits exactly if the process is on hold by then.
   */
  lemma PathAnswer(s: Sys, env: Contexts.Env)
    requires SysInv(s) && s.m2p != [] && s.m2p[0].KernelMsg? && s.m2p[0].event.PathEvent?
    ensures var m := s.m2p[0]; var e := m.event;
      var t := Next(s, PolicyReads(env)); var v := Handle(s.u, e, env); var p := Processes.Get(v.eng.procs, e.cookie);
      var error := if Refused(s.u, e) then EPERM
                   else if e.op.LinkOrRename? && m.answer.Some? then m.answer.value else 0;
      && (if p.Some? && p.value.flags.hold
          then Answers(t.hold) == Answers(s.hold) + [R.Reply(m.ktoken, error)] && Sent(t) == Sent(s)
          else Sent(t) == Sent(s) + [R.Reply(m.ktoken, error)] && Answers(t.hold) == Answers(s.hold))
      && (Refused(s.u, e) ==> v == s.u.(started := false))
  {
    hide SysInv;
    hide Next;
    hide Handle;
    hide Answers;
    hide Sent;
    hide Tracked;
    hide Processes.Find;
    RefinesReplies(s, PolicyReads(env));
    RefusedBeginsNothing(s.u, s.m2p[0].event, env);
    SentOf(s);
    SentOf(Next(s, PolicyReads(env)));
  }

  lemma RefusedBeginsNothing(u: Upg, e: KEvent, env: Contexts.Env)
    ensures Refused(u, e) ==> Handle(u, e, env) == u.(started := false)
  {
    hide Processes.Find;
  }

  lemma SentOf(s: Sys)
    ensures Tracked(s).sent == Sent(s) && Tracked(s).hold == Answers(s.hold)
  {
  }
}

/**
 * The end of an upgrade under any fair schedule: in every infinite run in which the process
 * that has the control message keeps acting, the held replies are sent.
 */
module Liveness {
  import opened Basics
  import Contexts
  import Processes
  import opened Upgrade
  import opened Pipeline
  import opened Completion
  import opened ReplyFlow
  import R = Replies

  /** The state after n actions of an infinite run */
  ghost function At(s: Sys, acts: nat -> Action, n: nat): Sys {
    if n == 0 then s else Next(At(s, acts, n - 1), acts(n - 1))
  }

  ghost predicate CountsStay(s: Sys, acts: nat -> Action) {
    forall n: nat :: !LosesCount(At(s, acts, n), acts(n))
  }

  ghost predicate ActsLater(s: Sys, acts: nat -> Action, n: nat) {
    exists m: nat :: n <= m && Responsible(At(s, acts, m), acts(m))
  }

  /** While an upgrade is processed, the process that has the control message always acts at some time. */
  ghost predicate Fair(s: Sys, acts: nat -> Action) {
    forall n: nat :: Pending(At(s, acts, n).u) ==> ActsLater(s, acts, n)
  }

  lemma StartOf(s: Sys, acts: nat -> Action)
    ensures At(s, acts, 0) == s
  {
  }

  lemma OneStep(s: Sys, acts: nat -> Action, n: nat)
    ensures At(s, acts, n + 1) == Next(At(s, acts, n), acts(n))
  {
    hide Next;
  }

  lemma CountStays(s: Sys, acts: nat -> Action, n: nat)
    requires CountsStay(s, acts)
    ensures !LosesCount(At(s, acts, n), acts(n))
  {
    hide LosesCount;
    hide At;
  }

  lemma {:induction false} InvAt(s: Sys, acts: nat -> Action, n: nat)
    requires SysInv(s) && CountsStay(s, acts)
    ensures SysInv(At(s, acts, n))
  {
    hide *;
    if n == 0 {
      StartOf(s, acts);
    } else {
      InvAt(s, acts, n - 1);
      CountStays(s, acts, n - 1);
      NextInv(At(s, acts, n - 1), acts(n - 1));
      OneStep(s, acts, n - 1);
    }
  }

  /** The first action of the responsible process from n on */
  lemma {:induction false} FirstAction(s: Sys, acts: nat -> Action, n: nat, m: nat) returns (k: nat)
    requires n <= m && Responsible(At(s, acts, m), acts(m))
    ensures n <= k <= m && Responsible(At(s, acts, k), acts(k))
    ensures forall j | n <= j < k :: !Responsible(At(s, acts, j), acts(j))
    decreases m - n
  {
    hide *;
    if Responsible(At(s, acts, n), acts(n)) {
      k := n;
    } else {
      k := FirstAction(s, acts, n + 1, m);
    }
  }

  /** Until then nothing moves. */
  lemma {:induction false} NothingMoves(s: Sys, acts: nat -> Action, n: nat, k: nat)
    requires SysInv(s) && CountsStay(s, acts) && n <= k && Pending(At(s, acts, n).u)
    requires forall j | n <= j < k :: !Responsible(At(s, acts, j), acts(j))
    ensures Same(At(s, acts, n), At(s, acts, k))
    decreases k
  {
    hide *;
    if n == k {
      SameAsItself(At(s, acts, n));
    } else {
      NothingMoves(s, acts, n, k - 1);
      InvAt(s, acts, k - 1);
      OneStep(s, acts, k - 1);
      var a, b, c := At(s, acts, n), At(s, acts, k - 1), At(s, acts, k);
      SamePending(a, b);
      OthersSame(b, acts(k - 1));
      SameTwice(a, b, c);
    }
  }

  lemma SameAsItself(s: Sys)
    requires Pending(s.u)
    ensures Same(s, s)
  {
  }

  lemma SamePending(s: Sys, t: Sys)
    requires Same(s, t)
    ensures Pending(t.u) && Rank(t) == Rank(s) && Ahead(t) == Ahead(s)
  {
  }

  lemma SameTwice(s: Sys, t: Sys, u: Sys)
    requires Same(s, t) && Same(t, u)
    ensures Same(s, u)
  {
    hide Rank;
    hide Ahead;
  }

  /** Every fair run comes to the end of the processing. */
  lemma {:induction false} EventuallyDone(s: Sys, acts: nat -> Action, n: nat) returns (m: nat)
    requires SysInv(s) && CountsStay(s, acts) && Fair(s, acts)
    ensures n <= m && !Pending(At(s, acts, m).u)
    decreases Rank(At(s, acts, n)), Ahead(At(s, acts, n))
  {
    hide SysInv;
    hide CountsStay;
    hide Responsible;
    hide Rank;
    hide Ahead;
    hide At;
    hide Next;
    if !Pending(At(s, acts, n).u) { return n; }
    assert ActsLater(s, acts, n);
    var l: nat :| n <= l && Responsible(At(s, acts, l), acts(l));
    var k := FirstAction(s, acts, n, l);
    NothingMoves(s, acts, n, k);
    InvAt(s, acts, k);
    ResponsibleCloser(At(s, acts, k), acts(k));
    OneStep(s, acts, k);
    if !Pending(At(s, acts, k + 1).u) { return k + 1; }
    m := EventuallyDone(s, acts, k + 1);
  }

  // ------------------------------------------------------------------ what becomes of the replies

  /** Only the END message ends the processing. */
  lemma OnlyEndFinishes(s: Sys, a: Action)
    requires SysInv(s) && Pending(s.u) && !Pending(Next(s, a).u)
    ensures ReplyEvent(s, a) == Some(R.Release)
  {
    match a {
      case PolicyReads(env) =>
        if s.m2p != [] && !s.m2p[0].EndMsg? { PolicyStaysPending(s, env); }
      case LoadRules(rs, uid, prio, env) =>
        HandleInv(s.u, Process(Processes.InsertEv(rs, uid, prio), false), env);
      case _ =>
    }
  }

  lemma PolicyStaysPending(s: Sys, env: Contexts.Env)
    requires SysInv(s) && Pending(s.u) && s.m2p != [] && !s.m2p[0].EndMsg?
    ensures Pending(Next(s, PolicyReads(env)).u)
  {
    hide Handle;
    hide KernelEvent;
    hide Fill;
    hide Flow;
    hide Coherent;
    PolicyStep(s, env);
    var m := s.m2p[0];
    var t := s.(m2p := s.m2p[1..]);
    match m {
      case KernelMsg(event, token, answer) => KernelStays(t, event, token, answer, env);
      case ConfigMsg(db) => HandleInv(s.u, Process(Processes.ReconfigureEv(db), false), env);
      case _ =>
    }
  }

  /** As long as the processing goes on, replies are only added. */
  lemma HoldGrows(s: Sys, a: Action)
    requires SysInv(s) && Pending(s.u) && Pending(Next(s, a).u)
    ensures Answers(s.hold) <= Answers(Next(s, a).hold)
  {
    RefinesReplies(s, a);
    NoRelease(s, a);
    SentOf(s);
    SentOf(Next(s, a));
    hide SysInv;
    hide Next;
    hide Answers;
    hide Sent;
    hide Tracked;
    hide ReplyEvent;
  }

  lemma NoRelease(s: Sys, a: Action)
    requires SysInv(s) && Pending(s.u) && Pending(Next(s, a).u)
    ensures ReplyEvent(s, a).Some? ==> ReplyEvent(s, a).value.Evaluated?
  {
    if a.PolicyReads? && s.m2p != [] && s.m2p[0].EndMsg? {
      EndReleases(s, a.env);
    }
  }

  lemma {:induction false} HeldUntil(s: Sys, acts: nat -> Action, n: nat)
    requires SysInv(s) && CountsStay(s, acts) && forall k: nat | k <= n :: Pending(At(s, acts, k).u)
    ensures Answers(s.hold) <= Answers(At(s, acts, n).hold) && Sent(s) <= Sent(At(s, acts, n))
  {
    hide SysInv;
    hide CountsStay;
    hide Answers;
    hide Sent;
    hide Next;
    if n != 0 {
      HeldUntil(s, acts, n - 1);
      InvAt(s, acts, n - 1);
      OneStep(s, acts, n - 1);
      HoldGrows(At(s, acts, n - 1), acts(n - 1));
      SentGrows(At(s, acts, n - 1), acts(n - 1));
    }
  }

  lemma {:induction false} FirstDone(s: Sys, acts: nat -> Action, m: nat) returns (k: nat)
    requires !Pending(At(s, acts, m).u)
    ensures k <= m && !Pending(At(s, acts, k).u) && forall j: nat | j < k :: Pending(At(s, acts, j).u)
  {
    hide At;
    if j: nat :| j < m && !Pending(At(s, acts, j).u) {
      k := FirstDone(s, acts, j);
    } else {
      k := m;
    }
  }

  /** All that was sent before, then the replies held now in their order, between others */
  ghost predicate SentInOrder(s: Sys, t: Sys, before: seq<R.Reply>, after: seq<R.Reply>) {
    Sent(t) == Sent(s) + before + Answers(s.hold) + after
  }

  ghost predicate Delivered(s: Sys, t: Sys) {
    exists before, after :: SentInOrder(s, t, before, after)
  }

  lemma Splice(a: seq<R.Reply>, b: seq<R.Reply>, h: seq<R.Reply>, g: seq<R.Reply>) returns (x: seq<R.Reply>,
               y: seq<R.Reply>)
    requires a <= b && h <= g
    ensures b + g == a + x + h + y
  {
    x, y := b[|a|..], g[|h|..];
  }

  /** The END message sends what is held. */
  lemma EndSends(s: Sys, a: Action)
    requires SysInv(s) && Pending(s.u) && !Pending(Next(s, a).u)
    ensures Sent(Next(s, a)) == Sent(s) + Answers(s.hold)
  {
    hide *;
    OnlyEndFinishes(s, a);
    RefinesReplies(s, a);
    SentOf(s);
    SentOf(Next(s, a));
    ReleaseSends(Tracked(s));
  }

  lemma ReleaseSends(r: R.State)
    ensures R.Step(r, R.Release).sent == r.sent + r.hold
  {
  }

  lemma RestIsCalm(s: Sys)
    requires SysInv(s) && !Pending(s.u)
    ensures s.hold == [] && forall p <- s.u.eng.procs :: !p.flags.hold
  {
  }

  /**
   * In every fair run the processing of an upgrade ends. Then no process is on hold and
   * nothing is held back: all replies that were held at the start have been sent in their
   * order, after everything sent before, and they stay sent in every later state.
   */
  lemma {:induction false} HeldRepliesAreSent(s: Sys, acts: nat -> Action) returns (m: nat)
    requires SysInv(s) && CountsStay(s, acts) && Fair(s, acts)
    ensures !Pending(At(s, acts, m).u) && At(s, acts, m).hold == []
    ensures forall p <- At(s, acts, m).u.eng.procs :: !p.flags.hold
    ensures Delivered(s, At(s, acts, m))
    ensures forall n: nat | m <= n :: Sent(At(s, acts, m)) <= Sent(At(s, acts, n))
  {
    hide SysInv;
    hide CountsStay;
    hide Fair;
    hide Answers;
    hide Sent;
    hide Next;
    hide At;
    var l := EventuallyDone(s, acts, 0);
    m := FirstDone(s, acts, l);
    InvAt(s, acts, m);
    RestIsCalm(At(s, acts, m));
    var x, y: seq<R.Reply>;
    StartOf(s, acts);
    if m == 0 {
      x, y := [], [];
      NoAnswers();
      assert Sent(s) + x + [] + y == Sent(s);
    } else {
      HeldUntil(s, acts, m - 1);
      InvAt(s, acts, m - 1);
      OneStep(s, acts, m - 1);
      EndSends(At(s, acts, m - 1), acts(m - 1));
      x, y := Splice(Sent(s), Sent(At(s, acts, m - 1)), Answers(s.hold), Answers(At(s, acts, m - 1).hold));
    }
    assert SentInOrder(s, At(s, acts, m), x, y);
    forall n: nat | m <= n ensures Sent(At(s, acts, m)) <= Sent(At(s, acts, n)) {
      StaysSent(s, acts, m, n);
    }
  }

  lemma {:induction false} StaysSent(s: Sys, acts: nat -> Action, m: nat, n: nat)
    requires SysInv(s) && CountsStay(s, acts) && m <= n
    ensures Sent(At(s, acts, m)) <= Sent(At(s, acts, n))
    decreases n
  {
    hide SysInv;
    hide CountsStay;
    hide Sent;
    hide Next;
    hide At;
    if m != n {
      StaysSent(s, acts, m, n - 1);
      InvAt(s, acts, n - 1);
      OneStep(s, acts, n - 1);
      SentGrows(At(s, acts, n - 1), acts(n - 1));
    }
  }

  // ------------------------------------------------------------------ fair runs exist

  /** The responsible process acts while an upgrade is processed; afterwards nothing of interest happens. */
  function Choice(s: Sys, env: Contexts.Env): Action {
    if Pending(s.u) then NextAction(s, {}, env) else SendOk(true)
  }

  ghost function Steered(s: Sys, env: Contexts.Env, n: nat): Sys {
    if n == 0 then s else Next(Steered(s, env, n - 1), Choice(Steered(s, env, n - 1), env))
  }

  lemma {:induction false} SteeredAt(s: Sys, env: Contexts.Env, acts: nat -> Action, n: nat)
    requires forall k: nat :: acts(k) == Choice(Steered(s, env, k), env)
    ensures At(s, acts, n) == Steered(s, env, n)
  {
    hide *;
    if n == 0 {
      StartOf(s, acts);
      SteeredStarts(s, env);
    } else {
      SteeredAt(s, env, acts, n - 1);
      OneStep(s, acts, n - 1);
      SteeredStep(s, env, n - 1);
    }
  }

  lemma SteeredStarts(s: Sys, env: Contexts.Env)
    ensures Steered(s, env, 0) == s
  {
  }

  lemma SteeredStep(s: Sys, env: Contexts.Env, n: nat)
    ensures Steered(s, env, n + 1) == Next(Steered(s, env, n), Choice(Steered(s, env, n), env))
  {
    hide Next;
    hide Choice;
  }

  lemma ChoiceIsGood(s: Sys, env: Contexts.Env)
    requires SysInv(s)
    ensures !LosesCount(s, Choice(s, env)) && (Pending(s.u) ==> Responsible(s, Choice(s, env)))
  {
  }

  lemma {:induction false} SteeredInv(s: Sys, env: Contexts.Env, n: nat)
    requires SysInv(s)
    ensures SysInv(Steered(s, env, n))
  {
    hide *;
    if n == 0 {
      SteeredStarts(s, env);
    } else {
      SteeredInv(s, env, n - 1);
      ChoiceIsGood(Steered(s, env, n - 1), env);
      NextInv(Steered(s, env, n - 1), Choice(Steered(s, env, n - 1), env));
      SteeredStep(s, env, n - 1);
    }
  }

  /** From every state of the invariant there is a run that is fair and keeps the counts. */
  lemma FairRunsExist(s: Sys, env: Contexts.Env) returns (acts: nat -> Action)
    requires SysInv(s)
    ensures CountsStay(s, acts) && Fair(s, acts)
  {
    hide SysInv;
    hide LosesCount;
    hide Responsible;
    hide Pending;
    hide Choice;
    hide At;
    hide Steered;
    acts := (n: nat) => Choice(Steered(s, env, n), env);
    forall n: nat
      ensures !LosesCount(At(s, acts, n), acts(n))
      ensures Pending(At(s, acts, n).u) ==> ActsLater(s, acts, n)
    {
      SteeredAt(s, env, acts, n);
      SteeredInv(s, env, n);
      ChoiceIsGood(Steered(s, env, n), env);
    }
  }
}

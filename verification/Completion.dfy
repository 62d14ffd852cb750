/** The chunk exchange of an upgrade always comes to its end. */
module Completion {
  import opened Basics
  import Contexts
  import Processes
  import opened Upgrade
  import opened Pipeline
  import FileTree
  import opened SfsCache

  /** The number of messages before the first control message */
  function FirstControl(q: seq<Msg>): nat {
    if q == [] || IsControl(q[0]) then 0 else 1 + FirstControl(q[1..])
  }

  lemma {:induction false} FirstControlAppend(q: seq<Msg>, r: seq<Msg>)
    requires Control(q) != []
    ensures FirstControl(q + r) == FirstControl(q)
  {
    assert (q + r)[0] == q[0] && (q + r)[1..] == q[1..] + r;
    if !IsControl(q[0]) {
      FirstControlAppend(q[1..], r);
    }
  }

  /** How far the control message still is from the end of one round */
  function Stage(s: Sys): nat {
    if Control(s.p2m) != [] then (if Control(s.p2m)[0] == ChunkMsg([]) then 4 else 8)
    else if s.m2u != [] then (if s.m2u[0] == ChunkMsg([]) then 3 else 7)
    else if s.u2m != [] then (if s.u2m[|s.u2m| - 1] == EndMsg then 2 else 6)
    else if Control(s.m2p) != [] && Control(s.m2p)[0] == EndMsg then 1
    else 5
  }

  /** The files still to be sent count for a whole round each. */
  function Rank(s: Sys): nat {
    if s.u.tree.None? || Position(s.u) > |s.u.tree.value| then 0
    else 6 * (|s.u.tree.value| - Position(s.u)) + Stage(s)
  }

  /** The messages that must be handled before the control message */
  function Ahead(s: Sys): nat {
    if Control(s.p2m) != [] then FirstControl(s.p2m)
    else if s.m2u != [] then 0
    else if s.u2m != [] then |s.u2m| - 1
    else FirstControl(s.m2p)
  }

  /** The action of the process that has the control message in its input queue */
  predicate Responsible(s: Sys, a: Action) {
    if Control(s.p2m) != [] then a.MasterReadsPolicy?
    else if s.m2u != [] then a.UpgradeReads?
    else if s.u2m != [] then a.MasterReadsUpgrade?
    else a.PolicyReads?
  }

  ghost predicate Closer(s: Sys, t: Sys) {
    !Pending(t.u) || Rank(t) < Rank(s) || (Rank(t) == Rank(s) && Ahead(t) < Ahead(s))
  }

  lemma MasterCloser(s: Sys)
    requires SysInv(s) && Pending(s.u) && Control(s.p2m) != []
    ensures Closer(s, Next(s, MasterReadsPolicy))
  {
    hide Coherent;
    hide CacheOk;
    hide Progress;
    var t := Next(s, MasterReadsPolicy);
    var m :| FlowOf(s, m);
    ControlHead(s.p2m);
    assert s.p2m[0] in s.p2m;
  }

  lemma UpgradeCloser(s: Sys, readable: set<Path>)
    requires SysInv(s) && s.m2u != []
    ensures Closer(s, Next(s, UpgradeReads(readable)))
  {
    var m := AtUpgrade(s);
    var t := Next(s, UpgradeReads(readable));
    assert Control(s.p2m) == [];
    hide SysInv;
    hide FlowOf;
    hide Progress;
  }

  lemma AtMaster(s: Sys) returns (m: Msg)
    requires SysInv(s) && s.u2m != []
    ensures Pending(s.u) && Position(s.u) <= |s.u.tree.value|
    ensures s.u2m[|s.u2m| - 1] == m && FromUpgrade(m)
    ensures Control(s.p2m) == [] && s.m2u == [] && Control(s.m2p) == []
    ensures forall k | 0 <= k < |s.u2m| - 1 :: s.u2m[k].UpdateAll?
  {
    m :| FlowOf(s, m);
    forall k | 0 <= k < |s.u2m| - 1 ensures s.u2m[k].UpdateAll? {
      assert s.u2m[k] in s.u2m[..|s.u2m| - 1];
    }
  }

  lemma ForwardStep(s: Sys, m: Msg, after: Disk)
    requires s.u2m != [] && (m.UpdateAll? || FromUpgrade(m)) && s.u2m[0] == m
    ensures var t := Next(s, MasterReadsUpgrade(after));
      && t.u == s.u && t.p2m == s.p2m && t.m2u == s.m2u && t.u2m == s.u2m[1..]
      && t.m2p == if m.UpdateAll? then s.m2p else s.m2p + [m]
  {
  }

  lemma ForwardCloser(s: Sys, after: Disk)
    requires SysInv(s) && s.u2m != []
    ensures Closer(s, Next(s, MasterReadsUpgrade(after)))
  {
    hide SysInv;
    hide Next;
    var m := AtMaster(s);
    ForwardStep(s, s.u2m[0], after);
    if |s.u2m| == 1 {
      ControlAppend(s.m2p, [m]);
      assert Control(s.m2p + [m]) == [m] && s.u2m[1..] == [];
    } else {
      assert s.u2m[0].UpdateAll? && s.u2m[1..][|s.u2m| - 2] == m;
    }
  }

  lemma ControlAtPolicy(s: Sys)
    requires SysInv(s) && Pending(s.u) && Control(s.p2m) == [] && s.m2u == [] && s.u2m == []
    ensures Control(s.m2p) != [] && FromUpgrade(Control(s.m2p)[0]) && s.m2p != []
  {
    var m :| FlowOf(s, m);
  }

  /** A chunk request is answered by a chunk with new paths, or by an empty one. */
  lemma ChunkCloser(s: Sys)
    requires SysInv(s) && s.m2p != [] && s.m2p[0].ChunkReq?
    ensures var (data, iter) := Fill(s.u);
      Closer(s, s.(m2p := s.m2p[1..], u := s.u.(iter := iter), p2m := s.p2m + [ChunkMsg(data)]))
  {
    var m := AtPolicy(s);
    var chunk, next := FillChunk(s.u);
    JoinEnds(chunk);
    ControlHead(s.m2p);
    var (data, iter) := Fill(s.u);
    ControlAppend(s.p2m, [ChunkMsg(data)]);
    hide SysInv;
    hide FlowOf;
    hide Progress;
    hide Fill;
    assert data != [] ==> chunk != [];
  }

  lemma PolicyCloser(s: Sys, env: Contexts.Env)
    requires SysInv(s) && Pending(s.u) && Control(s.p2m) == [] && s.m2u == [] && s.u2m == []
    ensures Closer(s, Next(s, PolicyReads(env)))
  {
    hide KernelEvent;
    hide Complete;
    hide Fill;
    hide Handle;
    hide FlowOf;
    hide Next;
    hide Coherent;
    hide CacheOk;
    ControlAtPolicy(s);
    ControlHead(s.m2p);
    var m := s.m2p[0];
    var t := s.(m2p := s.m2p[1..]);
    PolicyStep(s, env);
    match m {
      case ChunkReq => ChunkCloser(s);
      case EndMsg => CompleteInv(s.u);
      case KernelMsg(event, token, answer) => KernelStays(t, event, token, answer, env);
      case ConfigMsg(db) => HandleInv(s.u, Process(Processes.ReconfigureEv(db), false), env);
      case _ =>
    }
  }

  /** While an upgrade is being processed, kernel events only produce replies. */
  lemma KernelStays(s: Sys, e: KEvent, token: nat, answer: Option<bv32>, env: Contexts.Env)
    requires Upgrade.Inv(s.u) && Pending(s.u)
    ensures var t := KernelEvent(s, e, token, answer, env);
      && t.u.tree == s.u.tree && t.u.counter == 0 && t.u.iter == s.u.iter
      && s.p2m <= t.p2m && Control(t.p2m) == Control(s.p2m)
      && t.m2u == s.m2u && t.u2m == s.u2m && t.m2p == s.m2p
  {
    HandleInv(s.u, e, env);
    hide Handle;
    hide Upgrade.Inv;
    var t := KernelEvent(s, e, token, answer, env);
    assert s.p2m + [] == s.p2m;
    ControlAppend(s.p2m, t.p2m[|s.p2m|..]);
    assert t.p2m == s.p2m + t.p2m[|s.p2m|..];
  }

  /**
   * While an upgrade is being processed, the process that has the control message in its
   * input always gets closer to the end.
   */
  lemma ResponsibleCloser(s: Sys, a: Action)
    requires SysInv(s) && Pending(s.u) && Responsible(s, a)
    ensures Closer(s, Next(s, a))
  {
    hide SysInv;
    hide Next;
    hide Closer;
    match a {
      case MasterReadsPolicy => MasterCloser(s);
      case UpgradeReads(readable) => UpgradeCloser(s, readable);
      case MasterReadsUpgrade(after) => ForwardCloser(s, after);
      case PolicyReads(env) => PolicyCloser(s, env);
      case _ =>
    }
  }

  // ------------------------------------------------------------------ other actions

  ghost predicate Same(s: Sys, t: Sys) {
    Pending(t.u) && Rank(t) == Rank(s) && Ahead(t) == Ahead(s)
  }

  /** The control message stays where it is, with the same messages before it. */
  lemma SameFlow(s: Sys, t: Sys)
    requires SysInv(s) && Pending(s.u)
    requires t.u.tree == s.u.tree && t.u.counter == s.u.counter && t.u.iter == s.u.iter
    requires t.m2u == s.m2u && t.u2m == s.u2m
    requires Control(t.p2m) == Control(s.p2m) && Control(t.m2p) == Control(s.m2p)
    requires Control(s.p2m) != [] ==> s.p2m <= t.p2m
    requires Control(s.m2p) != [] ==> s.m2p <= t.m2p
    ensures Same(s, t)
  {
    hide SysInv;
    hide FirstControl;
    hide Control;
    if Control(s.p2m) != [] {
      FirstControlAppend(s.p2m, t.p2m[|s.p2m|..]);
      assert t.p2m == s.p2m + t.p2m[|s.p2m|..];
    } else if s.m2u == [] && s.u2m == [] {
      ControlAtPolicy(s);
      FirstControlAppend(s.m2p, t.m2p[|s.m2p|..]);
      assert t.m2p == s.m2p + t.m2p[|s.m2p|..];
    }
  }

  lemma AppendSame(s: Sys, m: Msg)
    requires SysInv(s) && Pending(s.u) && !IsControl(m)
    ensures forall t: Sys :: t == s.(m2p := s.m2p + [m], disk := t.disk) ==> Same(s, t)
  {
    ControlAppend(s.m2p, [m]);
    forall t: Sys | t == s.(m2p := s.m2p + [m], disk := t.disk) ensures Same(s, t) {
      hide SysInv;
      SameFlow(s, t);
    }
  }

  /** No other action undoes the progress or ends the processing. */
  lemma OthersSame(s: Sys, a: Action)
    requires SysInv(s) && Pending(s.u) && !Responsible(s, a)
    ensures Same(s, Next(s, a))
  {
    match a {
      case Device(event, token, answer) => AppendSame(s, KernelMsg(event, token, answer));
      case Session(op) => AppendSame(s, Invalidation(op));
      case SendOk(value) => AppendSame(s, OkMsg(value));
      case SendConfig(db) => AppendSame(s, ConfigMsg(db));
      case LoadRules(rs, uid, prio, env) =>
        HandleInv(s.u, Process(Processes.InsertEv(rs, uid, prio), false), env);
        SameFlow(s, Next(s, a));
      case Lookup(path, who, fails) => SameFlow(s, Next(s, a));
      case MasterReadsPolicy =>
        if s.p2m != [] {
          ControlHead(s.p2m);
          assert s.p2m[0] in s.p2m;
        }
        SameFlow(s, Next(s, a));
      case UpgradeReads(_) =>
      case MasterReadsUpgrade(_) =>
      case PolicyReads(env) => PolicySame(s, env);
    }
  }

  lemma NoneAtPolicy(s: Sys)
    requires SysInv(s) && Pending(s.u) && !(Control(s.p2m) == [] && s.m2u == [] && s.u2m == [])
    ensures Control(s.m2p) == []
  {
    var c :| FlowOf(s, c);
  }

  lemma PolicySame(s: Sys, env: Contexts.Env)
    requires SysInv(s) && Pending(s.u) && !Responsible(s, PolicyReads(env))
    ensures Same(s, Next(s, PolicyReads(env)))
  {
    NoneAtPolicy(s);
    if s.m2p == [] {
      SameFlow(s, s);
    } else {
      ControlHead(s.m2p);
      var m := s.m2p[0];
      var t := s.(m2p := s.m2p[1..]);
      assert m in s.m2p && !m.Reply? && !m.UpdateAll? by { hide Flow; hide Upgrade.Inv; }
      hide SysInv;
      hide PolicyHandles;
      assert Next(s, PolicyReads(env)) == PolicyHandles(t, m, env);
      HandledSame(s, t, m, env);
    }
  }

  lemma HandledSame(s: Sys, t: Sys, m: Msg, env: Contexts.Env)
    requires SysInv(s) && Pending(s.u) && t == s.(m2p := t.m2p) && Control(t.m2p) == Control(s.m2p) == []
    requires !IsControl(m) && !m.Reply? && !m.UpdateAll?
    ensures Same(s, PolicyHandles(t, m, env))
  {
    hide KernelEvent;
    hide Handle;
    match m {
      case KernelMsg(event, token, answer) => KernelStays(t, event, token, answer, env);
      case ConfigMsg(db) => HandleInv(s.u, Process(Processes.ReconfigureEv(db), false), env);
      case _ =>
    }
    hide SysInv;
    SameFlow(s, PolicyHandles(t, m, env));
  }

  // ------------------------------------------------------------------ the end is reached

  /** The next action of the responsible process, with any outcome of reading files and updating the disk */
  function NextAction(s: Sys, readable: set<Path>, env: Contexts.Env): (a: Action)
    ensures Responsible(s, a)
  {
    if Control(s.p2m) != [] then MasterReadsPolicy
    else if s.m2u != [] then UpgradeReads(readable)
    else if s.u2m != [] then MasterReadsUpgrade(s.disk)
    else PolicyReads(env)
  }
}

/**
 * The policy engine's side of an upgrade: marks on processes, the tree of touched
 * files, holds and the end of an upgrade (pe.c, pe_proc.c).
 */
module Upgrade {
  import opened Basics
  import opened Contexts
  import opened Processes
  import FileTree

  type Tree = FileTree.Tree

  /** The state of process tracking and of the current upgrade. */
  datatype Upg = Upg(
    eng: Engine,
    /** have_task_tracking: the kernel reports threads. */
    tracking: bool,
    tree: Option<Tree>,
    counter: int,
    /** The node upgrade_iterator points to; None is NULL. */
    iter: Option<nat>,
    ok: bool,
    /** The event being handled has queued a START message. */
    started: bool)

  datatype Mode = Off | ByProcess | StrictLock | LooseLock

  datatype PathOp = LinkOrRename | Lock | Unlock

  /** A kernel event that the policy engine handles, with the parameters that are not modelled. */
  datatype KEvent =
    /** An event of process tracking; trigger tells if an exec starts an upgrade. */
    | Process(event: Event, trigger: bool)
    | AddThread(cookie: Cookie)
    | RemoveThread(cookie: Cookie)
    /** An access to a file; hasSum tells if any checksum is registered for it. */
    | FileAccess(cookie: Cookie, uid: Uid, ident: Ident, path: Option<CString>, write: bool, hasSum: bool)
    | PathEvent(op: PathOp, cookie: Cookie, uid: Uid, mode: Mode)

  // ------------------------------------------------------------------ operations

  function SetFlags(procs: seq<Proc>, k: nat, f: Flags): (r: seq<Proc>)
    requires k < |procs|
    ensures |r| == |procs|
  {
    procs[k := procs[k].(flags := f)]
  }

  function Put(u: Upg, procs: seq<Proc>): Upg {
    u.(eng := u.eng.(procs := procs))
  }

  /** pe_upgrade_start; None is a process that is not tracked. */
  function Start(u: Upg, at: Option<nat>): Upg
    requires at.Some? ==> at.value < |u.eng.procs|
  {
    var procs := u.eng.procs;
    if at.Some? && procs[at.value].flags.parent then u
    else if u.tree.Some? && u.counter == 0 then
      if at.None? then u
      else Put(u, SetFlags(procs, at.value, procs[at.value].flags.(hold := true)))
    else
      var marked := if at.None? then procs
                    else SetFlags(procs, at.value, procs[at.value].flags.(upgrade := true, parent := true));
      Put(u, marked).(tree := if u.tree.None? then Some([]) else u.tree, counter := u.counter + 1)
  }

  /** pe_proc_is_running */
  predicate IsRunning(procs: seq<Proc>, tracking: bool, cookie: Cookie) {
    var p := Get(procs, cookie);
    p.Some? && (p.value.threads > 0 || !tracking)
  }

  /** The nodes that survive the end of an upgrade */
  predicate Kept(procs: seq<Proc>, tracking: bool, n: FileTree.Node) {
    n.cookie == 0 || !IsRunning(procs, tracking, n.cookie)
  }

  function Prune(t: Tree, procs: seq<Proc>, tracking: bool): (r: Tree)
    ensures forall n :: n in r <==> n in t && Kept(procs, tracking, n)
  {
    if t == [] then []
    else
      var rest := Prune(t[..|t| - 1], procs, tracking);
      var n := t[|t| - 1];
      assert t == t[..|t| - 1] + [n];
      if Kept(procs, tracking, n) then rest + [n] else rest
  }

  /** pe_proc_upgrade_clrallmarks */
  function ClearMarks(procs: seq<Proc>): (r: seq<Proc>)
    ensures |r| == |procs|
    ensures forall k | 0 <= k < |procs| ::
              r[k] == procs[k].(flags := procs[k].flags.(upgrade := false, parent := false))
  {
    seq(|procs|, k requires 0 <= k < |procs| => procs[k].(flags := procs[k].flags.(upgrade := false, parent := false)))
  }

  function First(t: Tree): Option<nat> {
    if t == [] then None else Some(0)
  }

  /** The last upgrade parent has ended: pe_upgrade_end from the pruning on, with send_upgrade_start. */
  function Finish(u: Upg): Upg {
    var t := if u.tree.None? then None else Some(Prune(u.tree.value, u.eng.procs, u.tracking));
    Put(u, ClearMarks(u.eng.procs)).(
      tree := t,
      iter := if t.None? || u.counter != 0 then None else First(t.value),
      started := true)
  }

  /** pe_upgrade_end of a process that is or was tracked, after its own marks are gone. */
  function EndParent(u: Upg, parent: bool): Upg {
    if !parent then u
    else
      var v := u.(counter := u.counter - 1);
      if v.counter > 0 then v else Finish(v)
  }

  /** pe_upgrade_end of a tracked process */
  function End(u: Upg, k: nat): Upg
    requires k < |u.eng.procs|
  {
    var f := u.eng.procs[k].flags;
    EndParent(Put(u, SetFlags(u.eng.procs, k, f.(upgrade := false, parent := false))), f.parent)
  }

  /** pe_proc_exit */
  function Exit(u: Upg, cookie: Cookie): Upg {
    var k := Find(u.eng.procs, cookie);
    var v := Put(u, ExitProc(u.eng.procs, cookie));
    if k.None? || u.eng.procs[k.value].instances - 1 != 0 then v
    else EndParent(v, u.eng.procs[k.value].flags.parent)
  }

  /** pe_handle_process, pe_handle_sfsexec and the other handlers of process tracking */
  function ProcessEvent(u: Upg, e: Event, trigger: bool, env: Env): Upg {
    match e
    case ExitEv(cookie) => Exit(u, cookie)
    case ReplaceEv(gains, loses) => Exit(Put(u, AddInstance(u.eng.procs, gains)), loses)
    case ExecEv(cookie, uid, _, _, _) =>
      var v := u.(eng := Step(u.eng, e, env));
      if trigger && uid == 0 && Find(v.eng.procs, cookie).Some? then Start(v, Find(v.eng.procs, cookie)) else v
    case _ => u.(eng := Step(u.eng, e, env))
  }

  /** The upgrade part of pe_handle_sfs */
  function Touched(u: Upg, e: KEvent): Upg
    requires e.FileAccess?
  {
    var p := Get(u.eng.procs, e.cookie);
    if p.Some? && p.value.flags.upgrade && e.write && e.path.Some? && e.hasSum && u.tree.Some? then
      u.(tree := Some(FileTree.Insert(u.tree.value, e.path.value, if p.value.flags.parent then 0 else e.cookie)))
    else u
  }

  /** Whether a lock event starts an upgrade */
  predicate Starts(u: Upg, e: KEvent) {
    e.PathEvent? && e.op.Lock? && e.uid == 0 && (e.mode.StrictLock? || e.mode.LooseLock?) && (u.ok || u.counter != 0)
  }

  function SetThreads(u: Upg, k: nat, n: int): Upg
    requires k < |u.eng.procs|
  {
    Put(u, u.eng.procs[k := u.eng.procs[k].(threads := n)])
  }

  /** pe_proc_add_thread */
  function ThreadAdded(u: Upg, cookie: Cookie): Upg {
    var at := Find(u.eng.procs, cookie);
    var v := u.(tracking := true);
    if at.None? then v else SetThreads(v, at.value, u.eng.procs[at.value].threads + 1)
  }

  /** pe_proc_remove_thread */
  function ThreadRemoved(u: Upg, cookie: Cookie): Upg {
    var at := Find(u.eng.procs, cookie);
    var v := u.(tracking := true);
    if at.None? || u.eng.procs[at.value].threads <= 0 then v
    else
      var w := SetThreads(v, at.value, u.eng.procs[at.value].threads - 1);
      if w.eng.procs[at.value].threads == 0 then End(w, at.value) else w
  }

  /** pe_handle_sfspath */
  function PathHandled(u: Upg, e: KEvent): Upg
    requires e.PathEvent?
  {
    var at := Find(u.eng.procs, e.cookie);
    if Starts(u, e) then Start(u, at)
    else if e.op.Unlock? && e.uid == 0 && e.mode.StrictLock? && at.Some? then End(u, at.value)
    else u
  }

  /** The policy engine handles one kernel event. */
  function Handle(u0: Upg, e: KEvent, env: Env): Upg {
    var u := u0.(started := false);
    match e
    case Process(event, trigger) => ProcessEvent(u, event, trigger, env)
    case AddThread(cookie) => ThreadAdded(u, cookie)
    case RemoveThread(cookie) => ThreadRemoved(u, cookie)
    case FileAccess(cookie, uid, ident, _, _, _) =>
      Touched(u.(eng := Step(u.eng, OpenEv(cookie, uid, ident), env)), e)
    case PathEvent(_, _, _, _) => PathHandled(u, e)
  }

  /** pe_proc_release from position k on */
  function Release(u: Upg, k: nat): Upg
    requires k <= |u.eng.procs|
    decreases |u.eng.procs| - k
  {
    if k == |u.eng.procs| then u
    else if !u.eng.procs[k].flags.hold then Release(u, k + 1)
    else
      var v := Put(u, SetFlags(u.eng.procs, k, u.eng.procs[k].flags.(hold := false)));
      Release(Start(v, Some(k)), k + 1)
  }

  /** pe_upgrade_finish followed by pe_proc_release */
  function Complete(u: Upg): Upg {
    Release(u.(tree := None, iter := None), 0)
  }

  // ------------------------------------------------------------------ counting parents

  function Count(b: bool): nat {
    if b then 1 else 0
  }

  /** The number of tracked processes that are marked as upgrade parents */
  function Parents(procs: seq<Proc>): nat {
    if procs == [] then 0 else Parents(procs[..|procs| - 1]) + Count(procs[|procs| - 1].flags.parent)
  }

  lemma {:induction false} ParentsPut(procs: seq<Proc>, k: nat, q: Proc)
    requires k < |procs|
    ensures Parents(procs[k := q]) == Parents(procs) - Count(procs[k].flags.parent) + Count(q.flags.parent)
  {
    var n := |procs| - 1;
    if k < n {
      ParentsPut(procs[..n], k, q);
      assert procs[k := q][..n] == procs[..n][k := q];
    } else {
      assert procs[k := q][..n] == procs[..n];
    }
  }

  lemma {:induction false} ParentsRemove(procs: seq<Proc>, k: nat)
    requires k < |procs|
    ensures Parents(procs[..k] + procs[k + 1..]) == Parents(procs) - Count(procs[k].flags.parent)
  {
    var n := |procs| - 1;
    var r := procs[..k] + procs[k + 1..];
    if k < n {
      ParentsRemove(procs[..n], k);
      assert r[..n - 1] == procs[..n][..k] + procs[..n][k + 1..];
      assert r[n - 1] == procs[n];
    } else {
      assert r == procs[..n];
    }
  }

  lemma {:induction false} ParentsZero(procs: seq<Proc>)
    ensures Parents(procs) == 0 <==> forall k | 0 <= k < |procs| :: !procs[k].flags.parent
  {
    if procs != [] {
      var n := |procs| - 1;
      ParentsZero(procs[..n]);
      if Parents(procs) == 0 {
        forall k | 0 <= k < |procs| ensures !procs[k].flags.parent {
          if k < n { assert procs[k] == procs[..n][k]; }
        }
      }
    }
  }

  /** b continues a: known processes keep their marks, new ones are no parents and not on hold. */
  ghost predicate Continues(a: seq<Proc>, b: seq<Proc>) {
    && |a| <= |b|
    && (forall k | 0 <= k < |a| :: b[k].flags.upgrade == a[k].flags.upgrade && b[k].flags.parent == a[k].flags.parent
                                   && b[k].flags.hold == a[k].flags.hold)
    && (forall k | |a| <= k < |b| :: !b[k].flags.parent && !b[k].flags.hold)
    && (forall k | |a| <= k < |b| :: b[k].flags.upgrade ==> exists j :: 0 <= j < |a| && a[j].flags.upgrade)
  }

  lemma {:induction false} ContinuesParents(a: seq<Proc>, b: seq<Proc>)
    requires Continues(a, b)
    ensures Parents(b) == Parents(a)
  {
    if |b| > |a| {
      ContinuesParents(a, b[..|b| - 1]);
    } else if a != [] {
      var n := |a| - 1;
      SamePrefix(a[..n], b[..n]);
    }
  }

  /** All marks are the same. */
  lemma {:induction false} SamePrefix(a: seq<Proc>, b: seq<Proc>)
    requires |a| == |b| && forall k | 0 <= k < |a| :: b[k].flags.parent == a[k].flags.parent
    ensures Parents(b) == Parents(a)
  {
    if a != [] {
      SamePrefix(a[..|a| - 1], b[..|b| - 1]);
    }
  }

  lemma ForkContinues(s: Engine, e: Event, env: Env)
    requires e.ForkEv?
    ensures Continues(s.procs, Step(s, e, env).procs)
  {
    var p := Get(s.procs, e.parent);
    if p.Some? {
      assert p.value in s.procs;
    }
  }

  lemma PutContinues(procs: seq<Proc>, cookie: Cookie, q: Proc)
    requires Get(procs, cookie).Some?
    requires var f := Get(procs, cookie).value.flags;
      q.flags.upgrade == f.upgrade && q.flags.parent == f.parent && q.flags.hold == f.hold
    ensures Continues(procs, Processes.Put(procs, cookie, q))
  {
    hide Find;
  }

  lemma ExecContinues(s: Engine, e: Event, env: Env)
    requires e.ExecEv?
    ensures Continues(s.procs, Step(s, e, env).procs)
  {
    hide Find;
    hide Processes.Put;
    var procs := EnsureTracked(s.procs, e.uid, e.cookie, e.pgid);
    assert Continues(s.procs, procs);
    var p := Get(procs, e.cookie);
    if p.Some? {
      PutContinues(procs, e.cookie, ExecProc(p.value, s.db, e.uid, e.ident, e.secure, env));
    }
  }

  /** No event except an exit takes marks away or adds any. */
  lemma StepContinues(s: Engine, e: Event, env: Env)
    requires !e.ExitEv? && !e.ReplaceEv?
    ensures Continues(s.procs, Step(s, e, env).procs)
  {
    hide Processes.Put;
    hide Find;
    match e {
      case ForkEv(_, _, _, _) => ForkContinues(s, e, env);
      case ExecEv(_, _, _, _, _) => ExecContinues(s, e, env);
      case OpenEv(cookie, uid, ident) =>
        var p := Get(s.procs, cookie);
        if p.Some? { PutContinues(s.procs, cookie, ContextOpen(p.value, s.db, uid, ident, env)); }
      case ConnectEv(source, dest, conn) =>
        var q, p := Get(s.procs, source), Get(s.procs, dest);
        if q.Some? && p.Some? { PutContinues(s.procs, dest, ContextBorrow(p.value, q.value, s.db, conn, env)); }
      case DisconnectEv(source, conn) =>
        var p := Get(s.procs, source);
        if p.Some? { PutContinues(s.procs, source, ContextRestore(p.value, conn)); }
      case PlaygroundEv(cookie, pgid) =>
        var p := Get(s.procs, cookie);
        if p.Some? { PutContinues(s.procs, cookie, RefreshBoth(p.value.(pgid := pgid), s.db, env)); }
      case InsertEv(_, _, _) =>
      case ReconfigureEv(_) =>
    }
  }

  // ------------------------------------------------------------------ the invariant

  /** An upgrade has ended and its files are still being processed. */
  predicate Pending(u: Upg) {
    u.tree.Some? && u.counter == 0
  }

  ghost predicate TreeOk(t: Tree) {
    FileTree.Sorted(t) && forall n <- t :: 0 !in n.path
  }

  ghost predicate Inv(u: Upg) {
    && u.counter == Parents(u.eng.procs)
    && (u.counter == 0 ==> forall k | 0 <= k < |u.eng.procs| :: !u.eng.procs[k].flags.upgrade)
    && (u.counter > 0 ==> u.tree.Some?)
    && (u.tree.Some? ==> TreeOk(u.tree.value))
    && (!Pending(u) ==> forall k | 0 <= k < |u.eng.procs| :: !u.eng.procs[k].flags.hold)
    && (u.iter.Some? ==> Pending(u) && u.iter.value < |u.tree.value|)
  }

  /** A lock of a process that is not tracked would start an upgrade that nothing ends. */
  predicate Lost(u: Upg, e: KEvent) {
    Starts(u, e) && Find(u.eng.procs, e.cookie).None? && !Pending(u)
  }

  /** What an event may do to the upgrade */
  ghost predicate Moves(u: Upg, v: Upg) {
    && (Pending(u) ==> v.tree == u.tree && v.counter == 0 && v.iter == u.iter && !v.started)
    && (!Pending(u) ==> (v.started <==> Pending(v)))
    && (v.started ==> v.iter == First(v.tree.value))
  }

  lemma {:induction false} PruneOk(t: Tree, procs: seq<Proc>, tracking: bool)
    requires TreeOk(t)
    ensures TreeOk(Prune(t, procs, tracking))
  {
    hide FileTree.Compare;
    hide Kept;
    if t != [] {
      var n := |t| - 1;
      PruneOk(t[..n], procs, tracking);
      var rest := Prune(t[..n], procs, tracking);
      forall m | m in rest ensures FileTree.Compare(m.path, t[n].path) < 0 {
        assert m in t[..n];
      }
    }
  }

  /** The invariant, except that the marks of one parent are gone but it is still counted. */
  ghost predicate InvBut(u: Upg, parent: bool) {
    && u.counter == Parents(u.eng.procs) + Count(parent)
    && (u.counter == 0 ==> forall k | 0 <= k < |u.eng.procs| :: !u.eng.procs[k].flags.upgrade)
    && (u.counter > 0 ==> u.tree.Some?)
    && (u.tree.Some? ==> TreeOk(u.tree.value))
    && (!Pending(u) ==> forall k | 0 <= k < |u.eng.procs| :: !u.eng.procs[k].flags.hold)
    && (u.iter.Some? ==> Pending(u) && u.iter.value < |u.tree.value|)
  }

  lemma EndParentInv(u: Upg, parent: bool)
    requires InvBut(u, parent) && !u.started
    ensures Inv(EndParent(u, parent)) && Moves(u, EndParent(u, parent))
  {
    hide TreeOk;
    var v := u.(counter := u.counter - 1);
    if parent && v.counter <= 0 {
      assert v.counter == 0;
      PruneOk(u.tree.value, u.eng.procs, u.tracking);
      ParentsZero(ClearMarks(u.eng.procs));
    }
  }

  lemma EndInv(u: Upg, k: nat)
    requires Inv(u) && !u.started && k < |u.eng.procs|
    ensures Inv(End(u, k)) && Moves(u, End(u, k))
  {
    hide TreeOk;
    hide EndParent;
    var f := u.eng.procs[k].flags;
    var w := Put(u, SetFlags(u.eng.procs, k, f.(upgrade := false, parent := false)));
    ParentsPut(u.eng.procs, k, w.eng.procs[k]);
    EndParentInv(w, f.parent);
  }

  /** A process that is gone is still counted if it was a parent. */
  lemma GoneInv(u: Upg, k: nat)
    requires Inv(u) && k < |u.eng.procs|
    ensures InvBut(Put(u, u.eng.procs[..k] + u.eng.procs[k + 1..]), u.eng.procs[k].flags.parent)
  {
    hide TreeOk;
    ParentsRemove(u.eng.procs, k);
  }

  lemma InstanceInv(u: Upg, k: nat, n: int)
    requires Inv(u) && !u.started && k < |u.eng.procs|
    ensures var v := Put(u, u.eng.procs[k := u.eng.procs[k].(instances := n)]);
      Inv(v) && Moves(u, v)
  {
    hide TreeOk;
    ParentsPut(u.eng.procs, k, u.eng.procs[k].(instances := n));
  }

  lemma ExitInv(u: Upg, cookie: Cookie)
    requires Inv(u) && !u.started
    ensures Inv(Exit(u, cookie)) && Moves(u, Exit(u, cookie))
  {
    hide Inv;
    hide InvBut;
    hide EndParent;
    hide Find;
    var procs := u.eng.procs;
    match Find(procs, cookie) {
      case None =>
        assert Exit(u, cookie) == u;
      case Some(k) =>
        if procs[k].instances - 1 != 0 {
          InstanceInv(u, k, procs[k].instances - 1);
        } else {
          GoneInv(u, k);
          EndParentInv(Put(u, procs[..k] + procs[k + 1..]), procs[k].flags.parent);
        }
    }
  }

  /** A start keeps the count exact unless a process that is not tracked is counted. */
  lemma StartInv(u: Upg, at: Option<nat>)
    requires Inv(u) && !u.started && (at.Some? ==> at.value < |u.eng.procs|)
    ensures Inv(Start(u, at)) <==> at.Some? || Pending(u)
    ensures Moves(u, Start(u, at))
  {
    hide TreeOk;
    assert TreeOk([]) by { NoNodes(); }
    if at.Some? {
      ParentsPut(u.eng.procs, at.value, Start(u, at).eng.procs[at.value]);
    }
  }

  lemma NoNodes()
    ensures TreeOk([])
  {
  }

  /** Process tracking alone, without exits, does not touch the upgrade. */
  lemma ContinuesInv(u: Upg, v: Upg)
    requires Inv(u) && Continues(u.eng.procs, v.eng.procs) && v == u.(eng := v.eng, tracking := v.tracking)
    ensures Inv(v)
  {
    hide TreeOk;
    ContinuesParents(u.eng.procs, v.eng.procs);
  }

  lemma TouchedInv(u: Upg, e: KEvent)
    requires Inv(u) && !u.started && e.FileAccess?
    ensures Inv(Touched(u, e)) && Moves(u, Touched(u, e))
  {
    hide TreeOk;
    var p := Get(u.eng.procs, e.cookie);
    if Touched(u, e) != u {
      assert p.value in u.eng.procs;
      InsertTreeOk(u.tree.value, e.path.value, if p.value.flags.parent then 0 else e.cookie);
    }
  }

  lemma InsertTreeOk(t: Tree, path: CString, cookie: Cookie)
    requires TreeOk(t)
    ensures TreeOk(FileTree.Insert(t, path, cookie))
  {
    FileTree.InsertSorted(t, path, cookie);
    hide FileTree.Sorted;
    hide FileTree.Position;
    forall n | n in FileTree.Insert(t, path, cookie) ensures 0 !in n.path {
      assert n in t || n.path == path;
    }
  }

  lemma InstanceContinues(procs: seq<Proc>, cookie: Cookie)
    ensures Continues(procs, AddInstance(procs, cookie))
  {
  }

  lemma ProcessInv(u: Upg, e: Event, trigger: bool, env: Env)
    requires Inv(u) && !u.started
    ensures Inv(ProcessEvent(u, e, trigger, env)) && Moves(u, ProcessEvent(u, e, trigger, env))
  {
    hide Inv;
    hide Step;
    hide Find;
    hide AddInstance;
    hide Continues;
    match e {
      case ExitEv(cookie) => ExitInv(u, cookie);
      case ReplaceEv(gains, loses) =>
        InstanceContinues(u.eng.procs, gains);
        var v := Put(u, AddInstance(u.eng.procs, gains));
        ContinuesInv(u, v);
        ExitInv(v, loses);
      case ExecEv(cookie, uid, _, _, _) =>
        StepContinues(u.eng, e, env);
        var v := u.(eng := Step(u.eng, e, env));
        ContinuesInv(u, v);
        if trigger && uid == 0 && Find(v.eng.procs, cookie).Some? {
          StartInv(v, Find(v.eng.procs, cookie));
        }
      case _ =>
        StepContinues(u.eng, e, env);
        ContinuesInv(u, u.(eng := Step(u.eng, e, env)));
    }
  }

  lemma ThreadInv(u: Upg, k: nat, n: int)
    requires Inv(u) && k < |u.eng.procs|
    ensures Inv(SetThreads(u.(tracking := true), k, n))
  {
    ContinuesInv(u, SetThreads(u.(tracking := true), k, n));
  }

  lemma ThreadsInv(u: Upg, cookie: Cookie)
    requires Inv(u) && !u.started
    ensures Inv(ThreadAdded(u, cookie)) && Moves(u, ThreadAdded(u, cookie))
    ensures Inv(ThreadRemoved(u, cookie)) && Moves(u, ThreadRemoved(u, cookie))
  {
    var at := Find(u.eng.procs, cookie);
    hide Inv;
    hide Find;
    hide End;
    ContinuesInv(u, u.(tracking := true));
    if at.Some? {
      var n := u.eng.procs[at.value].threads;
      ThreadInv(u, at.value, n + 1);
      ThreadInv(u, at.value, n - 1);
      if n == 1 { EndInv(SetThreads(u.(tracking := true), at.value, 0), at.value); }
    }
  }

  lemma FileInv(u: Upg, e: KEvent, env: Env)
    requires Inv(u) && !u.started && e.FileAccess?
    ensures Inv(Handle(u, e, env)) && Moves(u, Handle(u, e, env))
  {
    hide Inv;
    hide Step;
    hide Touched;
    StepContinues(u.eng, OpenEv(e.cookie, e.uid, e.ident), env);
    var v := u.(eng := Step(u.eng, OpenEv(e.cookie, e.uid, e.ident), env));
    ContinuesInv(u, v);
    TouchedInv(v, e);
  }

  lemma PathInv(u: Upg, e: KEvent)
    requires Inv(u) && !u.started && e.PathEvent?
    ensures Inv(PathHandled(u, e)) <==> !Lost(u, e)
    ensures Moves(u, PathHandled(u, e))
  {
    hide Inv;
    hide Find;
    hide Start;
    hide End;
    var at := Find(u.eng.procs, e.cookie);
    if Starts(u, e) {
      StartInv(u, at);
    } else if e.op.Unlock? && e.uid == 0 && e.mode.StrictLock? && at.Some? {
      EndInv(u, at.value);
    }
  }

  /**
   * Every event keeps the invariant, except a lock by a process that is not tracked
   * when that lock starts or joins an upgrade; and it moves the upgrade as it should.
   */
  lemma HandleInv(u: Upg, e: KEvent, env: Env)
    requires Inv(u)
    ensures Inv(Handle(u, e, env)) <==> !Lost(u, e)
    ensures Moves(u, Handle(u, e, env))
  {
    var v := u.(started := false);
    assert Inv(v) && (Lost(v, e) <==> Lost(u, e)) && Handle(v, e, env) == Handle(u, e, env);
    HandleCleared(v, e, env);
  }

  lemma HandleCleared(u: Upg, e: KEvent, env: Env)
    requires Inv(u) && !u.started
    ensures Inv(Handle(u, e, env)) <==> !Lost(u, e)
    ensures Moves(u, Handle(u, e, env))
  {
    hide Inv;
    hide Moves;
    hide ProcessEvent;
    hide ThreadAdded;
    hide ThreadRemoved;
    hide PathHandled;
    match e {
      case Process(event, trigger) => ProcessInv(u, event, trigger, env);
      case AddThread(cookie) => ThreadsInv(u, cookie);
      case RemoveThread(cookie) => ThreadsInv(u, cookie);
      case FileAccess(_, _, _, _, _, _) => FileInv(u, e, env);
      case PathEvent(_, _, _, _) => PathInv(u, e);
    }
  }

  // ------------------------------------------------------------------ the end of an upgrade

  /** What the completion of an upgrade does to the marks of a process */
  predicate Released(before: Proc, after: Proc) {
    after.flags == if before.flags.hold then before.flags.(upgrade := true, parent := true, hold := false)
        else before.flags
  }

  /** While holds are released: processes before k are done. */
  ghost predicate Releasing(u: Upg, k: nat) {
    && k <= |u.eng.procs|
    && u.counter == Parents(u.eng.procs)
    && (u.counter == 0 ==> u.tree.None? && forall j | 0 <= j < |u.eng.procs| :: !u.eng.procs[j].flags.upgrade)
    && (u.counter > 0 ==> u.tree == Some([]))
    && (forall j | 0 <= j < k :: !u.eng.procs[j].flags.hold)
    && (forall j | k <= j < |u.eng.procs| :: !u.eng.procs[j].flags.parent)
    && u.iter.None?
  }

  lemma ReleaseOne(u: Upg, k: nat)
    requires Releasing(u, k) && k < |u.eng.procs| && u.eng.procs[k].flags.hold
    ensures var v := Start(Put(u, SetFlags(u.eng.procs, k, u.eng.procs[k].flags.(hold := false))), Some(k));
      && Releasing(v, k + 1) && |v.eng.procs| == |u.eng.procs|
      && Released(u.eng.procs[k], v.eng.procs[k])
      && (forall j | 0 <= j < |u.eng.procs| && j != k :: v.eng.procs[j] == u.eng.procs[j])
      && v.started == u.started
  {
    var w := Put(u, SetFlags(u.eng.procs, k, u.eng.procs[k].flags.(hold := false)));
    ParentsPut(u.eng.procs, k, w.eng.procs[k]);
    ParentsPut(w.eng.procs, k, Start(w, Some(k)).eng.procs[k]);
  }

  lemma {:induction false} ReleaseAll(u: Upg, k: nat)
    requires Releasing(u, k)
    ensures var v := Release(u, k);
      && Releasing(v, |v.eng.procs|) && |v.eng.procs| == |u.eng.procs| && v.started == u.started
      && (forall j | k <= j < |u.eng.procs| :: Released(u.eng.procs[j], v.eng.procs[j]))
      && (forall j | 0 <= j < k :: v.eng.procs[j] == u.eng.procs[j])
    decreases |u.eng.procs| - k
  {
    if k < |u.eng.procs| {
      if u.eng.procs[k].flags.hold {
        ReleaseOne(u, k);
        var v := Start(Put(u, SetFlags(u.eng.procs, k, u.eng.procs[k].flags.(hold := false))), Some(k));
        hide Releasing;
        hide Start;
        hide Released;
        ReleaseAll(v, k + 1);
      } else {
        ReleaseAll(u, k + 1);
      }
    }
  }

  /**
   * The completion of an upgrade lifts every hold, turns exactly the held processes into
   * upgrade parents of a new upgrade, and leaves all other marks alone.
   */
  lemma CompleteInv(u: Upg)
    requires Inv(u) && Pending(u)
    ensures var v := Complete(u);
      && Inv(v) && !Pending(v) && |v.eng.procs| == |u.eng.procs| && v.started == u.started
      && (v.tree == if v.counter == 0 then None else Some([]))
      && (forall k | 0 <= k < |u.eng.procs| :: Released(u.eng.procs[k], v.eng.procs[k]) && !v.eng.procs[k].flags.hold)
  {
    ParentsZero(u.eng.procs);
    NoNodes();
    ReleaseAll(u.(tree := None, iter := None), 0);
    hide Released;
    hide TreeOk;
  }

  /** With a counted process that is not tracked no upgrade ends any more. */
  ghost predicate Stuck(u: Upg) {
    u.tree.Some? && u.counter > Parents(u.eng.procs)
  }

  lemma LostIsStuck(u: Upg, e: KEvent, env: Env)
    requires Inv(u) && Lost(u, e)
    ensures Stuck(Handle(u, e, env))
  {
  }

  lemma StuckEndParent(u: Upg, parent: bool)
    requires u.tree.Some? && u.counter > Parents(u.eng.procs) + Count(parent)
    ensures Stuck(EndParent(u, parent)) && EndParent(u, parent).started == u.started
  {
  }

  lemma StuckEnd(u: Upg, k: nat)
    requires Stuck(u) && k < |u.eng.procs|
    ensures Stuck(End(u, k)) && End(u, k).started == u.started
  {
    var f := u.eng.procs[k].flags;
    var w := Put(u, SetFlags(u.eng.procs, k, f.(upgrade := false, parent := false)));
    ParentsPut(u.eng.procs, k, w.eng.procs[k]);
    StuckEndParent(w, f.parent);
  }

  lemma StuckExit(u: Upg, cookie: Cookie)
    requires Stuck(u)
    ensures Stuck(Exit(u, cookie)) && Exit(u, cookie).started == u.started
  {
    hide Find;
    hide EndParent;
    var procs := u.eng.procs;
    var at := Find(procs, cookie);
    if at.Some? {
      var k := at.value;
      ParentsPut(procs, k, procs[k].(instances := procs[k].instances - 1));
      if procs[k].instances - 1 == 0 {
        ParentsRemove(procs, k);
        StuckEndParent(Put(u, ExitProc(procs, cookie)), procs[k].flags.parent);
      }
    }
  }

  lemma StuckStart(u: Upg, at: Option<nat>)
    requires Stuck(u) && (at.Some? ==> at.value < |u.eng.procs|)
    ensures Stuck(Start(u, at)) && Start(u, at).started == u.started
  {
    if at.Some? {
      ParentsPut(u.eng.procs, at.value, Start(u, at).eng.procs[at.value]);
    }
  }

  lemma StuckProcess(u: Upg, e: Event, trigger: bool, env: Env)
    requires Stuck(u)
    ensures Stuck(ProcessEvent(u, e, trigger, env)) && ProcessEvent(u, e, trigger, env).started == u.started
  {
    hide Step;
    hide Find;
    hide Start;
    hide Exit;
    hide AddInstance;
    match e {
      case ExitEv(cookie) => StuckExit(u, cookie);
      case ReplaceEv(gains, loses) =>
        InstanceContinues(u.eng.procs, gains);
        ContinuesParents(u.eng.procs, AddInstance(u.eng.procs, gains));
        StuckExit(Put(u, AddInstance(u.eng.procs, gains)), loses);
      case ExecEv(cookie, uid, _, _, _) =>
        StepContinues(u.eng, e, env);
        var v := u.(eng := Step(u.eng, e, env));
        ContinuesParents(u.eng.procs, v.eng.procs);
        if trigger && uid == 0 && Find(v.eng.procs, cookie).Some? {
          StuckStart(v, Find(v.eng.procs, cookie));
        }
      case _ =>
        StepContinues(u.eng, e, env);
        ContinuesParents(u.eng.procs, Step(u.eng, e, env).procs);
    }
  }

  lemma StuckThreads(u: Upg, cookie: Cookie)
    requires Stuck(u)
    ensures Stuck(ThreadAdded(u, cookie)) && ThreadAdded(u, cookie).started == u.started
    ensures Stuck(ThreadRemoved(u, cookie)) && ThreadRemoved(u, cookie).started == u.started
  {
    hide Find;
    hide End;
    var at := Find(u.eng.procs, cookie);
    if at.Some? {
      ParentsPut(u.eng.procs, at.value, ThreadAdded(u, cookie).eng.procs[at.value]);
      var w := SetThreads(u.(tracking := true), at.value, u.eng.procs[at.value].threads - 1);
      ParentsPut(u.eng.procs, at.value, w.eng.procs[at.value]);
      StuckEnd(w, at.value);
    }
  }

  lemma StuckPath(u: Upg, e: KEvent)
    requires Stuck(u) && e.PathEvent?
    ensures Stuck(PathHandled(u, e)) && PathHandled(u, e).started == u.started
  {
    hide Find;
    hide Start;
    hide End;
    var at := Find(u.eng.procs, e.cookie);
    StuckStart(u, at);
    if at.Some? { StuckEnd(u, at.value); }
  }

  /** No event ends the upgrade again: it stays open and no START message is sent. */
  lemma StuckForever(u: Upg, e: KEvent, env: Env)
    requires Stuck(u)
    ensures Stuck(Handle(u, e, env)) && !Handle(u, e, env).started && !Pending(Handle(u, e, env))
  {
    var v := u.(started := false);
    hide PathHandled;
    hide ThreadAdded;
    hide ThreadRemoved;
    hide Step;
    hide ProcessEvent;
    match e {
      case Process(event, trigger) => StuckProcess(v, event, trigger, env);
      case AddThread(cookie) => StuckThreads(v, cookie);
      case RemoveThread(cookie) => StuckThreads(v, cookie);
      case FileAccess(cookie, uid, ident, _, _, _) =>
        StepContinues(v.eng, OpenEv(cookie, uid, ident), env);
        ContinuesParents(v.eng.procs, Step(v.eng, OpenEv(cookie, uid, ident), env).procs);
      case PathEvent(_, _, _, _) => StuckPath(v, e);
    }
  }
}

/**
 * The upgrade code as it runs: the policy engine's global variables are fields that
 * its methods change (pe.c, pe_proc.c, policy.c). All methods are proved against the
 * functions of Upgrade.dfy and Pipeline.dfy.
 */
module UpgradeEngine {
  import opened Basics
  import Contexts
  import opened Processes
  import opened Upgrade
  import FileTree
  import Pipeline
  import UpgradeEvents
  import UpgradeTrust

  class PolicyProcess {
    /** Process tracking and the policy database */
    var eng: Engine
    /** have_task_tracking */
    var tracking: bool
    /** upgrade_tree, upgrade_counter and upgrade_iterator */
    var tree: Option<Tree>
    var counter: int
    var iter: Option<nat>
    /** upgrade_ok */
    var ok: bool
    /** A START message was queued. */
    var started: bool

    function State(): Upg
      reads this
    {
      Upg(eng, tracking, tree, counter, iter, ok, started)
    }

    constructor (eng: Engine)
      ensures State() == Upg(eng, false, None, 0, None, true, false)
    {
      this.eng, tracking, tree, counter, iter, ok, started := eng, false, None, 0, None, true, false;
    }

    /** pe_proc_set_flag and pe_proc_clr_flag */
    method ChangeFlags(k: nat, f: Flags)
      requires k < |eng.procs|
      modifies `eng
      ensures eng == old(eng).(procs := SetFlags(old(eng).procs, k, f))
    {
      eng := eng.(procs := eng.procs[k := eng.procs[k].(flags := f)]);
    }

    /** pe_set_upgrade_ok */
    method SetUpgradeOk(value: bool)
      modifies `ok
      ensures State() == old(State()).(ok := value)
    {
      ok := value;
    }

    /** pe_upgrade_start */
    method UpgradeStart(at: Option<nat>)
      requires at.Some? ==> at.value < |eng.procs|
      modifies this
      ensures State() == Start(old(State()), at)
    {
      if at.Some? && eng.procs[at.value].flags.parent {
        return;
      }
      if tree.None? {
        tree := Some([]);
      } else if counter == 0 {
        if at.Some? {
          ChangeFlags(at.value, eng.procs[at.value].flags.(hold := true));
        }
        return;
      }
      if at.Some? {
        ChangeFlags(at.value, eng.procs[at.value].flags.(upgrade := true, parent := true));
      }
      counter := counter + 1;
    }

    /** The pruning loop of pe_upgrade_end; last is last_cookie. */
    method PruneTree()
      modifies `tree
      ensures tree == if old(tree).None? then None else Some(Prune(old(tree).value, eng.procs, tracking))
    {
      hide Prune;
      hide IsRunning;
      if tree.None? { return; }
      ghost var all, kept, j := tree.value, [], 0;
      PruneNone(all, eng.procs, tracking);
      var last: Cookie := 0;
      var i := 0;
      while i < |tree.value|
        invariant tree.Some? && j <= |all| && i == |kept|
        invariant kept == Prune(all[..j], eng.procs, tracking)
        invariant tree.value == kept + all[j..]
        invariant last == 0 || !IsRunning(eng.procs, tracking, last)
        decreases |tree.value| - i
      {
        var n := tree.value[i];
        PruneStep(all, j, eng.procs, tracking);
        Advance(kept, all, j);
        if n.cookie == 0 || n.cookie == last {
          i := i + 1;
          kept := kept + [n];
        } else {
          var running := Running(n.cookie);
          if running {
            tree := Some(tree.value[..i] + tree.value[i + 1..]);
          } else {
            last := n.cookie;
            i := i + 1;
            kept := kept + [n];
          }
        }
        j := j + 1;
      }
      assert all[..j] == all && tree.value == kept;
    }

    /** pe_proc_is_running */
    method Running(cookie: Cookie) returns (r: bool)
      ensures r == IsRunning(eng.procs, tracking, cookie)
    {
      var at := Find(eng.procs, cookie);
      r := at.Some? && (eng.procs[at.value].threads > 0 || !tracking);
    }

    /** pe_proc_upgrade_clrallmarks */
    method ClearAllMarks()
      modifies `eng
      ensures eng == old(eng).(procs := ClearMarks(old(eng).procs))
    {
      for k := 0 to |eng.procs|
        invariant eng == old(eng).(procs := eng.procs) && |eng.procs| == |old(eng).procs|
        invariant forall j | 0 <= j < |eng.procs| ::
                    eng.procs[j] == if j < k then ClearMarks(old(eng).procs)[j] else old(eng).procs[j]
      {
        ChangeFlags(k, eng.procs[k].flags.(upgrade := false, parent := false));
      }
    }

    /** pe_upgrade_filelist_start */
    method FilelistStart()
      modifies `iter
      ensures iter == if tree.None? || counter != 0 then None else First(tree.value)
    {
      if tree.None? || counter != 0 || tree.value == [] {
        iter := None;
      } else {
        iter := Some(0);
      }
    }

    /** pe_upgrade_end after the marks of the process are cleared */
    method EndUpgrade(parent: bool)
      modifies this
      ensures State() == EndParent(old(State()), parent)
    {
      if !parent { return; }
      counter := counter - 1;
      if counter > 0 { return; }
      PruneTree();
      ClearAllMarks();
      started := true;
      FilelistStart();
    }

    /** pe_upgrade_end */
    method UpgradeEnd(k: nat)
      requires k < |eng.procs|
      modifies this
      ensures State() == End(old(State()), k)
    {
      var parent := eng.procs[k].flags.parent;
      ChangeFlags(k, eng.procs[k].flags.(upgrade := false, parent := false));
      EndUpgrade(parent);
    }

    /** pe_proc_exit: an upgrade ends after the process has left the tracker. */
    method ProcExit(cookie: Cookie)
      modifies this
      ensures State() == Exit(old(State()), cookie)
      ensures Upgrade.Inv(old(State())) ==> UpgradeEvents.ExitEffect(old(State()), cookie, State())
    {
      ghost var u := State();
      if Upgrade.Inv(u) { UpgradeEvents.ExitHasEffect(u, cookie); }
      var at := Find(eng.procs, cookie);
      if at.None? { return; }
      var p := eng.procs[at.value];
      if p.instances - 1 != 0 {
        eng := eng.(procs := eng.procs[at.value := p.(instances := p.instances - 1)]);
        return;
      }
      eng := eng.(procs := eng.procs[..at.value] + eng.procs[at.value + 1..]);
      EndUpgrade(p.flags.parent);
    }

    /** pe_proc_add_thread */
    method ProcAddThread(cookie: Cookie)
      modifies this
      ensures State() == ThreadAdded(old(State()), cookie)
    {
      var at := Find(eng.procs, cookie);
      tracking := true;
      if at.Some? {
        var p := eng.procs[at.value];
        eng := eng.(procs := eng.procs[at.value := p.(threads := p.threads + 1)]);
      }
    }

    /** pe_proc_remove_thread */
    method ProcRemoveThread(cookie: Cookie)
      modifies this
      ensures State() == ThreadRemoved(old(State()), cookie)
      ensures Upgrade.Inv(old(State())) ==> UpgradeEvents.ThreadEffect(old(State()), cookie, State())
    {
      ghost var u := State();
      if Upgrade.Inv(u) { UpgradeEvents.ThreadHasEffect(u, cookie); }
      var at := Find(eng.procs, cookie);
      tracking := true;
      if at.Some? && eng.procs[at.value].threads > 0 {
        var p := eng.procs[at.value];
        eng := eng.(procs := eng.procs[at.value := p.(threads := p.threads - 1)]);
        if p.threads - 1 == 0 {
          UpgradeEnd(at.value);
        }
      }
    }

    /** The part of pe_handle_sfs that records touched files and gives the event its upgrade flags */
    method RecordTouched(e: KEvent) returns (touched: bool, writeOk: bool)
      requires e.FileAccess?
      modifies this
      ensures State() == Touched(old(State()), e)
      ensures Upgrade.Inv(old(State())) ==> UpgradeEvents.FileEffect(old(State()), e, State())
      ensures UpgradeTrust.Trust(touched, writeOk) == UpgradeTrust.TrustOf(old(State()), e)
    {
      ghost var u := State();
      if Upgrade.Inv(u) { UpgradeEvents.FileHasEffect(u, e); }
      hide UpgradeEvents.FileEffect;
      touched := false;
      var at := Find(eng.procs, e.cookie);
      var upgrader := at.Some? && eng.procs[at.value].flags.upgrade;
      if upgrader && e.write {
        if e.path.Some? && e.hasSum {
          var cookie := e.cookie;
          if eng.procs[at.value].flags.parent {
            cookie := 0;
          }
          if tree.Some? {
            var t := TreeInsert(tree.value, e.path.value, cookie);
            tree := Some(t);
          }
          touched := true;
        }
      } else {
        touched := e.path.Some? && tree.Some? && e.path.value in FileTree.Paths(tree.value);
      }
      writeOk := touched && upgrader;
    }

    /** An event of process tracking: an exit may end an upgrade and an exec may start one. */
    method TrackEvent(e: Event, trigger: bool, env: Contexts.Env)
      modifies this
      ensures State() == ProcessEvent(old(State()), e, trigger, env)
    {
      match e {
        case ExitEv(cookie) => ProcExit(cookie);
        case ReplaceEv(gains, loses) =>
          eng := eng.(procs := AddInstance(eng.procs, gains));
          ProcExit(loses);
        case ExecEv(cookie, uid, _, _, _) =>
          eng := Step(eng, e, env);
          var at := Find(eng.procs, cookie);
          if trigger && uid == 0 && at.Some? {
            UpgradeStart(at);
          }
        case _ => eng := Step(eng, e, env);
      }
    }

    /** The lock and unlock events of pe_handle_sfspath */
    method HandlePath(e: KEvent)
      requires e.PathEvent?
      modifies this
      ensures State() == PathHandled(old(State()), e)
      ensures Upgrade.Inv(old(State())) ==> UpgradeEvents.PathEffect(old(State()), e, State())
    {
      ghost var u := State();
      if Upgrade.Inv(u) { UpgradeEvents.PathHasEffect(u, e); }
      var at := Find(eng.procs, e.cookie);
      match e.op {
        case LinkOrRename =>
        case Lock =>
          if e.uid == 0 && (e.mode.StrictLock? || e.mode.LooseLock?) {
            if ok || counter != 0 {
              UpgradeStart(at);
            }
          }
        case Unlock =>
          if e.uid == 0 && e.mode.StrictLock? {
            if at.Some? {
              UpgradeEnd(at.value);
            }
          }
      }
    }

    /** policy_engine, as far as it concerns processes and upgrades */
    method HandleEvent(e: KEvent, env: Contexts.Env)
      modifies this
      ensures State() == Handle(old(State()), e, env)
      ensures Upgrade.Inv(old(State())) ==> UpgradeEvents.Effect(old(State()).(started := false), e, env, State())
    {
      hide UpgradeEvents.Effect;
      hide Upgrade.Inv;
      hide UpgradeTrust.TrustOf;
      hide UpgradeEvents.FileEffect;
      hide UpgradeEvents.PathEffect;
      hide UpgradeEvents.ThreadEffect;
      hide ProcessEvent;
      hide Touched;
      hide PathHandled;
      hide ThreadAdded;
      hide ThreadRemoved;
      hide Step;
      ghost var u := State();
      if Upgrade.Inv(u) { UpgradeEvents.HandleEffect(u, e, env); }
      started := false;
      match e {
        case Process(event, trigger) => TrackEvent(event, trigger, env);
        case AddThread(cookie) => ProcAddThread(cookie);
        case RemoveThread(cookie) => ProcRemoveThread(cookie);
        case FileAccess(cookie, uid, ident, _, _, _) =>
          eng := Step(eng, OpenEv(cookie, uid, ident), env);
          var touched, writeOk := RecordTouched(e);
        case PathEvent(_, _, _, _) => HandlePath(e);
      }
    }

    /** pe_proc_release */
    method ReleaseHolds()
      modifies this
      ensures State() == Release(old(State()), 0)
    {
      var k := 0;
      while k < |eng.procs|
        invariant k <= |eng.procs|
        invariant Release(State(), k) == Release(old(State()), 0)
      {
        if eng.procs[k].flags.hold {
          ChangeFlags(k, eng.procs[k].flags.(hold := false));
          UpgradeStart(Some(k));
        }
        k := k + 1;
      }
    }

    /** pe_upgrade_finish followed by pe_proc_release; the cache is flushed by the caller. */
    method CompleteUpgrade()
      modifies this
      ensures State() == Complete(old(State()))
    {
      tree := None;
      iter := None;
      ReleaseHolds();
    }

    /** policy_upgrade_fill_chunk with pe_upgrade_filelist_get and pe_upgrade_filelist_next */
    method FillChunk() returns (data: Bytes)
      requires iter.Some? && tree.Some? ==> iter.value < |tree.value|
      modifies `iter
      ensures (data, iter) == Pipeline.Fill(old(State()))
    {
      data := [];
      if tree.None? || counter != 0 {
        iter := None;
      }
      if iter.None? { return; }
      ghost var first := iter.value;
      ghost var end := Pipeline.FillFrom(tree.value, first, 0);
      assert [] + end.0 == end.0;
      while iter.Some?
        invariant iter.Some? ==> iter.value < |tree.value|
        invariant var k := if iter.Some? then iter.value else |tree.value|;
                  end == (data + Pipeline.FillFrom(tree.value, k, |data|).0, Pipeline.FillFrom(tree.value, k, |data|).1)
        decreases if iter.Some? then |tree.value| - iter.value else 0
      {
        var path := tree.value[iter.value].path;
        var len := |path| + 1;
        if |data| + len > PATH_MAX {
          assert data + [] == data;
          return;
        }
        ghost var rest := Pipeline.FillFrom(tree.value, iter.value + 1, |data| + len).0;
        assert data + (path + [0] + rest) == (data + (path + [0])) + rest;
        data := data + (path + [0]);
        iter := if iter.value + 1 < |tree.value| then Some(iter.value + 1) else None;
      }
      assert data + [] == data;
    }
  }

  lemma Advance(kept: Tree, all: Tree, j: nat)
    requires j < |all|
    ensures var t := kept + all[j..]; var i := |kept|;
      t[i] == all[j] && t == kept + [all[j]] + all[j + 1..] && t[..i] + t[i + 1..] == kept + all[j + 1..]
  {
  }

  lemma PruneNone(t: Tree, procs: seq<Proc>, tracking: bool)
    ensures Prune(t[..0], procs, tracking) == []
  {
  }

  lemma PruneStep(t: Tree, j: nat, procs: seq<Proc>, tracking: bool)
    requires j < |t|
    ensures Prune(t[..j + 1], procs, tracking)
         == Prune(t[..j], procs, tracking) + if Kept(procs, tracking, t[j]) then [t[j]] else []
  {
    assert t[..j + 1][..j] == t[..j];
  }

  /** pe_filetree_insert: the place of a node is found by hashcmp. */
  method TreeInsert(t: Tree, path: Path, cookie: Cookie) returns (r: Tree)
    ensures r == FileTree.Insert(t, path, cookie)
  {
    hide FileTree.Compare;
    var k := 0;
    while k < |t| && FileTree.Compare(t[k].path, path) < 0
      invariant k <= |t| && FileTree.Position(t, path) == k + FileTree.Position(t[k..], path)
    {
      assert t[k..][1..] == t[k + 1..];
      k := k + 1;
    }
    if k < |t| && t[k].path == path {
      if cookie == 0 {
        return t[k := FileTree.Node(path, 0)];
      }
      return t;
    }
    return t[..k] + [FileTree.Node(path, cookie)] + t[k..];
  }
}

/**
 * Upgrades and verdicts: whose writes are trusted while an upgrade goes on, and that nothing
 * is trusted without one (pe.c, pe_sfs.c).
 */
module UpgradeTrust {
  import opened Basics
  import Policy
  import Contexts
  import opened Processes
  import opened Upgrade
  import opened UpgradeEvents
  import FileTree
  import R = PathRules
  import Verdicts

  /** PE_UPGRADE_TOUCHED and PE_UPGRADE_WRITEOK for a file event */
  datatype Trust = Trust(touched: bool, writeOk: bool)

  /** The flags that pe_handle_sfs gives to a file event */
  function TrustOf(u: Upg, e: KEvent): Trust
    requires e.FileAccess?
  {
    var p := Get(u.eng.procs, e.cookie);
    var upgrader := p.Some? && p.value.flags.upgrade;
    var touched := e.path.Some? && if upgrader && e.write then e.hasSum
                                   else u.tree.Some? && e.path.value in FileTree.Paths(u.tree.value);
    Trust(touched, touched && upgrader)
  }

  /** A process without upgrade marks when there is no upgrade */
  lemma NoUpgrader(u: Upg, cookie: Cookie)
    requires Upgrade.Inv(u) && u.tree.None?
    ensures Get(u.eng.procs, cookie).Some? ==> !Get(u.eng.procs, cookie).value.flags.upgrade
  {
    hide Find;
    ParentsZero(u.eng.procs);
  }

  /**
   * The flag says that the file is in the tree of the upgrade once the event is recorded; a writer of the
   * upgrade that finds no checksum for the file is the exception.
   */
  lemma TouchedIsRecorded(u: Upg, e: KEvent)
    requires Upgrade.Inv(u) && e.FileAccess?
    ensures var v := Touched(u, e); var p := Get(u.eng.procs, e.cookie);
      TrustOf(u, e).touched <==>
        && e.path.Some? && v.tree.Some? && e.path.value in FileTree.Paths(v.tree.value)
        && !(p.Some? && p.value.flags.upgrade && e.write && !e.hasSum)
  {
    FileHasEffect(u, e);
    NoTreeNoUpgrader(u, e.cookie);
    hide Find;
    hide Upgrade.Inv;
    hide TreeOk;
    hide Touched;
    var v := Touched(u, e);
    if e.path.Some? && v.tree.Some? {
      PathHasCookie(v.tree.value, e.path.value);
    }
  }

  lemma NoTreeNoUpgrader(u: Upg, cookie: Cookie)
    requires Upgrade.Inv(u)
    ensures u.tree.None? && Get(u.eng.procs, cookie).Some? ==> !Get(u.eng.procs, cookie).value.flags.upgrade
  {
    if u.tree.None? { NoUpgrader(u, cookie); }
  }

  lemma PathHasCookie(t: Tree, path: Path)
    ensures path in FileTree.Paths(t) <==> FileTree.CookieOf(t, path).Some?
  {
    if path in FileTree.Paths(t) {
      var k :| 0 <= k < |t| && FileTree.Paths(t)[k] == path;
    }
  }

  /** The event as the rules see it carries the flags of the upgrade. */
  predicate Carries(ev: R.FileEvent, t: Trust) {
    ev.touched == t.touched && ev.writeOk == t.writeOk
  }

  /**
   * Without an upgrade a file counts as valid only if it has the registered checksum. During one, whatever
   * a process of the upgrade does with a file of the upgrade counts as valid if any checksum is registered.
   */
  lemma TrustNeedsUpgrade(u: Upg, e: KEvent, r: Policy.PathRule, ev: R.FileEvent, env: Contexts.Env)
    requires Upgrade.Inv(u) && e.FileAccess? && Carries(ev, TrustOf(u, e))
    requires r.SfsAccess? && Verdicts.Concerns(r, ev) && Verdicts.Known(r.subject, ev, env)
    ensures u.tree.None? ==>
              (Verdicts.Says(r, ev, env, r.valid, R.Valid) <==> Verdicts.Same(r.subject, ev, env))
    ensures TrustOf(u, e).writeOk ==> Verdicts.Says(r, ev, env, r.valid, R.Valid)
  {
    NoTreeNoUpgrader(u, e.cookie);
    hide Upgrade.Inv;
    hide Find;
    hide Verdicts.Concerns;
    hide Verdicts.Known;
    hide Verdicts.Same;
  }

  /** The file of a node is still recorded, or the upgrade has just ended and its writer goes on. */
  ghost predicate Stays(v: Upg, n: FileTree.Node) {
    && v.tree.Some?
    && (n.path in FileTree.Paths(v.tree.value)
        || (v.started && n.cookie != 0 && Runs(v.eng.procs, v.tracking, n.cookie)))
  }

  lemma SameTree(u: Upg, v: Upg, n: FileTree.Node)
    requires u.tree.Some? && n in u.tree.value && v.tree == u.tree
    ensures Stays(v, n)
  {
    var k :| 0 <= k < |u.tree.value| && u.tree.value[k] == n;
    assert FileTree.Paths(u.tree.value)[k] == n.path;
  }

  lemma LeavesStays(u: Upg, v: Upg, parent: bool, rest: seq<Proc>, n: FileTree.Node)
    requires Leaves(u, v, parent, rest) && u.tree.Some? && n in u.tree.value
    ensures Stays(v, n)
  {
    hide TreeOk;
    if v.tree == u.tree {
      SameTree(u, v, n);
    } else if Runs(rest, u.tracking, n.cookie) {
      assert Runs(v.eng.procs, v.tracking, n.cookie);
    }
    if v.tree.Some? && n in v.tree.value {
      SameTree(v, v, n);
    }
  }

  lemma ExitStays(u: Upg, v: Upg, cookie: Cookie, n: FileTree.Node)
    requires ExitEffect(u, cookie, v) && u.tree.Some? && n in u.tree.value
    ensures Stays(v, n)
  {
    hide Find;
    hide Leaves;
    hide Stays;
    var procs, at := u.eng.procs, Find(u.eng.procs, cookie);
    if at.None? || procs[at.value].instances != 1 {
      SameTree(u, v, n);
    } else {
      LeavesStays(u, v, procs[at.value].flags.parent, procs[..at.value] + procs[at.value + 1..], n);
    }
  }

  lemma ProcessStays(u: Upg, v: Upg, e: Event, trigger: bool, env: Contexts.Env, n: FileTree.Node)
    requires ProcessEffect(u, e, trigger, env, v) && u.tree.Some? && n in u.tree.value
    ensures Stays(v, n)
  {
    hide Find;
    hide Step;
    hide ExitEffect;
    hide AddInstance;
    hide Stays;
    match e {
      case ExitEv(cookie) => ExitStays(u, v, cookie, n);
      case ReplaceEv(gains, loses) => ExitStays(Upgrade.Put(u, AddInstance(u.eng.procs, gains)), v, loses, n);
      case _ => SameTree(u, v, n);
    }
  }

  lemma ThreadStays(u: Upg, v: Upg, cookie: Cookie, n: FileTree.Node)
    requires ThreadEffect(u, cookie, v) && u.tree.Some? && n in u.tree.value
    ensures Stays(v, n)
  {
    hide Find;
    hide Leaves;
    hide Stays;
    var w, at := u.(tracking := true), Find(u.eng.procs, cookie);
    if at.None? || u.eng.procs[at.value].threads != 1 {
      SameTree(u, v, n);
    } else {
      var p := u.eng.procs[at.value];
      LeavesStays(w, v, p.flags.parent, With(u.eng.procs, at.value, Unmarked(p.(threads := p.threads - 1))), n);
    }
  }

  lemma PathStays(u: Upg, v: Upg, e: KEvent, n: FileTree.Node)
    requires e.PathEvent? && PathEffect(u, e, v) && u.tree.Some? && n in u.tree.value
    ensures Stays(v, n)
  {
    hide Find;
    hide Leaves;
    hide Stays;
    var at := Find(u.eng.procs, e.cookie);
    if e.op.Unlock? && e.uid == 0 && e.mode.StrictLock? && at.Some? {
      var p := u.eng.procs[at.value];
      LeavesStays(u, v, p.flags.parent, With(u.eng.procs, at.value, Unmarked(p)), n);
    } else {
      SameTree(u, v, n);
    }
  }

  lemma FileStays(u: Upg, v: Upg, e: KEvent, n: FileTree.Node)
    requires e.FileAccess? && FileEffect(u, e, v) && u.tree.Some? && n in u.tree.value
    ensures Stays(v, n)
  {
    hide Find;
    hide TreeOk;
    if v.tree == u.tree {
      SameTree(u, v, n);
    } else {
      SameTree(u, u, n);
      PathHasCookie(u.tree.value, n.path);
      PathHasCookie(v.tree.value, n.path);
    }
  }

  /**
   * A recorded file stays recorded, whatever happens, until its upgrade is completed; only the end of the
   * upgrade drops files, and only those of a process that goes on.
   */
  lemma RecordedStays(u: Upg, e: KEvent, env: Contexts.Env, n: FileTree.Node)
    requires Upgrade.Inv(u) && u.tree.Some? && n in u.tree.value
    ensures Stays(Handle(u, e, env), n)
  {
    HandleEffect(u, e, env);
    var w, v := u.(started := false), Handle(u, e, env);
    hide Upgrade.Inv;
    hide Find;
    hide Step;
    hide Stays;
    hide ProcessEffect;
    hide ThreadEffect;
    hide FileEffect;
    hide PathEffect;
    match e {
      case Process(event, trigger) => ProcessStays(w, v, event, trigger, env, n);
      case AddThread(_) => SameTree(w, v, n);
      case RemoveThread(cookie) => ThreadStays(w, v, cookie, n);
      case FileAccess(cookie, uid, ident, _, _, _) => FileStays(Tracked(w, OpenEv(cookie, uid, ident), env), v, e, n);
      case PathEvent(_, _, _, _) => PathStays(w, v, e, n);
    }
  }
}

/**
 * What each kernel event does to an upgrade, in terms of marks, counts and recorded files:
 * which events begin and end one, what the end leaves, and which writes are recorded
 * (pe.c, pe_proc.c).
 */
module UpgradeEvents {
  import opened Basics
  import opened Contexts
  import opened Processes
  import opened Upgrade
  import Effects
  import FileTree

  // ------------------------------------------------------------------ the end of an upgrade

  function Unmarked(p: Proc): Proc {
    p.(flags := p.flags.(upgrade := false, parent := false))
  }

  function With(procs: seq<Proc>, k: nat, p: Proc): (r: seq<Proc>)
    requires k < |procs|
    ensures |r| == |procs| && r[k] == p && forall j | 0 <= j < |procs| && j != k :: r[j] == procs[j]
  {
    procs[k := p]
  }

  /** The first process with the cookie has a thread, or the kernel does not report threads. */
  predicate Runs(procs: seq<Proc>, tracking: bool, cookie: Cookie) {
    exists k: nat :: k < |procs| && procs[k].cookie == cookie && (forall j | 0 <= j < k :: procs[j].cookie != cookie)
                     && (tracking ==> procs[k].threads > 0)
  }

  /** The last upgrade parent is gone; rest is what it leaves of the list of processes. */
  ghost predicate Ended(u: Upg, v: Upg, rest: seq<Proc>) {
    && v.started && Pending(v)
    && v.eng.db == u.eng.db && v.tracking == u.tracking && v.ok == u.ok
    && |v.eng.procs| == |rest| && (forall k | 0 <= k < |rest| :: v.eng.procs[k] == Unmarked(rest[k]))
    && u.tree.Some? && TreeOk(v.tree.value)
    && (forall n :: n in v.tree.value <==> n in u.tree.value && (n.cookie == 0 || !Runs(rest, u.tracking, n.cookie)))
    && v.iter == (if v.tree == Some([]) then None else Some(0))
  }

  /**
   * One upgrade parent less: the last one ends the upgrade, which keeps the files that upgrade parents
   * have written and those of processes that have ended; any other only takes its own marks along.
   */
  ghost predicate ParentLeaves(u: Upg, v: Upg, rest: seq<Proc>) {
    if u.counter == 1 then v.counter == 0 && Ended(u, v, rest)
    else v == Upgrade.Put(u, rest).(counter := u.counter - 1)
  }

  /** A process leaves an upgrade; only a parent ends it. */
  ghost predicate Leaves(u: Upg, v: Upg, parent: bool, rest: seq<Proc>) {
    if parent then ParentLeaves(u, v, rest) else v == Upgrade.Put(u, rest)
  }

  lemma RunsExactly(procs: seq<Proc>, tracking: bool, cookie: Cookie)
    ensures IsRunning(procs, tracking, cookie) <==> Runs(procs, tracking, cookie)
  {
    var at := Find(procs, cookie);
    hide Find;
    if at.Some? {
      assert procs[at.value].cookie == cookie;
    }
  }

  lemma EndLeaves(u: Upg, parent: bool, rest: seq<Proc>)
    requires parent ==> u.counter >= 1 && u.tree.Some?
    requires u.tree.Some? ==> TreeOk(u.tree.value)
    ensures Leaves(u, EndParent(Upgrade.Put(u, rest), parent), parent, rest)
  {
    hide TreeOk;
    hide IsRunning;
    hide Runs;
    if parent && u.counter == 1 {
      PruneOk(u.tree.value, rest, u.tracking);
      forall n ensures IsRunning(rest, u.tracking, n) <==> Runs(rest, u.tracking, n) {
        RunsExactly(rest, u.tracking, n);
      }
    }
    hide Prune;
  }

  lemma ParentCounts(u: Upg, k: nat)
    requires Upgrade.Inv(u) && k < |u.eng.procs| && u.eng.procs[k].flags.parent
    ensures u.counter >= 1 && u.tree.Some?
  {
    ParentsZero(u.eng.procs);
  }

  // ------------------------------------------------------------------ lock and unlock

  /**
   * The beginning of an upgrade by process k: it becomes a counted parent, or it is put on hold while the
   * files of the last upgrade are being processed.
   */
  predicate Begins(u: Upg, v: Upg, k: nat)
    requires k < |u.eng.procs|
  {
    var procs, p := u.eng.procs, u.eng.procs[k];
    if p.flags.parent then v == u
    else if Pending(u) then v == Upgrade.Put(u, With(procs, k, p.(flags := p.flags.(hold := true))))
    else
      && v.tree == Some(if u.tree.Some? then u.tree.value else [])
      && v == Upgrade.Put(u, With(procs, k, p.(flags := p.flags.(upgrade := true, parent := true)))).(
                tree := v.tree, counter := u.counter + 1)
  }

  /** The lock of a process that is not tracked is counted, but no process is the parent. */
  predicate BeginsUnowned(u: Upg, v: Upg) {
    if Pending(u) then v == u
    else v == u.(tree := Some(if u.tree.Some? then u.tree.value else []), counter := u.counter + 1)
  }

  lemma StartBegins(u: Upg, k: nat)
    requires k < |u.eng.procs|
    ensures Begins(u, Start(u, Some(k)), k)
  {
  }

  lemma StartUnowned(u: Upg)
    ensures BeginsUnowned(u, Start(u, None))
  {
  }

  /** What a lock, unlock, link or rename does: nothing, unless root uses the lock of package managers. */
  ghost predicate PathEffect(u: Upg, e: KEvent, v: Upg)
    requires e.PathEvent?
  {
    var at := Find(u.eng.procs, e.cookie);
    if e.uid != 0 || e.op.LinkOrRename? then v == u
    else if e.op.Unlock? then
      if !e.mode.StrictLock? || at.None? then v == u
      else
        var p := u.eng.procs[at.value];
        Leaves(u, v, p.flags.parent, With(u.eng.procs, at.value, Unmarked(p)))
    else if (!e.mode.StrictLock? && !e.mode.LooseLock?) || (!u.ok && u.counter == 0) then v == u
    else if at.Some? then Begins(u, v, at.value)
    else BeginsUnowned(u, v)
  }

  lemma PathHasEffect(u: Upg, e: KEvent)
    requires Upgrade.Inv(u) && e.PathEvent?
    ensures PathEffect(u, e, PathHandled(u, e))
  {
    hide Find;
    hide Leaves;
    hide Upgrade.Inv;
    hide TreeOk;
    var at := Find(u.eng.procs, e.cookie);
    if at.Some? {
      var k, p := at.value, u.eng.procs[at.value];
      if p.flags.parent { ParentCounts(u, k); }
      TreeIsOk(u);
      EndLeaves(u, p.flags.parent, With(u.eng.procs, k, Unmarked(p)));
      StartBegins(u, k);
    } else {
      StartUnowned(u);
    }
    hide BeginsUnowned;
    hide EndParent;
    hide Begins;
    hide Start;
  }

  lemma TreeIsOk(u: Upg)
    requires Upgrade.Inv(u)
    ensures u.tree.Some? ==> TreeOk(u.tree.value)
  {
  }

  // ------------------------------------------------------------------ threads and exits

  /** What the end of a thread does: with its last thread a process leaves the upgrade. */
  ghost predicate ThreadEffect(u: Upg, cookie: Cookie, v: Upg) {
    var w := u.(tracking := true);
    var at := Find(u.eng.procs, cookie);
    if at.None? || u.eng.procs[at.value].threads <= 0 then v == w
    else
      var p := u.eng.procs[at.value];
      var q := p.(threads := p.threads - 1);
      if p.threads > 1 then v == Upgrade.Put(w, With(u.eng.procs, at.value, q))
      else Leaves(w, v, p.flags.parent, With(u.eng.procs, at.value, Unmarked(q)))
  }

  lemma ThreadHasEffect(u: Upg, cookie: Cookie)
    requires Upgrade.Inv(u)
    ensures ThreadEffect(u, cookie, ThreadRemoved(u, cookie))
  {
    hide Find;
    hide Leaves;
    hide Upgrade.Inv;
    hide TreeOk;
    hide EndParent;
    var at := Find(u.eng.procs, cookie);
    if at.Some? {
      var k, p := at.value, u.eng.procs[at.value];
      if p.flags.parent { ParentCounts(u, k); }
      TreeIsOk(u);
      var q := p.(threads := p.threads - 1);
      EndLeaves(u.(tracking := true), p.flags.parent, With(u.eng.procs, k, Unmarked(q)));
      assert With(With(u.eng.procs, k, q), k, Unmarked(q)) == With(u.eng.procs, k, Unmarked(q));
    }
  }

  /** What an exit does: with its last instance a process is not tracked any more and leaves the upgrade. */
  ghost predicate ExitEffect(u: Upg, cookie: Cookie, v: Upg) {
    var procs, at := u.eng.procs, Find(u.eng.procs, cookie);
    if at.None? then v == u
    else
      var p := procs[at.value];
      if p.instances != 1 then v == Upgrade.Put(u, With(procs, at.value, p.(instances := p.instances - 1)))
      else Leaves(u, v, p.flags.parent, procs[..at.value] + procs[at.value + 1..])
  }

  lemma ExitHasEffect(u: Upg, cookie: Cookie)
    requires Upgrade.Inv(u)
    ensures ExitEffect(u, cookie, Exit(u, cookie))
  {
    hide Find;
    hide Leaves;
    hide Upgrade.Inv;
    hide TreeOk;
    hide EndParent;
    var procs, at := u.eng.procs, Find(u.eng.procs, cookie);
    if at.Some? {
      if procs[at.value].flags.parent { ParentCounts(u, at.value); }
      TreeIsOk(u);
      EndLeaves(u, procs[at.value].flags.parent, procs[..at.value] + procs[at.value + 1..]);
    }
  }

  // ------------------------------------------------------------------ recorded files

  /**
   * A write is recorded if the process is part of an upgrade and the file has a checksum: under cookie 0
   * for a parent, else under the cookie of the first process that wrote the file.
   */
  ghost predicate FileEffect(u: Upg, e: KEvent, v: Upg)
    requires e.FileAccess?
  {
    var at := Find(u.eng.procs, e.cookie);
    if at.Some? && u.eng.procs[at.value].flags.upgrade && e.write && e.path.Some? && e.hasSum && u.tree.Some? then
      && v.tree.Some? && v == u.(tree := v.tree) && TreeOk(v.tree.value)
      && forall path :: FileTree.CookieOf(v.tree.value, path) ==
           var before := FileTree.CookieOf(u.tree.value, path);
           if path != e.path.value then before
           else if u.eng.procs[at.value].flags.parent || e.cookie == 0 then Some(0)
           else if before.None? then Some(e.cookie)
           else before
    else v == u
  }

  lemma FileHasEffect(u: Upg, e: KEvent)
    requires Upgrade.Inv(u) && e.FileAccess?
    ensures FileEffect(u, e, Touched(u, e))
  {
    hide Find;
    hide TreeOk;
    hide Upgrade.Inv;
    TreeIsOk(u);
    var p := Get(u.eng.procs, e.cookie);
    if p.Some? && e.path.Some? && u.tree.Some? {
      var cookie := if p.value.flags.parent then 0 else e.cookie;
      InsertTreeOk(u.tree.value, e.path.value, cookie);
      forall path ensures FileTree.CookieOf(FileTree.Insert(u.tree.value, e.path.value, cookie), path) ==
                          if path != e.path.value then FileTree.CookieOf(u.tree.value, path)
                          else if cookie == 0 || FileTree.CookieOf(u.tree.value, path).None? then Some(cookie)
                          else FileTree.CookieOf(u.tree.value, path) {
        TreeSorted(u.tree.value);
        FileTree.InsertCookie(u.tree.value, e.path.value, cookie, path);
      }
    }
    hide FileTree.Insert;
    hide FileTree.CookieOf;
  }

  lemma TreeSorted(t: Tree)
    requires TreeOk(t)
    ensures FileTree.Sorted(t)
  {
  }

  // ------------------------------------------------------------------ all events

  /** Process tracking handles the event and leaves the upgrade alone. */
  function Tracked(u: Upg, e: Event, env: Env): Upg {
    u.(eng := Step(u.eng, e, env))
  }

  /** An exit may end an upgrade, and the triggering exec of root begins one: by then the process is tracked. */
  ghost predicate ProcessEffect(u: Upg, e: Event, trigger: bool, env: Env, v: Upg) {
    match e
    case ExitEv(cookie) => ExitEffect(u, cookie, v)
    case ReplaceEv(gains, loses) => ExitEffect(Upgrade.Put(u, AddInstance(u.eng.procs, gains)), loses, v)
    case ExecEv(cookie, uid, _, _, _) =>
      var w := Tracked(u, e, env);
      if trigger && uid == 0 then
        var at := Find(w.eng.procs, cookie);
        at.Some? && Begins(w, v, at.value)
      else v == w
    case _ => v == Tracked(u, e, env)
  }

  lemma ExecTracks(s: Engine, e: Event, env: Env)
    requires e.ExecEv?
    ensures Find(Step(s, e, env).procs, e.cookie).Some?
  {
    Effects.ExecEffect(s, e, env);
    hide Step;
    hide Find;
  }

  lemma ProcessHasEffect(u: Upg, e: Event, trigger: bool, env: Env)
    requires Upgrade.Inv(u)
    ensures ProcessEffect(u, e, trigger, env, ProcessEvent(u, e, trigger, env))
  {
    hide Upgrade.Inv;
    hide Step;
    hide Find;
    hide AddInstance;
    hide Exit;
    hide Start;
    hide ExitEffect;
    hide Begins;
    match e {
      case ExitEv(cookie) => ExitHasEffect(u, cookie);
      case ReplaceEv(gains, loses) =>
        InstanceContinues(u.eng.procs, gains);
        var w := Upgrade.Put(u, AddInstance(u.eng.procs, gains));
        ContinuesInv(u, w);
        ExitHasEffect(w, loses);
      case ExecEv(cookie, _, _, _, _) =>
        ExecTracks(u.eng, e, env);
        var w := Tracked(u, e, env);
        StartBegins(w, Find(w.eng.procs, cookie).value);
      case _ =>
    }
  }

  /** What the beginning of a thread does */
  predicate AddThreadEffect(u: Upg, cookie: Cookie, v: Upg) {
    var w := u.(tracking := true);
    var at := Find(u.eng.procs, cookie);
    if at.None? then v == w
    else
      var p := u.eng.procs[at.value];
      v == Upgrade.Put(w, With(u.eng.procs, at.value, p.(threads := p.threads + 1)))
  }

  /**
   * The effect of every kernel event on the upgrade: exits, ends of threads and unlocks may end it,
   * locks and triggering execs may begin it, writes are recorded, and nothing else touches it.
   */
  ghost predicate Effect(u: Upg, e: KEvent, env: Env, v: Upg) {
    match e
    case Process(event, trigger) => ProcessEffect(u, event, trigger, env, v)
    case AddThread(cookie) => AddThreadEffect(u, cookie, v)
    case RemoveThread(cookie) => ThreadEffect(u, cookie, v)
    case FileAccess(cookie, uid, ident, _, _, _) => FileEffect(Tracked(u, OpenEv(cookie, uid, ident), env), e, v)
    case PathEvent(_, _, _, _) => PathEffect(u, e, v)
  }

  lemma HandleEffect(u: Upg, e: KEvent, env: Env)
    requires Upgrade.Inv(u)
    ensures Effect(u.(started := false), e, env, Handle(u, e, env))
  {
    var v := u.(started := false);
    assert Upgrade.Inv(v);
    hide Upgrade.Inv;
    hide Step;
    hide ProcessEvent;
    hide ThreadRemoved;
    hide Touched;
    hide PathHandled;
    hide ProcessEffect;
    hide ThreadEffect;
    hide FileEffect;
    hide PathEffect;
    hide Find;
    match e {
      case Process(event, trigger) => ProcessHasEffect(v, event, trigger, env);
      case AddThread(_) =>
      case RemoveThread(cookie) => ThreadHasEffect(v, cookie);
      case FileAccess(cookie, uid, ident, _, _, _) =>
        StepContinues(v.eng, OpenEv(cookie, uid, ident), env);
        ContinuesInv(v, Tracked(v, OpenEv(cookie, uid, ident), env));
        FileHasEffect(Tracked(v, OpenEv(cookie, uid, ident), env), e);
      case PathEvent(_, _, _, _) => PathHasEffect(v, e);
    }
  }

  /**
   * In strict mode the unlock by root of a parent takes it from the count. The last one ends the upgrade:
   * its files are sent off at once, all marks are gone, and the tree has exactly the files that are kept.
   * After any other only the marks of that process are gone.
   */
  lemma UnlockEnds(u: Upg, e: KEvent, env: Env, k: nat)
    requires Upgrade.Inv(u) && e.PathEvent? && e.op.Unlock? && e.uid == 0 && e.mode.StrictLock?
    requires Find(u.eng.procs, e.cookie) == Some(k) && u.eng.procs[k].flags.parent
    ensures var v := Handle(u, e, env); var rest := u.eng.procs[k := Unmarked(u.eng.procs[k])];
      && v.counter == u.counter - 1 && |v.eng.procs| == |u.eng.procs|
      && (u.counter == 1 ==>
            && v.started && Pending(v)
            && (forall j | 0 <= j < |rest| :: v.eng.procs[j] == Unmarked(u.eng.procs[j]))
            && forall n :: n in v.tree.value
                           <==> n in u.tree.value && (n.cookie == 0 || !Runs(rest, u.tracking, n.cookie)))
      && (u.counter != 1 ==> !v.started && v.tree == u.tree && v.eng.procs == rest)
  {
    hide Upgrade.Inv;
    hide Handle;
    hide Runs;
    hide TreeOk;
    HandleEffect(u, e, env);
  }
}

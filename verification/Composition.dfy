/**
 * Process tracking on the heap (Tracker.dfy) and upgrades (UpgradeEngine.dfy) side by side:
 * an upgrade changes nothing of a tracked process but its marks and threads, so both
 * parts agree about everything else after every kernel event.
 */
module Composition {
  import opened Basics
  import Policy
  import opened Contexts
  import opened Processes
  import opened Upgrade
  import FileTree
  import Tracker
  import UpgradeEngine

  /** A process without its upgrade marks and its number of threads */
  function Bare(p: Proc): Proc {
    p.(threads := 0, flags := Flags(false, false, false, p.flags.secure))
  }

  ghost predicate Alike(a: seq<Proc>, b: seq<Proc>) {
    |a| == |b| && forall k | 0 <= k < |a| :: Bare(a[k]) == Bare(b[k])
  }

  /** The same processes up to marks and threads, and the same policy */
  ghost predicate Agree(s: Engine, t: Engine) {
    s.db == t.db && Alike(s.procs, t.procs)
  }

  // ------------------------------------------------------------------ process tracking ignores marks

  lemma FindAlike(a: seq<Proc>, b: seq<Proc>, cookie: Cookie)
    requires Alike(a, b)
    ensures Find(a, cookie) == Find(b, cookie)
  {
    assert forall k | 0 <= k < |a| :: a[k].cookie == Bare(a[k]).cookie == Bare(b[k]).cookie == b[k].cookie;
  }

  lemma GetAlike(a: seq<Proc>, b: seq<Proc>, cookie: Cookie)
    requires Alike(a, b)
    ensures Get(a, cookie).Some? <==> Get(b, cookie).Some?
    ensures Get(a, cookie).Some? ==> Bare(Get(a, cookie).value) == Bare(Get(b, cookie).value)
  {
    FindAlike(a, b, cookie);
    hide Find;
    hide Bare;
  }

  lemma PutAlike(a: seq<Proc>, b: seq<Proc>, cookie: Cookie, p: Proc, q: Proc)
    requires Alike(a, b) && Bare(p) == Bare(q)
    ensures Alike(Processes.Put(a, cookie, p), Processes.Put(b, cookie, q))
  {
    FindAlike(a, b, cookie);
    hide Find;
    hide Bare;
  }

  lemma PushAlike(a: seq<Proc>, b: seq<Proc>, p: Proc, q: Proc)
    requires Alike(a, b) && Bare(p) == Bare(q)
    ensures Alike(a + [p], b + [q])
  {
    hide Bare;
  }

  lemma ExitAlike(a: seq<Proc>, b: seq<Proc>, cookie: Cookie)
    requires Alike(a, b)
    ensures Alike(ExitProc(a, cookie), ExitProc(b, cookie))
  {
    FindAlike(a, b, cookie);
    hide Find;
    if Find(a, cookie).Some? {
      var k := Find(a, cookie).value;
      assert Bare(a[k]) == Bare(b[k]);
    }
  }

  lemma AddAlike(a: seq<Proc>, b: seq<Proc>, cookie: Cookie)
    requires Alike(a, b)
    ensures Alike(AddInstance(a, cookie), AddInstance(b, cookie))
  {
    FindAlike(a, b, cookie);
    hide Find;
    if Find(a, cookie).Some? {
      var k := Find(a, cookie).value;
      assert Bare(a[k]) == Bare(b[k]);
    }
  }

  lemma ChildAlike(p: Option<Proc>, q: Option<Proc>, s: Engine, uid: Uid, cookie: Cookie, pgid: Cookie, env: Env)
    requires p.Some? <==> q.Some?
    requires p.Some? ==> Bare(p.value) == Bare(q.value)
    ensures Bare(Child(p, s.db, uid, cookie, pgid, env)) == Bare(Child(q, s.db, uid, cookie, pgid, env))
  {
    hide Fork;
    if p.Some? {
      assert Bare(p.value).ident == p.value.ident && Bare(q.value).ident == q.value.ident;
      assert Bare(p.value).uid == p.value.uid && Bare(q.value).uid == q.value.uid;
      assert Bare(p.value).prio == p.value.prio && Bare(q.value).prio == q.value.prio;
      assert Bare(p.value).flags == Bare(q.value).flags;
    }
  }

  lemma SameBare(p: Proc, q: Proc)
    requires Bare(p) == Bare(q)
    ensures p == q.(threads := p.threads, flags := p.flags) && p.flags.secure == q.flags.secure
  {
    assert Bare(p).flags == Bare(q).flags;
  }

  lemma ForkExecAgrees(s: Engine, t: Engine, e: Event, env: Env)
    requires Agree(s, t) && (e.ForkEv? || e.ExecEv?)
    ensures Agree(Step(s, e, env), Step(t, e, env))
  {
    hide Find;
    hide Execute;
    hide OpenFile;
    hide BorrowFrom;
    hide Restore;
    hide Refresh;
    hide ExitProc;
    hide AddInstance;
    hide Processes.Put;
    hide Get;
    match e {
      case ForkEv(uid, child, parent, pgid) =>
        GetAlike(s.procs, t.procs, parent);
        var p, q := Get(s.procs, parent), Get(t.procs, parent);
        ChildAlike(p, q, s, uid, child, pgid, env);
        PushAlike(s.procs, t.procs, Child(p, s.db, uid, child, pgid, env), Child(q, s.db, uid, child, pgid, env));
      case ExecEv(cookie, uid, ident, pgid, secure) =>
        FindAlike(s.procs, t.procs, cookie);
        var added := NewProc(uid, cookie, NO_IDENT, pgid);
        PushAlike(s.procs, t.procs, added, added);
        var a, b := EnsureTracked(s.procs, uid, cookie, pgid), EnsureTracked(t.procs, uid, cookie, pgid);
        GetAlike(a, b, cookie);
        if Get(a, cookie).Some? {
          var p, q := Get(a, cookie).value, Get(b, cookie).value;
          SameBare(p, q);
          PutAlike(a, b, cookie, ExecProc(p, s.db, uid, ident, secure, env),
              ExecProc(q, s.db, uid, ident, secure, env));
        }
    }
  }

  lemma OthersAgree(s: Engine, t: Engine, e: Event, env: Env)
    requires Agree(s, t) && (e.OpenEv? || e.ConnectEv? || e.DisconnectEv? || e.PlaygroundEv?)
    ensures Agree(Step(s, e, env), Step(t, e, env))
  {
    hide Find;
    hide Execute;
    hide OpenFile;
    hide BorrowFrom;
    hide Restore;
    hide Refresh;
    hide ExitProc;
    hide AddInstance;
    hide Processes.Put;
    hide Get;
    match e {
      case OpenEv(cookie, uid, ident) =>
        GetAlike(s.procs, t.procs, cookie);
        if Get(s.procs, cookie).Some? {
          var p, q := Get(s.procs, cookie).value, Get(t.procs, cookie).value;
          SameBare(p, q);
          PutAlike(s.procs, t.procs, cookie, ContextOpen(p, s.db, uid, ident, env),
              ContextOpen(q, s.db, uid, ident, env));
        }
      case ConnectEv(source, dest, conn) =>
        GetAlike(s.procs, t.procs, source);
        GetAlike(s.procs, t.procs, dest);
        if Get(s.procs, source).Some? && Get(s.procs, dest).Some? {
          var p, q := Get(s.procs, dest).value, Get(t.procs, dest).value;
          var l, m := Get(s.procs, source).value, Get(t.procs, source).value;
          SameBare(p, q);
          SameBare(l, m);
          PutAlike(s.procs, t.procs, dest, ContextBorrow(p, l, s.db, conn, env), ContextBorrow(q, m, s.db, conn, env));
        }
      case DisconnectEv(source, conn) =>
        GetAlike(s.procs, t.procs, source);
        if Get(s.procs, source).Some? {
          var p, q := Get(s.procs, source).value, Get(t.procs, source).value;
          SameBare(p, q);
          PutAlike(s.procs, t.procs, source, ContextRestore(p, conn), ContextRestore(q, conn));
        }
      case PlaygroundEv(cookie, pgid) =>
        GetAlike(s.procs, t.procs, cookie);
        if Get(s.procs, cookie).Some? {
          var p, q := Get(s.procs, cookie).value, Get(t.procs, cookie).value;
          SameBare(p, q);
          PutAlike(s.procs, t.procs, cookie, RefreshBoth(p.(pgid := pgid), s.db, env),
                   RefreshBoth(q.(pgid := pgid), s.db, env));
        }
    }
  }

  lemma PolicyAgrees(s: Engine, t: Engine, e: Event, env: Env)
    requires Agree(s, t) && (e.InsertEv? || e.ReconfigureEv?)
    ensures Agree(Step(s, e, env), Step(t, e, env))
  {
    hide Find;
    hide Execute;
    hide OpenFile;
    hide BorrowFrom;
    hide Restore;
    hide Refresh;
    hide ExitProc;
    hide AddInstance;
    hide Processes.Put;
    hide Get;
    match e {
      case InsertEv(rs, uid, prio) =>
        var db, old' := Policy.Insert(s.db, rs, uid, prio), Policy.OwnRuleset(s.db, uid, prio);
        forall k | 0 <= k < |s.procs|
          ensures Bare(UpdateOne(s.procs[k], db, old', prio, uid, env))
                  == Bare(UpdateOne(t.procs[k], db, old', prio, uid, env))
        {
          SameBare(s.procs[k], t.procs[k]);
        }
      case ReconfigureEv(db) =>
        forall k | 0 <= k < |s.procs|
          ensures Bare(RefreshBoth(s.procs[k], db, env)) == Bare(RefreshBoth(t.procs[k], db, env))
        {
          SameBare(s.procs[k], t.procs[k]);
        }
    }
  }

  /** Process tracking reads no marks and no thread counts. */
  lemma StepAgrees(s: Engine, t: Engine, e: Event, env: Env)
    requires Agree(s, t)
    ensures Agree(Step(s, e, env), Step(t, e, env))
  {
    match e {
      case ForkEv(_, _, _, _) => ForkExecAgrees(s, t, e, env);
      case ExecEv(_, _, _, _, _) => ForkExecAgrees(s, t, e, env);
      case ExitEv(cookie) => ExitAlike(s.procs, t.procs, cookie);
      case ReplaceEv(gains, loses) =>
        AddAlike(s.procs, t.procs, gains);
        ExitAlike(AddInstance(s.procs, gains), AddInstance(t.procs, gains), loses);
      case OpenEv(_, _, _) => OthersAgree(s, t, e, env);
      case ConnectEv(_, _, _) => OthersAgree(s, t, e, env);
      case DisconnectEv(_, _) => OthersAgree(s, t, e, env);
      case PlaygroundEv(_, _) => OthersAgree(s, t, e, env);
      case InsertEv(_, _, _) => PolicyAgrees(s, t, e, env);
      case ReconfigureEv(_) => PolicyAgrees(s, t, e, env);
    }
  }

  // ------------------------------------------------------------------ upgrades only change marks

  /** What an event means for process tracking alone */
  function TrackStep(s: Engine, e: KEvent, env: Env): Engine {
    match e
    case Process(event, _) => Step(s, event, env)
    case FileAccess(cookie, uid, ident, _, _, _) => Step(s, OpenEv(cookie, uid, ident), env)
    case _ => s
  }

  lemma AgreeTwice(s: Engine, t: Engine, u: Engine)
    requires Agree(s, t) && Agree(t, u)
    ensures Agree(s, u)
  {
    hide Bare;
  }

  lemma StartMarks(u: Upg, at: Option<nat>)
    requires at.Some? ==> at.value < |u.eng.procs|
    ensures Agree(Start(u, at).eng, u.eng)
  {
  }

  lemma EndParentMarks(u: Upg, parent: bool)
    ensures Agree(EndParent(u, parent).eng, u.eng)
  {
    hide Prune;
  }

  lemma EndMarks(u: Upg, k: nat)
    requires k < |u.eng.procs|
    ensures Agree(End(u, k).eng, u.eng)
  {
    hide EndParent;
    var f := u.eng.procs[k].flags;
    var v := Upgrade.Put(u, SetFlags(u.eng.procs, k, f.(upgrade := false, parent := false)));
    EndParentMarks(v, f.parent);
    AgreeTwice(End(u, k).eng, v.eng, u.eng);
  }

  lemma ExitMarks(u: Upg, cookie: Cookie)
    ensures Agree(Exit(u, cookie).eng, u.eng.(procs := ExitProc(u.eng.procs, cookie)))
  {
    hide EndParent;
    hide ExitProc;
    hide Find;
    var k := Find(u.eng.procs, cookie);
    if k.Some? {
      EndParentMarks(Upgrade.Put(u, ExitProc(u.eng.procs, cookie)), u.eng.procs[k.value].flags.parent);
    }
  }

  lemma ProcessMarks(u: Upg, e: Event, trigger: bool, env: Env)
    ensures Agree(ProcessEvent(u, e, trigger, env).eng, Step(u.eng, e, env))
  {
    hide Start;
    hide Exit;
    hide Find;
    match e {
      case ExitEv(cookie) => ExitMarks(u, cookie);
      case ReplaceEv(gains, loses) => ExitMarks(Upgrade.Put(u, AddInstance(u.eng.procs, gains)), loses);
      case ExecEv(cookie, _, _, _, _) =>
        var v := u.(eng := Step(u.eng, e, env));
        if Find(v.eng.procs, cookie).Some? { StartMarks(v, Find(v.eng.procs, cookie)); }
        hide Step;
      case _ =>
    }
  }

  lemma ThreadMarks(u: Upg, cookie: Cookie)
    ensures Agree(ThreadAdded(u, cookie).eng, u.eng) && Agree(ThreadRemoved(u, cookie).eng, u.eng)
  {
    hide End;
    hide Find;
    var at := Find(u.eng.procs, cookie);
    if at.Some? && u.eng.procs[at.value].threads > 0 {
      var v := u.(tracking := true);
      var w := SetThreads(v, at.value, u.eng.procs[at.value].threads - 1);
      EndMarks(w, at.value);
      AgreeTwice(End(w, at.value).eng, w.eng, u.eng);
    }
  }

  lemma PathMarks(u: Upg, e: KEvent)
    requires e.PathEvent?
    ensures Agree(PathHandled(u, e).eng, u.eng)
  {
    hide Start;
    hide End;
    hide Find;
    var at := Find(u.eng.procs, e.cookie);
    StartMarks(u, at);
    if at.Some? { EndMarks(u, at.value); }
  }

  /** Whatever an event means for upgrades, process tracking does the same as without them. */
  lemma HandleMarks(u: Upg, e: KEvent, env: Env)
    ensures Agree(Handle(u, e, env).eng, TrackStep(u.eng, e, env))
  {
    hide ProcessEvent;
    hide ThreadAdded;
    hide ThreadRemoved;
    hide PathHandled;
    hide Step;
    var v := u.(started := false);
    match e {
      case Process(event, trigger) => ProcessMarks(v, event, trigger, env);
      case AddThread(cookie) => ThreadMarks(v, cookie);
      case RemoveThread(cookie) => ThreadMarks(v, cookie);
      case FileAccess(_, _, _, _, _, _) =>
      case PathEvent(_, _, _, _) => PathMarks(v, e);
    }
  }

  lemma {:induction false} ReleaseMarks(u: Upg, k: nat)
    requires k <= |u.eng.procs|
    ensures Agree(Release(u, k).eng, u.eng)
    decreases |u.eng.procs| - k
  {
    hide Start;
    hide Bare;
    if k < |u.eng.procs| {
      if !u.eng.procs[k].flags.hold {
        ReleaseMarks(u, k + 1);
      } else {
        var v := Upgrade.Put(u, SetFlags(u.eng.procs, k, u.eng.procs[k].flags.(hold := false)));
        OneMark(u, k, u.eng.procs[k].flags.(hold := false));
        StartMarks(v, Some(k));
        ReleaseMarks(Start(v, Some(k)), k + 1);
        AgreeTwice(Start(v, Some(k)).eng, v.eng, u.eng);
        AgreeTwice(Release(u, k).eng, Start(v, Some(k)).eng, u.eng);
      }
    }
  }

  lemma OneMark(u: Upg, k: nat, f: Flags)
    requires k < |u.eng.procs| && f.secure == u.eng.procs[k].flags.secure
    ensures Agree(Upgrade.Put(u, SetFlags(u.eng.procs, k, f)).eng, u.eng)
  {
  }

  lemma CompleteMarks(u: Upg)
    ensures Agree(Complete(u).eng, u.eng)
  {
    ReleaseMarks(u.(tree := None, iter := None), 0);
    hide Release;
  }

  lemma TrackAgrees(s: Engine, u: Upg, e: KEvent, env: Env)
    requires Agree(s, u.eng)
    ensures Agree(TrackStep(s, e, env), Handle(u, e, env).eng)
  {
    hide Agree;
    hide Handle;
    hide Step;
    TrackStepAgrees(s, u.eng, e, env);
    HandleMarks(u, e, env);
    AgreeBack(Handle(u, e, env).eng, TrackStep(u.eng, e, env));
    AgreeTwice(TrackStep(s, e, env), TrackStep(u.eng, e, env), Handle(u, e, env).eng);
  }

  lemma TrackStepAgrees(s: Engine, t: Engine, e: KEvent, env: Env)
    requires Agree(s, t)
    ensures Agree(TrackStep(s, e, env), TrackStep(t, e, env))
  {
    hide Step;
    hide Agree;
    match e {
      case Process(event, _) => StepAgrees(s, t, event, env);
      case FileAccess(cookie, uid, ident, _, _, _) => StepAgrees(s, t, OpenEv(cookie, uid, ident), env);
      case _ =>
    }
  }

  lemma AgreeBack(s: Engine, t: Engine)
    requires Agree(s, t)
    ensures Agree(t, s)
  {
    hide Bare;
  }

  lemma TrackIs(s: Engine, e: KEvent, env: Env)
    ensures TrackStep(s, e, env) ==
            match e
            case Process(event, _) => Step(s, event, env)
            case FileAccess(cookie, uid, ident, _, _, _) => Step(s, OpenEv(cookie, uid, ident), env)
            case _ => s
  {
  }

  lemma EngineOf(upg: UpgradeEngine.PolicyProcess)
    ensures upg.State().eng == upg.eng
  {
  }

  /**
   * policy_engine for one kernel event on the heap and on the state of upgrades: both parts
   * take their own step and still agree about the tracked processes.
   */
  method HandleBoth(heap: Tracker.PolicyEngine, upg: UpgradeEngine.PolicyProcess, e: KEvent, env: Env)
    requires heap.Calm(multiset{}) && Tracker.Shapes(heap.tracker) && Agree(heap.State(), upg.eng)
    modifies heap, heap.procs, heap.ctxs, upg
    ensures heap.Calm(multiset{}) && fresh(heap.procs - old(heap.procs)) && fresh(heap.ctxs - old(heap.ctxs))
    ensures Tracker.Shapes(heap.tracker) && heap.State() == TrackStep(old(heap.State()), e, env)
    ensures upg.State() == Handle(old(upg.State()), e, env)
    ensures Agree(heap.State(), upg.eng)
  {
    hide *;
    ghost var s, u := heap.State(), upg.State();
    EngineOf(upg);
    TrackAgrees(s, u, e, env);
    TrackIs(s, e, env);
    match e {
      case Process(event, _) => heap.Handle(event, env);
      case FileAccess(cookie, uid, ident, _, _, _) => heap.Handle(OpenEv(cookie, uid, ident), env);
      case _ =>
    }
    heap.CalmShapes(multiset{});
    upg.HandleEvent(e, env);
    EngineOf(upg);
  }
}

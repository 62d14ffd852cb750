/**
 * Process tracking and policy reload on values (pe_proc.c, pe_user.c, pe_ipc.c and
 * the event handlers of pe.c), and the ruleset invariant over all runs.
 */
module Processes {
  import opened Basics
  import opened Policy
  import opened Contexts

  datatype Flags = Flags(upgrade: bool, parent: bool, hold: bool, secure: bool)

  const NO_FLAGS := Flags(false, false, false, false)

  /** struct pe_proc without list links and reference count. */
  datatype ProcRec = Proc(cookie: Cookie, uid: Uid, pgid: Cookie, ident: Ident, instances: int, threads: int,
                       flags: Flags, prio: seq<PrioCtx>)

  const NO_CTX := PrioCtx(None, None, 0)

  type Proc = p: ProcRec | |p.prio| == PRIOS witness Proc(0, 0, 0, NO_IDENT, 0, 0, NO_FLAGS, [NO_CTX, NO_CTX])

  /** pe_proc_alloc followed by pe_proc_track */
  function NewProc(uid: Uid, cookie: Cookie, ident: Ident, pgid: Cookie): Proc {
    Proc(cookie, uid, pgid, ident, 1, 0, NO_FLAGS, [NO_CTX, NO_CTX])
  }

  /** The list walk of pe_proc_get: the index of the first process with the cookie. */
  function Find(procs: seq<Proc>, cookie: Cookie): (r: Option<nat>)
    ensures r.Some? ==> r.value < |procs| && procs[r.value].cookie == cookie
                        && forall k | 0 <= k < r.value :: procs[k].cookie != cookie
    ensures r.None? ==> forall k | 0 <= k < |procs| :: procs[k].cookie != cookie
    decreases |procs|
  {
    if procs == [] then None
    else
      var n := |procs| - 1;
      var f := Find(procs[..n], cookie);
      if f.Some? then f else if procs[n].cookie == cookie then Some(n) else None
  }

  lemma FindAppended(procs: seq<Proc>, p: Proc)
    requires Find(procs, p.cookie).None?
    ensures Find(procs + [p], p.cookie) == Some(|procs|)
  {
    assert (procs + [p])[..|procs|] == procs;
  }

  // ------------------------------------------------------------------ one process

  /** The update of both priorities of a process by f. */
  function BothPrios(f: Prio -> PrioCtx): (r: seq<PrioCtx>)
    ensures |r| == PRIOS && r[0] == f(0) && r[1] == f(1)
  {
    [f(0), f(1)]
  }

  function InPlayground(p: Proc): bool {
    p.pgid != 0
  }

  /** pe_context_exec, including the change of the uid. */
  function ContextExec(p: Proc, db: Db, uid: Uid, ident: Ident, env: Env): (r: Proc)
  {
    p.(prio := BothPrios((i: Prio) =>
                 Execute(p.prio[i], p.uid, GetRuleset(db, uid, i), ident, uid, InPlayground(p), env)),
       uid := if uid == NO_UID then p.uid else uid)
  }

  /** pe_context_open */
  function ContextOpen(p: Proc, db: Db, uid: Uid, ident: Ident, env: Env): (r: Proc)
  {
    p.(prio := BothPrios((i: Prio) =>
                 OpenFile(p.prio[i], p.uid, GetRuleset(db, uid, i), ident, uid, InPlayground(p), env)))
  }

  /** pe_context_borrow: p borrows from q. */
  function ContextBorrow(p: Proc, q: Proc, db: Db, cookie: Cookie, env: Env): (r: Proc)
  {
    p.(prio := BothPrios((i: Prio) =>
                 BorrowFrom(p.prio[i], q.prio[i].cur, q.uid, p.uid, GetRuleset(db, p.uid, i), cookie,
                            InPlayground(p), env)))
  }

  /** pe_context_restore */
  function ContextRestore(p: Proc, cookie: Cookie): (r: Proc)
  {
    p.(prio := BothPrios((i: Prio) => Restore(p.prio[i], cookie)))
  }

  /** pe_context_refresh of one priority */
  function RefreshPrio(p: Proc, db: Db, i: Prio, env: Env): (r: Proc)
  {
    p.(prio := p.prio[i := Refresh(p.prio[i], GetRuleset(db, p.uid, i), p.ident, p.uid, InPlayground(p), env)])
  }

  /** The loop body of pe_proc_update_db */
  function RefreshBoth(p: Proc, db: Db, env: Env): (r: Proc)
  {
    RefreshPrio(RefreshPrio(p, db, 0, env), db, 1, env)
  }

  /** The loop body of pe_proc_update_db_one */
  function UpdateOne(p: Proc, db: Db, oldrs: Option<Ruleset>, i: Prio, uid: Uid, env: Env): (r: Proc)
  {
    if p.prio[i].cur.Some? && (UsesRs(p.prio[i].cur.value, oldrs) || (oldrs.None? && p.uid == uid))
    then RefreshPrio(p, db, i, env)
    else p
  }

  /** The child of pe_proc_fork. */
  function Child(parent: Option<Proc>, db: Db, uid: Uid, cookie: Cookie, pgid: Cookie, env: Env): (r: Proc)
  {
    var ident := if parent.Some? then parent.value.ident else NO_IDENT;
    var p := NewProc(uid, cookie, ident, pgid);
    p.(prio := BothPrios((i: Prio) =>
                 var inherited := if parent.Some? && parent.value.uid == uid then parent.value.prio[i].cur else None;
                 Fork(inherited, GetRuleset(db, uid, i), ident, uid, pgid != 0, env)),
       flags := Flags(parent.Some? && parent.value.flags.upgrade, false, false,
                      parent.Some? && parent.value.flags.secure))
  }

  // ------------------------------------------------------------------ the machine

  datatype Engine = Engine(procs: seq<Proc>, db: Db)

  datatype Event =
    | ForkEv(uid: Uid, child: Cookie, parent: Cookie, pgid: Cookie)
    | ExecEv(cookie: Cookie, uid: Uid, ident: Ident, pgid: Cookie, secure: bool)
    | ExitEv(cookie: Cookie)
    | ReplaceEv(gains: Cookie, loses: Cookie)
    | OpenEv(cookie: Cookie, uid: Uid, ident: Ident)
    | ConnectEv(source: Cookie, dest: Cookie, conn: Cookie)
    | DisconnectEv(source: Cookie, conn: Cookie)
    | PlaygroundEv(cookie: Cookie, pgid: Cookie)
    | InsertEv(rs: Ruleset, uid: Uid, prio: Prio)
    | ReconfigureEv(db: Db)

  function Get(procs: seq<Proc>, cookie: Cookie): (r: Option<Proc>)
    ensures r.Some? ==> r.value in procs && r.value.cookie == cookie
    ensures r.Some? <==> Find(procs, cookie).Some?
  {
    match Find(procs, cookie)
    case None => None
    case Some(k) => Some(procs[k])
  }

  /** The list after the fields of the first process with the cookie changed to those of q. */
  function Put(procs: seq<Proc>, cookie: Cookie, q: Proc): (r: seq<Proc>)
    ensures |r| == |procs|
  {
    match Find(procs, cookie)
    case None => procs
    case Some(k) => procs[k := q]
  }

  /** pe_proc_update_db */
  function RefreshAll(procs: seq<Proc>, db: Db, env: Env): (r: seq<Proc>)
    ensures |r| == |procs| && forall k | 0 <= k < |procs| :: r[k] == RefreshBoth(procs[k], db, env)
  {
    seq(|procs|, k requires 0 <= k < |procs| => RefreshBoth(procs[k], db, env))
  }

  /** pe_proc_update_db_one */
  function UpdateAllOne(procs: seq<Proc>, db: Db, oldrs: Option<Ruleset>, prio: Prio, uid: Uid,
                        env: Env): (r: seq<Proc>)
    ensures |r| == |procs| && forall k | 0 <= k < |procs| :: r[k] == UpdateOne(procs[k], db, oldrs, prio, uid, env)
  {
    seq(|procs|, k requires 0 <= k < |procs| => UpdateOne(procs[k], db, oldrs, prio, uid, env))
  }

  /** pe_proc_addinstance */
  function AddInstance(procs: seq<Proc>, cookie: Cookie): seq<Proc> {
    match Find(procs, cookie)
    case None => procs
    case Some(k) => procs[k := procs[k].(instances := procs[k].instances + 1)]
  }

  /** pe_proc_exit */
  function ExitProc(procs: seq<Proc>, cookie: Cookie): (r: seq<Proc>)
  {
    match Find(procs, cookie)
    case None => procs
    case Some(k) =>
      if procs[k].instances - 1 != 0 then procs[k := procs[k].(instances := procs[k].instances - 1)]
      else procs[..k] + procs[k + 1..]
  }

  /** pe_proc_exec starts tracking an untracked process. */
  function EnsureTracked(procs: seq<Proc>, uid: Uid, cookie: Cookie, pgid: Cookie): seq<Proc> {
    if Find(procs, cookie).Some? then procs else procs + [NewProc(uid, cookie, NO_IDENT, pgid)]
  }

  /** pe_proc_exec on the tracked process */
  function ExecProc(p: Proc, db: Db, uid: Uid, ident: Ident, secure: bool, env: Env): (r: Proc)
  {
    var q := ContextExec(p.(ident := ident), db, uid, ident, env);
    q.(flags := q.flags.(secure := secure))
  }

  function Step(s: Engine, e: Event, env: Env): Engine {
    match e
    case ForkEv(uid, child, parent, pgid) =>
      s.(procs := s.procs + [Child(Get(s.procs, parent), s.db, uid, child, pgid, env)])
    case ExecEv(cookie, uid, ident, pgid, secure) =>
      var procs := EnsureTracked(s.procs, uid, cookie, pgid);
      var p := Get(procs, cookie);
      if p.None? then s else s.(procs := Put(procs, cookie, ExecProc(p.value, s.db, uid, ident, secure, env)))
    case ExitEv(cookie) =>
      s.(procs := ExitProc(s.procs, cookie))
    case ReplaceEv(gains, loses) =>
      s.(procs := ExitProc(AddInstance(s.procs, gains), loses))
    case OpenEv(cookie, uid, ident) =>
      // pe_context_open returns early if the event carries no checksum.
      var p := Get(s.procs, cookie);
      if p.None? || ident.csum.None? then s
      else s.(procs := Put(s.procs, cookie, ContextOpen(p.value, s.db, uid, ident, env)))
    case ConnectEv(source, dest, conn) =>
      var q := Get(s.procs, source);
      var p := Get(s.procs, dest);
      if q.None? || p.None? then s
      else s.(procs := Put(s.procs, dest, ContextBorrow(p.value, q.value, s.db, conn, env)))
    case DisconnectEv(source, conn) =>
      var p := Get(s.procs, source);
      if p.None? then s else s.(procs := Put(s.procs, source, ContextRestore(p.value, conn)))
    case PlaygroundEv(cookie, pgid) =>
      var p := Get(s.procs, cookie);
      if p.None? then s else s.(procs := Put(s.procs, cookie, RefreshBoth(p.value.(pgid := pgid), s.db, env)))
    case InsertEv(rs, uid, prio) =>
      var db := Insert(s.db, rs, uid, prio);
      Engine(UpdateAllOne(s.procs, db, OwnRuleset(s.db, uid, prio), prio, uid, env), db)
    case ReconfigureEv(db) =>
      Engine(RefreshAll(s.procs, db, env), db)
  }

  // ------------------------------------------------------------------ the invariant

  ghost predicate ProcOk(p: Proc, db: Db) {
    forall i: Prio :: PrioOk(p.prio[i], GetRuleset(db, p.uid, i))
  }

  /** Every current and saved context belongs to the ruleset the database gives now, or to none. */
  ghost predicate Inv(s: Engine) {
    AllOk(s.procs, s.db)
  }

  /**
   * Whether the uid in an event agrees with process tracking. For an exec without a
   * uid and for an open under another uid, contexts are searched in the ruleset of a
   * uid that does not become the uid of the process.
   */
  ghost predicate UidFits(s: Engine, e: Event, env: Env)
  {
    match e
    case ExecEv(cookie, uid, _, _, _) =>
      (uid == NO_UID && Get(s.procs, cookie).Some?) ==>
        var p := Get(s.procs, cookie).value;
        p.uid == NO_UID || forall i: Prio :: RulesetFits(s.db, uid, p.uid, i)
    case OpenEv(cookie, uid, ident) =>
      (ident.csum.Some? && Get(s.procs, cookie).Some?) ==>
        var p := Get(s.procs, cookie).value;
        forall i: Prio ::
          Decide(p.prio[i].cur, p.uid, Open, ident, p.uid, env) ==> RulesetFits(s.db, uid, p.uid, i)
    case _ => true
  }

  ghost predicate RulesetFits(db: Db, searched: Uid, own: Uid, i: Prio)
  {
    GetRuleset(db, searched, i).None? || GetRuleset(db, searched, i) == GetRuleset(db, own, i)
  }

  lemma ChildOk(parent: Option<Proc>, db: Db, uid: Uid, cookie: Cookie, pgid: Cookie, env: Env)
    requires (parent.Some? ==> ProcOk(parent.value, db))
    ensures ProcOk(Child(parent, db, uid, cookie, pgid, env), db)
  {
    var c := Child(parent, db, uid, cookie, pgid, env);
    forall i: Prio
      ensures PrioOk(c.prio[i], GetRuleset(db, uid, i))
    {
      if parent.Some? {
        assert PrioOk(parent.value.prio[i], GetRuleset(db, parent.value.uid, i));
      }
    }
  }

  lemma ExecOk(p: Proc, db: Db, uid: Uid, ident: Ident, env: Env)
    requires ProcOk(p, db)
    ensures ProcOk(ContextExec(p, db, uid, ident, env), db) <==>
              (uid == NO_UID && p.uid != NO_UID ==> forall i: Prio :: RulesetFits(db, uid, p.uid, i))
  {
    var q := ContextExec(p, db, uid, ident, env);
    forall i: Prio
      ensures PrioOk(q.prio[i], GetRuleset(db, q.uid, i)) <==>
                (uid == NO_UID && p.uid != NO_UID ==> RulesetFits(db, uid, p.uid, i))
    {
      assert PrioOk(p.prio[i], GetRuleset(db, p.uid, i));
      if uid == NO_UID && p.uid != NO_UID {
        ForeignSwitch(p.prio[i], GetRuleset(db, p.uid, i), GetRuleset(db, uid, i), ident, uid, InPlayground(p), env);
      } else {
        ExecuteOk(p.prio[i], p.uid, GetRuleset(db, p.uid, i), GetRuleset(db, uid, i), ident, uid, InPlayground(p), env);
      }
    }
  }

  lemma OpenOk(p: Proc, db: Db, uid: Uid, ident: Ident, env: Env)
    requires ProcOk(p, db)
    ensures ProcOk(ContextOpen(p, db, uid, ident, env), db) <==>
              forall i: Prio :: Decide(p.prio[i].cur, p.uid, Open, ident, p.uid, env) ==> RulesetFits(db, uid, p.uid, i)
  {
    var q := ContextOpen(p, db, uid, ident, env);
    forall i: Prio
      ensures PrioOk(q.prio[i], GetRuleset(db, p.uid, i)) <==>
                (Decide(p.prio[i].cur, p.uid, Open, ident, p.uid, env) ==> RulesetFits(db, uid, p.uid, i))
    {
      assert PrioOk(p.prio[i], GetRuleset(db, p.uid, i));
      ForeignSwitch(p.prio[i], GetRuleset(db, p.uid, i), GetRuleset(db, uid, i), ident, uid, InPlayground(p), env);
    }
  }

  /** The insertion refreshes every process whose contexts could become stale. */
  lemma UpdateOneOk(p: Proc, db: Db, rs: Ruleset, uid: Uid, prio: Prio, env: Env)
    requires ProcOk(p, db)
    ensures ProcOk(UpdateOne(p, Insert(db, rs, uid, prio), OwnRuleset(db, uid, prio), prio, uid, env),
                   Insert(db, rs, uid, prio))
  {
    var db' := Insert(db, rs, uid, prio);
    var oldrs := OwnRuleset(db, uid, prio);
    var q := UpdateOne(p, db', oldrs, prio, uid, env);
    forall i: Prio
      ensures PrioOk(q.prio[i], GetRuleset(db', p.uid, i))
    {
      assert PrioOk(p.prio[i], GetRuleset(db, p.uid, i));
      InsertOwn(db, rs, uid, prio, p.uid, i);
      InsertOwn(db, rs, uid, prio, NO_UID, i);
      if i == prio {
        RefreshOk(p.prio[i], GetRuleset(db', p.uid, i), p.ident, p.uid, InPlayground(p), env);
      }
    }
  }

  lemma RefreshBothOk(p: Proc, db: Db, env: Env)
    requires forall i: Prio :: p.prio[i].saved.Some? ==> p.prio[i].cur.Some?
    ensures ProcOk(RefreshBoth(p, db, env), db)
  {
    var q := RefreshBoth(p, db, env);
    forall i: Prio
      ensures PrioOk(q.prio[i], GetRuleset(db, p.uid, i))
    {
      RefreshOk(p.prio[i], GetRuleset(db, p.uid, i), p.ident, p.uid, InPlayground(p), env);
    }
  }

  lemma SavedHasCurrent(p: Proc, db: Db)
    requires ProcOk(p, db)
    ensures forall i: Prio :: p.prio[i].saved.Some? ==> p.prio[i].cur.Some?
  {
    forall i: Prio
      ensures p.prio[i].saved.Some? ==> p.prio[i].cur.Some?
    {
      assert PrioOk(p.prio[i], GetRuleset(db, p.uid, i));
    }
  }

  lemma RestoreOk(p: Proc, db: Db, cookie: Cookie)
    requires ProcOk(p, db)
    ensures ProcOk(ContextRestore(p, cookie), db)
  {
    forall i: Prio
      ensures PrioOk(ContextRestore(p, cookie).prio[i], GetRuleset(db, p.uid, i))
    {
      assert PrioOk(p.prio[i], GetRuleset(db, p.uid, i));
    }
  }

  lemma ExitOk(procs: seq<Proc>, db: Db, cookie: Cookie)
    requires AllOk(procs, db)
    ensures AllOk(ExitProc(procs, cookie), db)
  {
  }

  lemma BorrowProcOk(p: Proc, q: Proc, db: Db, cookie: Cookie, env: Env)
    requires ProcOk(p, db)
    ensures ProcOk(ContextBorrow(p, q, db, cookie, env), db)
  {
    forall i: Prio
      ensures PrioOk(ContextBorrow(p, q, db, cookie, env).prio[i], GetRuleset(db, p.uid, i))
    {
      BorrowOk(p.prio[i], q.prio[i].cur, q.uid, p.uid, GetRuleset(db, p.uid, i), cookie, InPlayground(p), env);
    }
  }

  // ------------------------------------------------------------------ over all runs

  ghost predicate AllOk(procs: seq<Proc>, db: Db) {
    forall k | 0 <= k < |procs| :: ProcOk(procs[k], db)
  }

  /** Changing one process keeps the invariant exactly if its new value is good. */
  lemma PutOk(procs: seq<Proc>, db: Db, cookie: Cookie, q: Proc)
    requires AllOk(procs, db) && Find(procs, cookie).Some?
    ensures AllOk(Put(procs, cookie, q), db) <==> ProcOk(q, db)
  {
    assert Put(procs, cookie, q)[Find(procs, cookie).value] == q;
  }

  /** ProcOk reads only the uid and the contexts of a process. */
  lemma ProcOkFrame(p: Proc, q: Proc, db: Db)
    requires p.uid == q.uid && p.prio == q.prio
    ensures ProcOk(p, db) <==> ProcOk(q, db)
  {
  }

  lemma ExecStep(s: Engine, e: Event, env: Env)
    requires Inv(s) && e.ExecEv?
    ensures Inv(Step(s, e, env)) <==> UidFits(s, e, env)
  {
    var procs := EnsureTracked(s.procs, e.uid, e.cookie, e.pgid);
    assert AllOk(procs, s.db) by {
      assert ProcOk(NewProc(e.uid, e.cookie, NO_IDENT, e.pgid), s.db);
    }
    assert Find(procs, e.cookie).Some? by {
      if Find(s.procs, e.cookie).None? {
        assert procs[|s.procs|].cookie == e.cookie;
      }
    }
    var p := Get(procs, e.cookie).value;
    var q := ContextExec(p.(ident := e.ident), s.db, e.uid, e.ident, env);
    ProcOkFrame(p, p.(ident := e.ident), s.db);
    ExecOk(p.(ident := e.ident), s.db, e.uid, e.ident, env);
    ProcOkFrame(q, ExecProc(p, s.db, e.uid, e.ident, e.secure, env), s.db);
    PutOk(procs, s.db, e.cookie, ExecProc(p, s.db, e.uid, e.ident, e.secure, env));
  }

  lemma OpenStep(s: Engine, e: Event, env: Env)
    requires Inv(s) && e.OpenEv?
    ensures Inv(Step(s, e, env)) <==> UidFits(s, e, env)
  {
    var p := Get(s.procs, e.cookie);
    if p.Some? {
      OpenOk(p.value, s.db, e.uid, e.ident, env);
      PutOk(s.procs, s.db, e.cookie, ContextOpen(p.value, s.db, e.uid, e.ident, env));
    }
  }

  lemma PeerStep(s: Engine, e: Event, env: Env)
    requires Inv(s) && (e.ConnectEv? || e.DisconnectEv? || e.PlaygroundEv?)
    ensures Inv(Step(s, e, env))
  {
    match e {
      case ConnectEv(source, dest, conn) =>
        var q := Get(s.procs, source);
        var p := Get(s.procs, dest);
        if q.Some? && p.Some? {
          BorrowProcOk(p.value, q.value, s.db, conn, env);
          PutOk(s.procs, s.db, dest, ContextBorrow(p.value, q.value, s.db, conn, env));
        }
      case DisconnectEv(source, conn) =>
        var p := Get(s.procs, source);
        if p.Some? {
          RestoreOk(p.value, s.db, conn);
          PutOk(s.procs, s.db, source, ContextRestore(p.value, conn));
        }
      case PlaygroundEv(cookie, pgid) =>
        var p := Get(s.procs, cookie);
        if p.Some? {
          SavedHasCurrent(p.value, s.db);
          RefreshBothOk(p.value.(pgid := pgid), s.db, env);
          PutOk(s.procs, s.db, cookie, RefreshBoth(p.value.(pgid := pgid), s.db, env));
        }
    }
  }

  /** One event keeps the invariant exactly if its uid fits. */
  lemma StepKeepsRulesets(s: Engine, e: Event, env: Env)
    requires Inv(s)
    ensures Inv(Step(s, e, env)) <==> UidFits(s, e, env)
  {
    match e {
      case ForkEv(uid, child, parent, pgid) =>
        ChildOk(Get(s.procs, parent), s.db, uid, child, pgid, env);
      case ExecEv(_, _, _, _, _) =>
        ExecStep(s, e, env);
      case ExitEv(cookie) =>
        ExitOk(s.procs, s.db, cookie);
      case ReplaceEv(gains, loses) =>
        ExitOk(AddInstance(s.procs, gains), s.db, loses);
      case OpenEv(_, _, _) =>
        OpenStep(s, e, env);
      case ConnectEv(_, _, _) =>
        PeerStep(s, e, env);
      case DisconnectEv(_, _) =>
        PeerStep(s, e, env);
      case PlaygroundEv(_, _) =>
        PeerStep(s, e, env);
      case InsertEv(rs, uid, prio) =>
        forall k | 0 <= k < |s.procs|
          ensures ProcOk(Step(s, e, env).procs[k], Insert(s.db, rs, uid, prio))
        {
          UpdateOneOk(s.procs[k], s.db, rs, uid, prio, env);
        }
      case ReconfigureEv(db) =>
        forall k | 0 <= k < |s.procs|
          ensures ProcOk(Step(s, e, env).procs[k], db)
        {
          SavedHasCurrent(s.procs[k], s.db);
          RefreshBothOk(s.procs[k], db, env);
        }
    }
  }

  /** Two users with a ruleset each */
  function TwoUsers(a: Uid, mine: Ruleset, b: Uid, other: Ruleset): (r: Db)
    requires a != b && a != NO_UID && b != NO_UID
    ensures GetRuleset(r, a, 1) == Some(mine) && GetRuleset(r, b, 1) == Some(other) && GetRuleset(r, a, 0) == None
  {
    var users := [User(a, [None, Some(mine)]), User(b, [None, Some(other)])];
    assert users[0].uid == a && users[1].uid == b;
    users
  }

  lemma OneProcOk(p: Proc, db: Db, mine: Ruleset)
    requires GetRuleset(db, p.uid, 1) == Some(mine)
    requires p.prio[0] == NO_CTX && p.prio[1].saved.None? && p.prio[1].cur.Some?
             && CtxOk(p.prio[1].cur.value, Some(mine))
    ensures Inv(Engine([p], db)) && Get([p], p.cookie) == Some(p)
  {
  }

  /** The condition is needed: an open under the uid of another user leaves a foreign ruleset behind. */
  lemma ForeignOpenBreaks()
    ensures exists s: Engine, e: Event, env: Env :: Inv(s) && e.OpenEv? && !Inv(Step(s, e, env))
  {
    hide Step;
    hide Inv;
    hide GetRuleset;
    hide Get;
    var rule := CtxRule(true, Open, []);
    var block := Block(1, 1, false, false, false, [], [rule], []);
    var mine, other := Ruleset(2, [], [], [], [block]), Ruleset(3, [], [], [], []);
    var db := TwoUsers(1000, mine, 1001, other);
    var ident := Ident(None, Some([1]));
    var ctx := Ctx(Some(mine), None, None, Some(block), ident);
    var p: Proc := Proc(7, 1000, 0, ident, 1, 0, NO_FLAGS, [NO_CTX, PrioCtx(Some(ctx), None, 0)]);
    var s, e, env := Engine([p], db), OpenEv(7, 1001, ident), Env(map[], map[], map[]);
    OneProcOk(p, db, mine);
    var i: Prio := 1;
    assert RuleAllows(block.ctxRules[0], Open, ident, 1000, env);
    assert Decide(p.prio[i].cur, p.uid, Open, ident, p.uid, env) && !RulesetFits(db, 1001, 1000, i);
    StepKeepsRulesets(s, e, env);
  }

  function Run(s: Engine, events: seq<(Event, Env)>): Engine
    decreases |events|
  {
    if events == [] then s
    else
      var n := |events| - 1;
      Step(Run(s, events[..n]), events[n].0, events[n].1)
  }

  /** Every event of the run carries a uid that agrees with process tracking. */
  ghost predicate UidsFit(s: Engine, events: seq<(Event, Env)>) {
    forall k | 0 <= k < |events| :: UidFits(Run(s, events[..k]), events[k].0, events[k].1)
  }

  /** In every reachable state every context belongs to the active ruleset of its process and priority. */
  lemma {:induction false} RunKeepsRulesets(db: Db, events: seq<(Event, Env)>)
    requires UidsFit(Engine([], db), events)
    ensures Inv(Run(Engine([], db), events))
    decreases |events|
  {
    if events != [] {
      var n := |events| - 1;
      var s := Engine([], db);
      forall k | 0 <= k < n
        ensures UidFits(Run(s, events[..n][..k]), events[..n][k].0, events[..n][k].1)
      {
        assert events[..n][..k] == events[..k];
      }
      RunKeepsRulesets(db, events[..n]);
      StepKeepsRulesets(Run(s, events[..n]), events[n].0, events[n].1);
    }
  }

  // ------------------------------------------------------------- freed rulesets

  /** Some context of a tracked process, current or saved, points to the ruleset. */
  ghost predicate Referenced(procs: seq<Proc>, rs: Ruleset) {
    exists k, i: Prio :: 0 <= k < |procs| && PointsTo(procs[k].prio[i], rs)
  }

  ghost predicate PointsTo(s: PrioCtx, rs: Ruleset) {
    || (s.cur.Some? && s.cur.value.ruleset == Some(rs))
    || (s.saved.Some? && s.saved.value.ruleset == Some(rs))
  }

  lemma OnlyOwnedReferenced(s: Engine, rs: Ruleset)
    requires Inv(s) && Referenced(s.procs, rs)
    ensures Owns(s.db, rs)
  {
    var k, i: Prio :| 0 <= k < |s.procs| && PointsTo(s.procs[k].prio[i], rs);
    assert ProcOk(s.procs[k], s.db);
    assert PrioOk(s.procs[k].prio[i], GetRuleset(s.db, s.procs[k].uid, i));
  }

  /** pe_user_insert_rs may free the replaced ruleset: nothing points to it after the update. */
  lemma InsertLeavesNoStale(s: Engine, rs: Ruleset, uid: Uid, prio: Prio, env: Env)
    requires Inv(s) && DbDistinct(s.db) && !Owns(s.db, rs)
    ensures var t := Step(s, InsertEv(rs, uid, prio), env);
      && DbDistinct(t.db)
      && (OwnRuleset(s.db, uid, prio).Some? ==> !Referenced(t.procs, OwnRuleset(s.db, uid, prio).value))
  {
    var e := InsertEv(rs, uid, prio);
    var t := Step(s, e, env);
    StepKeepsRulesets(s, e, env);
    InsertDistinct(s.db, rs, uid, prio);
    if OwnRuleset(s.db, uid, prio).Some? {
      InsertDropsOld(s.db, rs, uid, prio);
      var oldrs := OwnRuleset(s.db, uid, prio).value;
      if Referenced(t.procs, oldrs) {
        OnlyOwnedReferenced(t, oldrs);
      }
    }
  }

  /** pe_user_reconfigure may flush the old database: only rulesets of the new one are referenced. */
  lemma ReconfigureLeavesNoStale(s: Engine, db: Db, rs: Ruleset, env: Env)
    requires Inv(s) && Owns(s.db, rs) && !Owns(db, rs)
    ensures !Referenced(Step(s, ReconfigureEv(db), env).procs, rs)
  {
    StepKeepsRulesets(s, ReconfigureEv(db), env);
    if Referenced(Step(s, ReconfigureEv(db), env).procs, rs) {
      OnlyOwnedReferenced(Step(s, ReconfigureEv(db), env), rs);
    }
  }

  // ------------------------------------------------------------- prediction

  /** The rule blocks in force; None if there is no context at all. */
  function Rules(c: Option<Ctx>): Option<(Option<Block>, Option<Block>, Option<Block>)> {
    match c
    case None => None
    case Some(x) => Some((x.alf, x.sb, x.cr))
  }

  /** One iteration of pe_context_will_transition. */
  predicate TransitionAt(p: Proc, db: Db, uid: Uid, ident: Ident, i: Prio, env: Env) {
    && Decide(p.prio[i].cur, p.uid, New, ident, uid, env)
    && GetRuleset(db, uid, i).Some?
    && var new' := Search(GetRuleset(db, uid, i).value, ident, uid, InPlayground(p), env);
       p.prio[i].cur.None? || new'.alf != p.prio[i].cur.value.alf || new'.sb != p.prio[i].cur.value.sb
       || new'.cr != p.prio[i].cur.value.cr
  }

  /** pe_context_will_transition */
  predicate WillTransition(p: Proc, db: Db, uid: Uid, ident: Ident, env: Env) {
    exists i: Prio :: TransitionAt(p, db, uid, ident, i, env)
  }

  /** A secure exec is demanded exactly if the exec changes the rules of a priority that has a ruleset. */
  lemma PredictionAgrees(p: Proc, db: Db, uid: Uid, ident: Ident, env: Env)
    ensures WillTransition(p, db, uid, ident, env) <==>
              exists i: Prio :: GetRuleset(db, uid, i).Some?
                && Rules(ContextExec(p, db, uid, ident, env).prio[i].cur) != Rules(p.prio[i].cur)
  {
    var q := ContextExec(p, db, uid, ident, env);
    forall i: Prio
      ensures TransitionAt(p, db, uid, ident, i, env) <==>
                GetRuleset(db, uid, i).Some? && Rules(q.prio[i].cur) != Rules(p.prio[i].cur)
    {
    }
  }
}

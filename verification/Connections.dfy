/**
 * Borrowed contexts over whole connections (pe_ipc.c, pe_context.c): which runs of
 * connects, disconnects and other events bring a process back to its own contexts.
 */
module Connections {
  import opened Basics
  import opened Policy
  import opened Contexts
  import opened Processes

  /** The same contexts; the cookie of the last borrow does not count. */
  predicate SameContexts(p: Proc, q: Proc) {
    forall i: Prio :: p.prio[i].cur == q.prio[i].cur && p.prio[i].saved == q.prio[i].saved
  }

  /** The connection makes p borrow from q at this priority. */
  predicate Borrows(p: Proc, q: Proc, db: Db, i: Prio, conn: Cookie, env: Env) {
    ContextBorrow(p, q, db, conn, env).prio[i] != p.prio[i]
  }

  /** The disconnect undoes what the connect did at this priority. */
  predicate Undone(p: Proc, q: Proc, db: Db, i: Prio, conn: Cookie, env: Env) {
    p.prio[i].saved.None? || (!Borrows(p, q, db, i, conn, env) && p.prio[i].borrow != conn)
  }

  lemma PrioRoundTrip(p: Proc, q: Proc, db: Db, i: Prio, conn: Cookie, env: Env)
    ensures var t := Restore(ContextBorrow(p, q, db, conn, env).prio[i], conn);
      t.cur == p.prio[i].cur && t.saved == p.prio[i].saved <==> Undone(p, q, db, i, conn, env)
  {
    if Borrows(p, q, db, i, conn, env) {
      BorrowRoundTrip(p.prio[i], q.prio[i].cur, q.uid, p.uid, GetRuleset(db, p.uid, i), conn, InPlayground(p), env);
      BorrowKeeps(p.prio[i], q.prio[i].cur, q.uid, p.uid, GetRuleset(db, p.uid, i), conn, InPlayground(p), env);
    }
  }

  /** The cookie of the connection is recorded exactly by the first borrow. */
  lemma BorrowKeeps(s: PrioCtx, lender: Option<Ctx>, lenderUid: Uid, procUid: Uid, rs: Option<Ruleset>,
                    cookie: Cookie, pg: bool, env: Env)
    requires BorrowFrom(s, lender, lenderUid, procUid, rs, cookie, pg, env) != s
    ensures var t := BorrowFrom(s, lender, lenderUid, procUid, rs, cookie, pg, env);
      && t.saved == (if s.saved.None? then s.cur else s.saved) && t.saved.Some?
      && t.borrow == (if s.saved.None? then cookie else s.borrow)
  {
  }

  lemma GetPut(procs: seq<Proc>, cookie: Cookie, q: Proc)
    requires Find(procs, cookie).Some? && q.cookie == cookie
    ensures Get(Put(procs, cookie, q), cookie) == Some(q)
  {
  }

  // ------------------------------------------------------------------ runs in between

  /** The event is not about the process and does not change the policy. */
  predicate Elsewhere(e: Event, cookie: Cookie) {
    match e
    case ForkEv(_, _, _, _) => true
    case ExecEv(c, _, _, _, _) => c != cookie
    case ExitEv(c) => c != cookie
    case ReplaceEv(gains, loses) => gains != cookie && loses != cookie
    case OpenEv(c, _, _) => c != cookie
    case ConnectEv(_, dest, _) => dest != cookie
    case DisconnectEv(source, _) => source != cookie
    case PlaygroundEv(c, _) => c != cookie
    case InsertEv(_, _, _) => false
    case ReconfigureEv(_) => false
  }

  lemma GetOther(procs: seq<Proc>, other: Cookie, q: Proc, cookie: Cookie)
    requires q.cookie == other != cookie
    ensures Get(Put(procs, other, q), cookie) == Get(procs, cookie)
  {
    var r := Put(procs, other, q);
    assert forall k | 0 <= k < |procs| :: r[k].cookie == procs[k].cookie;
  }

  lemma GetAppended(procs: seq<Proc>, q: Proc, cookie: Cookie)
    requires Get(procs, cookie).Some?
    ensures Get(procs + [q], cookie) == Get(procs, cookie)
  {
    var k := Find(procs, cookie).value;
    assert (procs + [q])[k] == procs[k];
    assert Find(procs + [q], cookie) == Some(k);
  }

  lemma GetRemoved(procs: seq<Proc>, k: nat, cookie: Cookie)
    requires k < |procs| && procs[k].cookie != cookie && Get(procs, cookie).Some?
    ensures Get(procs[..k] + procs[k + 1..], cookie) == Get(procs, cookie)
  {
    var j := Find(procs, cookie).value;
    var r := procs[..k] + procs[k + 1..];
    var i := if j < k then j else j - 1;
    assert r[i] == procs[j];
    assert forall m | 0 <= m < i :: r[m] == procs[if m < k then m else m + 1];
    assert Find(r, cookie) == Some(i);
  }

  lemma GetAfterExit(procs: seq<Proc>, other: Cookie, cookie: Cookie)
    requires other != cookie && Get(procs, cookie).Some?
    ensures Get(ExitProc(procs, other), cookie) == Get(procs, cookie)
  {
    var at := Find(procs, other);
    if at.Some? {
      var k := at.value;
      if procs[k].instances - 1 != 0 {
        GetOther(procs, other, procs[k].(instances := procs[k].instances - 1), cookie);
      } else {
        GetRemoved(procs, k, cookie);
      }
    }
  }

  lemma ElsewhereKeeps(s: Engine, e: Event, env: Env, cookie: Cookie)
    requires Elsewhere(e, cookie) && Get(s.procs, cookie).Some?
    ensures Get(Step(s, e, env).procs, cookie) == Get(s.procs, cookie)
  {
    hide Find;
    hide BorrowFrom;
    hide Execute;
    hide OpenFile;
    hide Restore;
    hide Refresh;
    hide Fork;
    hide ExitProc;
    match e {
      case ForkEv(uid, child, parent, pgid) =>
        GetAppended(s.procs, Child(Get(s.procs, parent), s.db, uid, child, pgid, env), cookie);
      case ExecEv(c, uid, ident, pgid, secure) =>
        var procs := EnsureTracked(s.procs, uid, c, pgid);
        if Find(s.procs, c).None? { GetAppended(s.procs, NewProc(uid, c, NO_IDENT, pgid), cookie); }
        var p := Get(procs, c);
        if p.Some? { GetOther(procs, c, ExecProc(p.value, s.db, uid, ident, secure, env), cookie); }
      case ExitEv(c) => GetAfterExit(s.procs, c, cookie);
      case ReplaceEv(gains, loses) =>
        var p := Get(s.procs, gains);
        if p.Some? { GetOther(s.procs, gains, p.value.(instances := p.value.instances + 1), cookie); }
        GetAfterExit(AddInstance(s.procs, gains), loses, cookie);
      case OpenEv(c, uid, ident) =>
        var p := Get(s.procs, c);
        if p.Some? { GetOther(s.procs, c, ContextOpen(p.value, s.db, uid, ident, env), cookie); }
      case ConnectEv(source, dest, conn) =>
        var p, q := Get(s.procs, dest), Get(s.procs, source);
        if p.Some? && q.Some? { GetOther(s.procs, dest, ContextBorrow(p.value, q.value, s.db, conn, env), cookie); }
      case DisconnectEv(source, conn) =>
        var p := Get(s.procs, source);
        if p.Some? { GetOther(s.procs, source, ContextRestore(p.value, conn), cookie); }
      case PlaygroundEv(c, pgid) =>
        var p := Get(s.procs, c);
        if p.Some? { GetOther(s.procs, c, RefreshBoth(p.value.(pgid := pgid), s.db, env), cookie); }
      case _ =>
    }
  }

  lemma {:induction false} RunElsewhere(s: Engine, events: seq<(Event, Env)>, cookie: Cookie)
    requires Get(s.procs, cookie).Some? && forall k | 0 <= k < |events| :: Elsewhere(events[k].0, cookie)
    ensures Get(Run(s, events).procs, cookie) == Get(s.procs, cookie)
    decreases |events|
  {
    if events != [] {
      var n := |events| - 1;
      RunElsewhere(s, events[..n], cookie);
      ElsewhereKeeps(Run(s, events[..n]), events[n].0, events[n].1, cookie);
    }
  }

  /**
   * A connection that is closed for the borrower, after any events elsewhere, leaves its
   * contexts as they were if and only if at every priority nothing was saved, or the
   * connection changed nothing there and its cookie is not that of the saved context.
   */
  lemma {:induction false} ConnectionRoundTrip(s: Engine, source: Cookie, dest: Cookie, conn: Cookie, env: Env,
                                               events: seq<(Event, Env)>, later: Env)
    requires Get(s.procs, source).Some? && Get(s.procs, dest).Some?
    requires forall k | 0 <= k < |events| :: Elsewhere(events[k].0, dest)
    ensures var t := Run(Step(s, ConnectEv(source, dest, conn), env), events);
      var u := Step(t, DisconnectEv(dest, conn), later);
      var p, q := Get(s.procs, dest).value, Get(s.procs, source).value;
      && Get(u.procs, dest).Some?
      && (SameContexts(Get(u.procs, dest).value, p) <==> forall i: Prio :: Undone(p, q, s.db, i, conn, env))
  {
    hide Find;
    hide BorrowFrom;
    hide Undone;
    var p, q := Get(s.procs, dest).value, Get(s.procs, source).value;
    var b := ContextBorrow(p, q, s.db, conn, env);
    GetPut(s.procs, dest, b);
    RunElsewhere(Step(s, ConnectEv(source, dest, conn), env), events, dest);
    var t := Run(Step(s, ConnectEv(source, dest, conn), env), events);
    GetPut(t.procs, dest, ContextRestore(b, conn));
    forall i: Prio ensures
        b.prio[i] == BorrowFrom(p.prio[i], q.prio[i].cur, q.uid, p.uid, GetRuleset(s.db, p.uid, i), conn,
                                InPlayground(p), env)
        && (var r := Restore(b.prio[i], conn); r.cur == p.prio[i].cur && r.saved == p.prio[i].saved
                                               <==> Undone(p, q, s.db, i, conn, env))
    {
      PrioRoundTrip(p, q, s.db, i, conn, env);
    }
  }

  /** The connecting process does not undo what the connect changed at its peer. */
  lemma SourceRestoresNothing(s: Engine, source: Cookie, dest: Cookie, conn: Cookie, env: Env)
    requires source != dest && Get(s.procs, dest).Some?
    ensures Get(Step(s, DisconnectEv(source, conn), env).procs, dest) == Get(s.procs, dest)
  {
    ElsewhereKeeps(s, DisconnectEv(source, conn), env, dest);
  }

  /** The event may concern the process, but neither ends its connection nor drops a saved context. */
  predicate Quiet(e: Event, cookie: Cookie, conn: Cookie) {
    || Elsewhere(e, cookie)
    || e.OpenEv? || e.ConnectEv?
    || (e.DisconnectEv? && e.conn != conn)
  }

  /** The process has this context saved for the connection. */
  ghost predicate Saved(s: Engine, cookie: Cookie, i: Prio, own: Ctx, conn: Cookie) {
    var p := Get(s.procs, cookie);
    p.Some? && p.value.prio[i].saved == Some(own) && p.value.prio[i].borrow == conn
  }

  /** The process has this context again and nothing saved. */
  ghost predicate Back(s: Engine, cookie: Cookie, i: Prio, own: Option<Ctx>) {
    var p := Get(s.procs, cookie);
    p.Some? && p.value.prio[i].cur == own && p.value.prio[i].saved.None?
  }

  lemma QuietKeepsSaved(s: Engine, e: Event, env: Env, cookie: Cookie, i: Prio, own: Ctx, conn: Cookie)
    requires Saved(s, cookie, i, own, conn) && Quiet(e, cookie, conn)
    ensures Saved(Step(s, e, env), cookie, i, own, conn)
  {
    hide Find;
    hide Put;
    hide Search;
    hide Decide;
    if Elsewhere(e, cookie) {
      ElsewhereKeeps(s, e, env, cookie);
    } else {
      var p := Get(s.procs, cookie).value;
      match e {
        case OpenEv(c, uid, ident) => GetPut(s.procs, c, ContextOpen(p, s.db, uid, ident, env));
        case ConnectEv(source, dest, k) =>
          var q := Get(s.procs, source);
          if q.Some? { GetPut(s.procs, dest, ContextBorrow(p, q.value, s.db, k, env)); }
        case DisconnectEv(source, k) => GetPut(s.procs, source, ContextRestore(p, k));
        case _ =>
      }
    }
  }

  lemma {:induction false} RunKeepsSaved(s: Engine, events: seq<(Event, Env)>, cookie: Cookie, i: Prio, own: Ctx,
                                         conn: Cookie)
    requires Saved(s, cookie, i, own, conn) && forall k | 0 <= k < |events| :: Quiet(events[k].0, cookie, conn)
    ensures Saved(Run(s, events), cookie, i, own, conn)
    decreases |events|
  {
    if events != [] {
      var n := |events| - 1;
      RunKeepsSaved(s, events[..n], cookie, i, own, conn);
      QuietKeepsSaved(Run(s, events[..n]), events[n].0, events[n].1, cookie, i, own, conn);
    }
  }

  /**
   * Whatever else is connected, disconnected or opened in between, by this process or by
   * others: the end of the first connection brings the context of before back.
   */
  lemma {:induction false} FirstConnectionWins(s: Engine, source: Cookie, dest: Cookie, conn: Cookie, env: Env,
                            events: seq<(Event, Env)>, later: Env, i: Prio)
    requires Get(s.procs, source).Some? && Get(s.procs, dest).Some?
    requires var p, q := Get(s.procs, dest).value, Get(s.procs, source).value;
      p.prio[i].saved.None? && Borrows(p, q, s.db, i, conn, env)
    requires forall k | 0 <= k < |events| :: Quiet(events[k].0, dest, conn)
    ensures Back(Step(Run(Step(s, ConnectEv(source, dest, conn), env), events), DisconnectEv(dest, conn), later),
                 dest, i, Get(s.procs, dest).value.prio[i].cur)
  {
    hide Find;
    var p, q := Get(s.procs, dest).value, Get(s.procs, source).value;
    var b := ContextBorrow(p, q, s.db, conn, env);
    GetPut(s.procs, dest, b);
    BorrowKeeps(p.prio[i], q.prio[i].cur, q.uid, p.uid, GetRuleset(s.db, p.uid, i), conn, InPlayground(p), env);
    hide BorrowFrom;
    var t := Step(s, ConnectEv(source, dest, conn), env);
    var own := p.prio[i].cur.value;
    RunKeepsSaved(t, events, dest, i, own, conn);
    var r := Get(Run(t, events).procs, dest).value;
    GetPut(Run(t, events).procs, dest, ContextRestore(r, conn));
  }
}

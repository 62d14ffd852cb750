/**
 * What each event of process tracking does to the tracked processes, in terms of rules and
 * rulesets: whose context changes, to which rules, and what stays as it is (pe_proc.c,
 * pe_context.c).
 */
module Effects {
  import opened Basics
  import opened Policy
  import opened Contexts
  import opened Processes

  /** At most process k differs. */
  predicate OnlyAt(a: seq<Proc>, b: seq<Proc>, k: nat) {
    |a| == |b| && forall j | 0 <= j < |a| && j != k :: b[j] == a[j]
  }

  /** All fields but the contexts are the same. */
  predicate SameRecord(p: Proc, q: Proc) {
    q == p.(prio := q.prio)
  }

  /** The process that a fork creates from its parent */
  ghost predicate Inherits(parent: Option<Proc>, c: Proc, db: Db, uid: Uid, pgid: Cookie, env: Env) {
    && c.uid == uid && c.pgid == pgid && c.instances == 1 && c.threads == 0
    && c.ident == (if parent.Some? then parent.value.ident else NO_IDENT)
    && (c.flags.upgrade <==> parent.Some? && parent.value.flags.upgrade)
    && (c.flags.secure <==> parent.Some? && parent.value.flags.secure)
    && !c.flags.parent && !c.flags.hold
    && forall i: Prio ::
         && c.prio[i].saved.None? && c.prio[i].borrow == 0
         && if parent.Some? && parent.value.uid == uid && parent.value.prio[i].cur.Some?
            then c.prio[i].cur == parent.value.prio[i].cur
            else Enters(None, c.prio[i].cur, GetRuleset(db, uid, i), c.ident, uid, pgid != 0, env)
  }

  /**
   * A fork adds one process and changes no other. Under the uid of the parent the child has the
   * parent's current contexts, under another uid those of its own rulesets; it shares the marks of
   * an upgrade and of a secure exec, but it is not counted as an upgrade parent.
   */
  lemma ForkEffect(s: Engine, e: Event, env: Env)
    requires e.ForkEv?
    ensures var t := Step(s, e, env); var n := |s.procs|;
      && t.db == s.db && |t.procs| == n + 1 && t.procs[..n] == s.procs
      && t.procs[n].cookie == e.child
      && Inherits(Get(s.procs, e.parent), t.procs[n], s.db, e.uid, e.pgid, env)
  {
    hide Enters;
    hide Switch;
    hide Get;
    var parent := Get(s.procs, e.parent);
    var ident := if parent.Some? then parent.value.ident else NO_IDENT;
    forall i: Prio
      ensures Enters(None, Switch(None, GetRuleset(s.db, e.uid, i), ident, e.uid, e.pgid != 0, env),
                     GetRuleset(s.db, e.uid, i), ident, e.uid, e.pgid != 0, env)
    {
      SwitchEnters(None, GetRuleset(s.db, e.uid, i), ident, e.uid, e.pgid != 0, env);
    }
  }

  /** The contexts of a process after an exec of a program under a uid */
  ghost predicate Executed(p: Proc, q: Proc, db: Db, uid: Uid, ident: Ident, env: Env) {
    forall i: Prio :: var c := p.prio[i].cur;
      if c.None? || p.uid != uid || Permits(c.value, New, ident, uid, env)
      then Enters(c, q.prio[i].cur, GetRuleset(db, uid, i), ident, uid, p.pgid != 0, env)
           && q.prio[i].saved.None? && q.prio[i].borrow == p.prio[i].borrow
      else q.prio[i] == p.prio[i]
  }

  lemma ExecOne(p: Proc, db: Db, uid: Uid, ident: Ident, secure: bool, env: Env)
    ensures var q := ExecProc(p, db, uid, ident, secure, env);
      && q == p.(ident := ident, uid := if uid == NO_UID then p.uid else uid, flags := p.flags.(secure := secure),
                 prio := q.prio)
      && Executed(p, q, db, uid, ident, env)
  {
    hide Execute;
    hide Enters;
    hide Permits;
    forall i: Prio {
      ExecuteExactly(p.prio[i], p.uid, GetRuleset(db, uid, i), ident, uid, p.pgid != 0, env);
    }
  }

  /**
   * An exec changes one process, which is tracked from now on if it was not. It has the new identity,
   * and each context follows only if there was none, the uid changes, or a rule permits it.
   */
  lemma ExecEffect(s: Engine, e: Event, env: Env)
    requires e.ExecEv?
    ensures var t := Step(s, e, env); var n := |s.procs|; var at := Find(s.procs, e.cookie);
      && t.db == s.db
      && (at.Some? ==> OnlyAt(s.procs, t.procs, at.value))
      && (at.None? ==> |t.procs| == n + 1 && t.procs[..n] == s.procs)
      && var p := if at.Some? then s.procs[at.value] else NewProc(e.uid, e.cookie, NO_IDENT, e.pgid);
         var q := t.procs[if at.Some? then at.value else n];
         && q == p.(ident := e.ident, uid := if e.uid == NO_UID then p.uid else e.uid,
                    flags := p.flags.(secure := e.secure), prio := q.prio)
         && Executed(p, q, s.db, e.uid, e.ident, env)
  {
    hide Executed;
    hide ExecProc;
    var at := Find(s.procs, e.cookie);
    var p := if at.Some? then s.procs[at.value] else NewProc(e.uid, e.cookie, NO_IDENT, e.pgid);
    if at.None? { FindAppended(s.procs, p); }
    ExecOne(p, s.db, e.uid, e.ident, e.secure, env);
    hide Find;
  }

  /** The contexts of a process after it has opened a file under a uid */
  ghost predicate Opened(p: Proc, q: Proc, db: Db, uid: Uid, ident: Ident, env: Env) {
    forall i: Prio :: var c := p.prio[i].cur;
      if c.Some? && Permits(c.value, Open, ident, p.uid, env)
      then Enters(c, q.prio[i].cur, GetRuleset(db, uid, i), ident, uid, p.pgid != 0, env)
           && q.prio[i].saved == p.prio[i].saved && q.prio[i].borrow == p.prio[i].borrow
      else q.prio[i] == p.prio[i]
  }

  /** An open changes contexts only, of the process that opens, and only where an open rule names the file. */
  lemma OpenEffect(s: Engine, e: Event, env: Env)
    requires e.OpenEv?
    ensures var t := Step(s, e, env); var at := Find(s.procs, e.cookie);
      && t.db == s.db
      && (at.None? || e.ident.csum.None? ==> t == s)
      && (at.Some? ==> OnlyAt(s.procs, t.procs, at.value) && SameRecord(s.procs[at.value], t.procs[at.value]))
      && (at.Some? && e.ident.csum.Some? ==> Opened(s.procs[at.value], t.procs[at.value], s.db, e.uid, e.ident, env))
  {
    hide Find;
    hide OpenFile;
    hide Enters;
    hide Permits;
    var at := Find(s.procs, e.cookie);
    if at.Some? {
      var p := s.procs[at.value];
      forall i: Prio {
        OpenExactly(p.prio[i], p.uid, GetRuleset(s.db, e.uid, i), e.ident, e.uid, p.pgid != 0, env);
      }
    }
  }

  /** The contexts of p after a connection to q */
  ghost predicate Borrowed(p: Proc, q: Proc, r: Proc, db: Db, conn: Cookie, env: Env) {
    forall i: Prio :: var s := p.prio[i]; var t := r.prio[i]; var lender := q.prio[i].cur;
      var rs := GetRuleset(db, p.uid, i);
      if s.cur.Some? && lender.Some? && lender.value.ruleset == s.cur.value.ruleset
         && Permits(s.cur.value, Borrow, lender.value.ident, q.uid, env)
      then
        if s.saved.Some?
        then Enters(s.cur, t.cur, rs, lender.value.ident, p.uid, p.pgid != 0, env)
             && t.saved == s.saved && t.borrow == s.borrow
        else Enters(None, t.cur, rs, lender.value.ident, p.uid, p.pgid != 0, env)
             && t.saved == s.cur && t.borrow == conn
      else t == s
  }

  /** A connection changes contexts only, of its destination, and only where a borrow rule names the source. */
  lemma ConnectEffect(s: Engine, e: Event, env: Env)
    requires e.ConnectEv?
    ensures var t := Step(s, e, env); var at, from := Find(s.procs, e.dest), Find(s.procs, e.source);
      && t.db == s.db
      && (at.None? || from.None? ==> t == s)
      && (at.Some? ==> OnlyAt(s.procs, t.procs, at.value) && SameRecord(s.procs[at.value], t.procs[at.value]))
      && (at.Some? && from.Some? ==>
            Borrowed(s.procs[at.value], s.procs[from.value], t.procs[at.value], s.db, e.conn, env))
  {
    hide Find;
    hide BorrowFrom;
    hide Enters;
    hide Permits;
    var at, from := Find(s.procs, e.dest), Find(s.procs, e.source);
    if at.Some? && from.Some? {
      var p, q := s.procs[at.value], s.procs[from.value];
      forall i: Prio {
        BorrowExactly(p.prio[i], q.prio[i].cur, q.uid, p.uid, GetRuleset(s.db, p.uid, i), e.conn, p.pgid != 0, env);
      }
    }
  }

  /** The end of a connection restores what was saved for it, in the process at its source. */
  lemma DisconnectEffect(s: Engine, e: Event, env: Env)
    requires e.DisconnectEv?
    ensures var t := Step(s, e, env); var at := Find(s.procs, e.source);
      && t.db == s.db
      && (at.None? ==> t == s)
      && (at.Some? ==>
            && OnlyAt(s.procs, t.procs, at.value) && SameRecord(s.procs[at.value], t.procs[at.value])
            && forall i: Prio :: var c := s.procs[at.value].prio[i];
                 t.procs[at.value].prio[i] == if c.saved.Some? && c.borrow == e.conn then PrioCtx(c.saved, None, e.conn)
                                              else c)
  {
    hide Find;
  }

  /** All contexts of a process have been searched again under its uid. */
  ghost predicate AllRefreshed(p: Proc, q: Proc, db: Db, env: Env) {
    && SameRecord(p, q)
    && forall i: Prio :: Refreshed(p.prio[i], q.prio[i], GetRuleset(db, p.uid, i), p.ident, p.uid, p.pgid != 0, env)
  }

  lemma RefreshBothOne(p: Proc, db: Db, env: Env)
    ensures AllRefreshed(p, RefreshBoth(p, db, env), db, env)
  {
    hide Refresh;
    hide Refreshed;
    RefreshExactly(p.prio[0], GetRuleset(db, p.uid, 0), p.ident, p.uid, p.pgid != 0, env);
    RefreshExactly(p.prio[1], GetRuleset(db, p.uid, 1), p.ident, p.uid, p.pgid != 0, env);
  }

  /** A process that enters or leaves a playground has its contexts searched again. */
  lemma PlaygroundEffect(s: Engine, e: Event, env: Env)
    requires e.PlaygroundEv?
    ensures var t := Step(s, e, env); var at := Find(s.procs, e.cookie);
      && t.db == s.db
      && (at.None? ==> t == s)
      && (at.Some? ==>
            && OnlyAt(s.procs, t.procs, at.value)
            && AllRefreshed(s.procs[at.value].(pgid := e.pgid), t.procs[at.value], s.db, env))
  {
    hide Find;
    hide AllRefreshed;
    hide RefreshBoth;
    var at := Find(s.procs, e.cookie);
    if at.Some? {
      RefreshBothOne(s.procs[at.value].(pgid := e.pgid), s.db, env);
    }
  }

  /** A new policy: every context of every process is searched in it. */
  lemma ReconfigureEffect(s: Engine, e: Event, env: Env)
    requires e.ReconfigureEv?
    ensures var t := Step(s, e, env);
      && t.db == e.db && |t.procs| == |s.procs|
      && forall k | 0 <= k < |s.procs| :: AllRefreshed(s.procs[k], t.procs[k], e.db, env)
  {
    hide AllRefreshed;
    hide RefreshBoth;
    forall k | 0 <= k < |s.procs| ensures AllRefreshed(s.procs[k], Step(s, e, env).procs[k], e.db, env) {
      RefreshBothOne(s.procs[k], e.db, env);
    }
  }

  /**
   * What a new ruleset for one user and priority does to a process: a context of the old ruleset or of
   * none is searched again, and without an old ruleset those of the user are.
   */
  ghost predicate Updated(p: Proc, q: Proc, db: Db, oldrs: Option<Ruleset>, i: Prio, uid: Uid, env: Env) {
    var c := p.prio[i].cur;
    && SameRecord(p, q)
    && (forall j: Prio | j != i :: q.prio[j] == p.prio[j])
    && if c.Some? && (if oldrs.Some? then c.value.ruleset == oldrs || c.value.ruleset.None? else p.uid == uid)
       then Refreshed(p.prio[i], q.prio[i], GetRuleset(db, p.uid, i), p.ident, p.uid, p.pgid != 0, env)
       else q == p
  }

  lemma UpdateOneUpdated(p: Proc, db: Db, oldrs: Option<Ruleset>, i: Prio, uid: Uid, env: Env)
    ensures Updated(p, UpdateOne(p, db, oldrs, i, uid, env), db, oldrs, i, uid, env)
  {
    hide Refresh;
    hide Refreshed;
    RefreshExactly(p.prio[i], GetRuleset(db, p.uid, i), p.ident, p.uid, p.pgid != 0, env);
  }

  /** A new ruleset: processes are updated one by one, against the database that has it. */
  lemma InsertEffect(s: Engine, e: Event, env: Env)
    requires e.InsertEv?
    ensures var t := Step(s, e, env);
      && t.db == Insert(s.db, e.rs, e.uid, e.prio) && |t.procs| == |s.procs|
      && forall k | 0 <= k < |s.procs| ::
           Updated(s.procs[k], t.procs[k], t.db, OwnRuleset(s.db, e.uid, e.prio), e.prio, e.uid, env)
  {
    hide Insert;
    hide OwnRuleset;
    hide Updated;
    hide UpdateOne;
    var t, oldrs := Step(s, e, env), OwnRuleset(s.db, e.uid, e.prio);
    forall k | 0 <= k < |s.procs| ensures Updated(s.procs[k], t.procs[k], t.db, oldrs, e.prio, e.uid, env) {
      UpdateOneUpdated(s.procs[k], t.db, oldrs, e.prio, e.uid, env);
    }
  }

  /** An instance that is added and exits again leaves no trace. */
  lemma AddThenExit(procs: seq<Proc>, cookie: Cookie)
    requires Get(procs, cookie).Some? ==> Get(procs, cookie).value.instances >= 1
    ensures ExitProc(AddInstance(procs, cookie), cookie) == procs
  {
    var at := Find(procs, cookie);
    if at.Some? {
      var more := AddInstance(procs, cookie);
      assert Find(more, cookie) == at by {
        hide Get;
        assert forall k | 0 <= k < |procs| :: more[k].cookie == procs[k].cookie;
      }
    }
  }
}

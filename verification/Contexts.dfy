/**
 * The context change logic of one priority (pe_context.c), on values.
 * The class PolicyEngine in Tracker.dfy refines these functions with shared,
 * reference counted context objects.
 */
module Contexts {
  import opened Basics
  import opened Policy

  /** struct pe_context without its reference count. */
  datatype Ctx = Ctx(ruleset: Option<Ruleset>, alf: Option<Block>, sb: Option<Block>, cr: Option<Block>, ident: Ident)

  /** Current context, saved context and borrow cookie of one priority of a process. */
  datatype PrioCtx = PrioCtx(cur: Option<Ctx>, saved: Option<Ctx>, borrow: Cookie)

  /**
   * What the checksum cache and the certificate store answer while an event is
   * handled. A missing key is a failed lookup.
   */
  datatype Env = Env(byUid: map<(Path, Uid), Bytes>, byKey: map<(Path, KeyId), Bytes>, keyOf: map<Uid, KeyId>)

  function Lookup<K, V>(m: map<K, V>, k: K): Option<V> {
    if k in m then Some(m[k]) else None
  }

  // ------------------------------------------------------------------ matching

  /** The checksum that pe_context_subject_match compares against. */
  function SubjectSum(name: Path, subject: Subject, uid: Uid, env: Env): Option<Bytes> {
    match subject
    case NoSubject => None
    case OfUid(u) => if u == NO_UID then None else Lookup(env.byUid, (name, u))
    case UidSelf => if uid == NO_UID then None else Lookup(env.byUid, (name, uid))
    case OfKey(k) => Lookup(env.byKey, (name, k))
    case KeySelf =>
      if uid == NO_UID || uid !in env.keyOf then None else Lookup(env.byKey, (name, env.keyOf[uid]))
  }

  /** pe_context_app_match with pe_context_subject_match */
  predicate AppMatch(app: App, ident: Ident, uid: Uid, env: Env) {
    match app.name
    case None => true
    case Some(name) =>
      if app.subject.NoSubject? then ident.path == Some(name)
      else
        var sum := SubjectSum(name, app.subject, uid, env);
        sum.Some? && sum.value != [] && sum == ident.csum
  }

  /** An empty application list is "any". */
  predicate AppsMatch(apps: seq<App>, ident: Ident, uid: Uid, env: Env) {
    apps == [] || exists k :: 0 <= k < |apps| && AppMatch(apps[k], ident, uid, env)
  }

  predicate BlockApplies(b: Block, ident: Ident, uid: Uid, pg: bool, env: Env) {
    (pg || !b.pgOnly) && AppsMatch(b.apps, ident, uid, env)
  }

  /** The first applicable block of a chain. */
  function FirstBlock(chain: seq<Block>, ident: Ident, uid: Uid, pg: bool, env: Env): (r: Option<Block>)
    ensures r.Some? ==> r.value in chain && BlockApplies(r.value, ident, uid, pg, env)
    ensures r.None? <==> forall k | 0 <= k < |chain| :: !BlockApplies(chain[k], ident, uid, pg, env)
  {
    if chain == [] then None
    else if BlockApplies(chain[0], ident, uid, pg, env) then Some(chain[0])
    else FirstBlock(chain[1..], ident, uid, pg, env)
  }

  /** Block k is the first one of the chain that applies. */
  predicate FirstApplies(chain: seq<Block>, k: nat, ident: Ident, uid: Uid, pg: bool, env: Env) {
    && k < |chain| && BlockApplies(chain[k], ident, uid, pg, env)
    && forall j | 0 <= j < k :: !BlockApplies(chain[j], ident, uid, pg, env)
  }

  /** A search finds a block exactly if it is the first one that applies. */
  lemma {:induction false} FirstBlockExactly(chain: seq<Block>, ident: Ident, uid: Uid, pg: bool, env: Env, b: Block)
    ensures FirstBlock(chain, ident, uid, pg, env) == Some(b)
            <==> exists k: nat :: FirstApplies(chain, k, ident, uid, pg, env) && chain[k] == b
  {
    hide BlockApplies;
    if chain != [] {
      var rest := chain[1..];
      FirstBlockExactly(rest, ident, uid, pg, env, b);
      if k: nat :| FirstApplies(chain, k, ident, uid, pg, env) && chain[k] == b {
        assert k > 0 ==> FirstApplies(rest, k - 1, ident, uid, pg, env);
      }
      if BlockApplies(chain[0], ident, uid, pg, env) {
        assert FirstApplies(chain, 0, ident, uid, pg, env);
      } else if k: nat :| FirstApplies(rest, k, ident, uid, pg, env) && rest[k] == b {
        assert FirstApplies(chain, k + 1, ident, uid, pg, env);
      }
    }
  }

  /** pe_context_search for an existing ruleset */
  function Search(rs: Ruleset, ident: Ident, uid: Uid, pg: bool, env: Env): Ctx {
    Ctx(Some(rs), FirstBlock(rs.alf, ident, uid, pg, env), FirstBlock(rs.sb, ident, uid, pg, env),
        FirstBlock(rs.ctx, ident, uid, pg, env), ident)
  }

  /** The result of a search: the first block that applies, or none if no block does. */
  ghost predicate FirstOf(r: Option<Block>, chain: seq<Block>, ident: Ident, uid: Uid, pg: bool, env: Env) {
    match r
    case None => forall k | 0 <= k < |chain| :: !BlockApplies(chain[k], ident, uid, pg, env)
    case Some(b) => exists k: nat :: FirstApplies(chain, k, ident, uid, pg, env) && chain[k] == b
  }

  lemma FirstOfChain(chain: seq<Block>, ident: Ident, uid: Uid, pg: bool, env: Env)
    ensures FirstOf(FirstBlock(chain, ident, uid, pg, env), chain, ident, uid, pg, env)
  {
    var r := FirstBlock(chain, ident, uid, pg, env);
    if r.Some? {
      FirstBlockExactly(chain, ident, uid, pg, env, r.value);
    }
    hide BlockApplies;
    hide FirstApplies;
  }

  /** The context has the rules that a ruleset holds for a program: of each kind the first block that applies. */
  ghost predicate Searched(c: Ctx, rs: Ruleset, ident: Ident, uid: Uid, pg: bool, env: Env) {
    && c.ruleset == Some(rs) && c.ident == ident
    && FirstOf(c.alf, rs.alf, ident, uid, pg, env)
    && FirstOf(c.sb, rs.sb, ident, uid, pg, env)
    && FirstOf(c.cr, rs.ctx, ident, uid, pg, env)
  }

  lemma SearchedRules(rs: Ruleset, ident: Ident, uid: Uid, pg: bool, env: Env)
    ensures Searched(Search(rs, ident, uid, pg, env), rs, ident, uid, pg, env)
  {
    FirstOfChain(rs.alf, ident, uid, pg, env);
    FirstOfChain(rs.sb, ident, uid, pg, env);
    FirstOfChain(rs.ctx, ident, uid, pg, env);
    hide FirstOf;
    hide FirstBlock;
  }

  /**
   * A list of applications names a program: it is empty, or one of its elements has no name, has the path
   * of the program, or has a path whose registered checksum is that of the program.
   */
  predicate Named(apps: seq<App>, ident: Ident, uid: Uid, env: Env) {
    || apps == []
    || exists app <- apps ::
         || app.name.None?
         || (app.subject.NoSubject? && ident.path == app.name)
         || (!app.subject.NoSubject? && ident.csum.Some? && ident.csum != Some([])
             && SubjectSum(app.name.value, app.subject, uid, env) == ident.csum)
  }

  lemma NamedExactly(apps: seq<App>, ident: Ident, uid: Uid, env: Env)
    ensures AppsMatch(apps, ident, uid, env) <==> Named(apps, ident, uid, env)
  {
    hide SubjectSum;
  }

  lemma BlockAppliesExactly(b: Block, ident: Ident, uid: Uid, pg: bool, env: Env)
    ensures BlockApplies(b, ident, uid, pg, env) <==> (b.pgOnly ==> pg) && Named(b.apps, ident, uid, env)
  {
    NamedExactly(b.apps, ident, uid, env);
    hide Named;
    hide AppsMatch;
  }

  predicate RuleAllows(rule: CtxRule, kind: CtxKind, ident: Ident, uid: Uid, env: Env) {
    rule.isContext && rule.kind == kind && AppsMatch(rule.apps, ident, uid, env)
  }

  /** pe_context_decide */
  predicate Decide(cur: Option<Ctx>, procUid: Uid, kind: CtxKind, ident: Ident, uid: Uid, env: Env) {
    match cur
    case None => kind == New
    case Some(c) =>
      || (kind == New && procUid != uid)
      || (c.cr.Some? && exists k ::
            0 <= k < |c.cr.value.ctxRules| && RuleAllows(c.cr.value.ctxRules[k], kind, ident, uid, env))
  }

  /** The context has a context rule of the asked kind whose applications name the program. */
  predicate Permits(c: Ctx, kind: CtxKind, ident: Ident, uid: Uid, env: Env) {
    c.cr.Some? && exists r <- c.cr.value.ctxRules :: r.isContext && r.kind == kind && Named(r.apps, ident, uid, env)
  }

  /**
   * Without a context only an exec may change it; under another uid an exec always may; and
   * otherwise a change of a context needs a rule of the asked kind that names the program.
   */
  lemma DecideExactly(cur: Option<Ctx>, procUid: Uid, kind: CtxKind, ident: Ident, uid: Uid, env: Env)
    ensures Decide(cur, procUid, kind, ident, uid, env) <==>
            (kind == New && (cur.None? || procUid != uid)) || (cur.Some? && Permits(cur.value, kind, ident, uid, env))
  {
    hide Named;
    hide AppsMatch;
    if cur.Some? && cur.value.cr.Some? {
      var rules := cur.value.cr.value.ctxRules;
      forall r | r in rules ensures AppsMatch(r.apps, ident, uid, env) <==> Named(r.apps, ident, uid, env) {
        NamedExactly(r.apps, ident, uid, env);
      }
    }
  }

  predicate IsNoRules(c: Ctx) {
    c.ruleset.None? && c.alf.None? && c.sb.None? && c.cr.None?
  }

  /** pe_context_norules and pe_savedctx_norules */
  function NoRules(cur: Option<Ctx>): Option<Ctx> {
    if cur.None? || IsNoRules(cur.value) then cur
    else Some(Ctx(None, None, None, None, cur.value.ident))
  }

  // ------------------------------------------------------- one priority of one process

  /** pe_context_switch; rs is the ruleset found for the user and priority. */
  function Switch(cur: Option<Ctx>, rs: Option<Ruleset>, ident: Ident, uid: Uid, pg: bool, env: Env): Option<Ctx> {
    match rs
    case None => NoRules(cur)
    case Some(r) => Some(Search(r, ident, uid, pg, env))
  }

  /** pe_context_refresh */
  function Refresh(s: PrioCtx, rs: Option<Ruleset>, procIdent: Ident, uid: Uid, pg: bool, env: Env): PrioCtx {
    match rs
    case None => PrioCtx(NoRules(s.cur), NoRules(s.saved), s.borrow)
    case Some(r) =>
      var ident := if s.cur.Some? then s.cur.value.ident else procIdent;
      var saved := if s.saved.Some? then Some(Search(r, s.saved.value.ident, uid, pg, env)) else None;
      PrioCtx(Some(Search(r, ident, uid, pg, env)), saved, s.borrow)
  }

  /** pe_context_fork: inherited is the parent's context if parent and child have the same uid. */
  function Fork(inherited: Option<Ctx>, rs: Option<Ruleset>, ident: Ident, uid: Uid, pg: bool, env: Env): PrioCtx {
    PrioCtx(if inherited.Some? then inherited else Switch(None, rs, ident, uid, pg, env), None, 0)
  }

  /** pe_context_exec */
  function Execute(s: PrioCtx, procUid: Uid, rs: Option<Ruleset>, ident: Ident, uid: Uid, pg: bool, env: Env): PrioCtx {
    if Decide(s.cur, procUid, New, ident, uid, env)
    then PrioCtx(Switch(s.cur, rs, ident, uid, pg, env), None, s.borrow)
    else s
  }

  /** pe_context_open: the decision uses the tracked uid, the switch that of the event. */
  function OpenFile(s: PrioCtx, procUid: Uid, rs: Option<Ruleset>, ident: Ident, uid: Uid, pg: bool,
                    env: Env): PrioCtx {
    if Decide(s.cur, procUid, Open, ident, procUid, env)
    then s.(cur := Switch(s.cur, rs, ident, uid, pg, env))
    else s
  }

  /** pe_proc_save_ctx */
  function Save(s: PrioCtx, cookie: Cookie): PrioCtx {
    if s.saved.Some? then s else PrioCtx(None, s.cur, cookie)
  }

  /** pe_context_borrow */
  function BorrowFrom(s: PrioCtx, lender: Option<Ctx>, lenderUid: Uid, procUid: Uid, rs: Option<Ruleset>,
                      cookie: Cookie, pg: bool, env: Env): PrioCtx {
    if lender.Some? && Decide(s.cur, procUid, Borrow, lender.value.ident, lenderUid, env)
       && lender.value.ruleset == s.cur.value.ruleset
    then
      var t := Save(s, cookie);
      t.(cur := Switch(t.cur, rs, lender.value.ident, procUid, pg, env))
    else s
  }

  /** pe_proc_restore_ctx */
  function Restore(s: PrioCtx, cookie: Cookie): PrioCtx {
    if s.saved.Some? && s.borrow == cookie then PrioCtx(s.saved, None, s.borrow) else s
  }

  /** pe_context_uses_rs */
  predicate UsesRs(c: Ctx, rs: Option<Ruleset>) {
    rs.Some? && (c.ruleset == rs || c.ruleset.None?)
  }

  // ------------------------------------------------------------------ what a change does

  /** A change to the rules for a program: those of the ruleset found, and without a ruleset none. */
  ghost predicate Enters(before: Option<Ctx>, after: Option<Ctx>, rs: Option<Ruleset>, ident: Ident, uid: Uid, pg: bool,
                         env: Env) {
    match rs
    case Some(r) => after.Some? && Searched(after.value, r, ident, uid, pg, env)
    case None => LosesRules(before, after)
  }

  /** No rules are left, but the identity is. */
  predicate LosesRules(before: Option<Ctx>, after: Option<Ctx>) {
    if before.None? then after.None? else after == Some(Ctx(None, None, None, None, before.value.ident))
  }

  lemma SwitchEnters(cur: Option<Ctx>, rs: Option<Ruleset>, ident: Ident, uid: Uid, pg: bool, env: Env)
    ensures Enters(cur, Switch(cur, rs, ident, uid, pg, env), rs, ident, uid, pg, env)
  {
    if rs.Some? {
      SearchedRules(rs.value, ident, uid, pg, env);
    }
    hide Searched;
  }

  /** An exec changes the context and drops the saved one, or does nothing. */
  lemma ExecuteExactly(s: PrioCtx, procUid: Uid, rs: Option<Ruleset>, ident: Ident, uid: Uid, pg: bool, env: Env)
    ensures var t := Execute(s, procUid, rs, ident, uid, pg, env);
      if s.cur.None? || procUid != uid || Permits(s.cur.value, New, ident, uid, env)
      then Enters(s.cur, t.cur, rs, ident, uid, pg, env) && t.saved.None? && t.borrow == s.borrow
      else t == s
  {
    DecideExactly(s.cur, procUid, New, ident, uid, env);
    SwitchEnters(s.cur, rs, ident, uid, pg, env);
    hide Decide;
    hide Permits;
    hide Enters;
    hide Switch;
  }

  /** An open changes the context only if an open rule names the file; the saved context stays. */
  lemma OpenExactly(s: PrioCtx, procUid: Uid, rs: Option<Ruleset>, ident: Ident, uid: Uid, pg: bool, env: Env)
    ensures var t := OpenFile(s, procUid, rs, ident, uid, pg, env);
      if s.cur.Some? && Permits(s.cur.value, Open, ident, procUid, env)
      then Enters(s.cur, t.cur, rs, ident, uid, pg, env) && t.saved == s.saved && t.borrow == s.borrow
      else t == s
  {
    DecideExactly(s.cur, procUid, Open, ident, procUid, env);
    SwitchEnters(s.cur, rs, ident, uid, pg, env);
    hide Decide;
    hide Permits;
    hide Enters;
    hide Switch;
  }

  /**
   * A connection changes the context only if a borrow rule names the lender's program and both have the
   * same ruleset; the rules are those of the borrower's own uid, and the first borrow saves the context.
   */
  lemma BorrowExactly(s: PrioCtx, lender: Option<Ctx>, lenderUid: Uid, procUid: Uid, rs: Option<Ruleset>,
                      cookie: Cookie, pg: bool, env: Env)
    ensures var t := BorrowFrom(s, lender, lenderUid, procUid, rs, cookie, pg, env);
      if s.cur.Some? && lender.Some? && lender.value.ruleset == s.cur.value.ruleset
         && Permits(s.cur.value, Borrow, lender.value.ident, lenderUid, env)
      then
        if s.saved.Some?
        then Enters(s.cur, t.cur, rs, lender.value.ident, procUid, pg, env)
             && t.saved == s.saved && t.borrow == s.borrow
        else Enters(None, t.cur, rs, lender.value.ident, procUid, pg, env) && t.saved == s.cur && t.borrow == cookie
      else t == s
  {
    if lender.Some? {
      DecideExactly(s.cur, procUid, Borrow, lender.value.ident, lenderUid, env);
      SwitchEnters(s.cur, rs, lender.value.ident, procUid, pg, env);
      SwitchEnters(None, rs, lender.value.ident, procUid, pg, env);
    }
    hide Decide;
    hide Permits;
    hide Enters;
    hide Switch;
  }

  /** Both contexts have been searched again, each for the program it was made for. */
  ghost predicate Refreshed(s: PrioCtx, t: PrioCtx, rs: Option<Ruleset>, procIdent: Ident, uid: Uid, pg: bool,
                            env: Env) {
    && t.borrow == s.borrow
    && Enters(s.cur, t.cur, rs, if s.cur.Some? then s.cur.value.ident else procIdent, uid, pg, env)
    && (if s.saved.None? then t.saved.None? else Enters(s.saved, t.saved, rs, s.saved.value.ident, uid, pg, env))
  }

  lemma RefreshExactly(s: PrioCtx, rs: Option<Ruleset>, procIdent: Ident, uid: Uid, pg: bool, env: Env)
    ensures Refreshed(s, Refresh(s, rs, procIdent, uid, pg, env), rs, procIdent, uid, pg, env)
  {
    if rs.Some? {
      SearchedRules(rs.value, if s.cur.Some? then s.cur.value.ident else procIdent, uid, pg, env);
      if s.saved.Some? { SearchedRules(rs.value, s.saved.value.ident, uid, pg, env); }
    }
    hide Searched;
    hide Search;
  }

  // ------------------------------------------------------------------ the invariant

  predicate RuleIn(rule: Option<Block>, chain: seq<Block>) {
    rule.Some? ==> rule.value in chain
  }

  /**
   * A context is either empty of rules or belongs to the ruleset rs that the
   * database currently gives, and then all its rule pointers point into it.
   */
  predicate CtxOk(c: Ctx, rs: Option<Ruleset>) {
    || IsNoRules(c)
    || (&& rs.Some?
        && c.ruleset == rs
        && RuleIn(c.alf, rs.value.alf) && RuleIn(c.sb, rs.value.sb) && RuleIn(c.cr, rs.value.ctx))
  }

  /** Both contexts are good, and a missing context has nothing saved beside it. */
  predicate PrioOk(s: PrioCtx, rs: Option<Ruleset>) {
    && (s.cur.Some? ==> CtxOk(s.cur.value, rs))
    && (s.saved.Some? ==> s.cur.Some? && CtxOk(s.saved.value, rs))
  }

  /** A switch to the user's current ruleset is always good. */
  lemma SwitchOk(s: PrioCtx, rs: Option<Ruleset>, ident: Ident, uid: Uid, pg: bool, env: Env)
    requires s.cur.Some? ==> CtxOk(s.cur.value, rs) || rs.None?
    ensures var c := Switch(s.cur, rs, ident, uid, pg, env);
      && (c.Some? ==> CtxOk(c.value, rs))
      && (s.cur.Some? || rs.Some? ==> c.Some?)
  {
  }

  /** A refresh needs no assumption about the ruleset the contexts had before. */
  lemma RefreshOk(s: PrioCtx, rs: Option<Ruleset>, procIdent: Ident, uid: Uid, pg: bool, env: Env)
    requires s.saved.Some? ==> s.cur.Some?
    ensures PrioOk(Refresh(s, rs, procIdent, uid, pg, env), rs)
  {
  }

  lemma BorrowOk(s: PrioCtx, lender: Option<Ctx>, lenderUid: Uid, procUid: Uid, rs: Option<Ruleset>,
                 cookie: Cookie, pg: bool, env: Env)
    requires PrioOk(s, rs)
    ensures PrioOk(BorrowFrom(s, lender, lenderUid, procUid, rs, cookie, pg, env), rs)
  {
    // A context that grants a borrow has rules, hence a ruleset, hence rs is not None:
    // the switch that follows the save cannot leave the priority without a context.
  }

  /**
   * An exec under the uid that becomes the uid of the process is always good.
   * rs is the ruleset of uid; kept is that of the process if the uid stays.
   */
  lemma ExecuteOk(s: PrioCtx, procUid: Uid, before: Option<Ruleset>, rs: Option<Ruleset>, ident: Ident, uid: Uid,
                  pg: bool, env: Env)
    requires PrioOk(s, before)
    requires procUid == uid ==> before == rs
    ensures PrioOk(Execute(s, procUid, rs, ident, uid, pg, env), rs)
  {
  }

  /**
   * If the uid of the process differs from the one whose ruleset is searched, the
   * result is good exactly if that search fails or finds the ruleset of the process.
   */
  lemma ForeignSwitch(s: PrioCtx, own: Option<Ruleset>, rs: Option<Ruleset>, ident: Ident, uid: Uid, pg: bool, env: Env)
    requires PrioOk(s, own)
    ensures var t := s.(cur := Switch(s.cur, rs, ident, uid, pg, env));
      PrioOk(t, own) <==> rs.None? || rs == own
    ensures var t := PrioCtx(Switch(s.cur, rs, ident, uid, pg, env), None, s.borrow);
      PrioOk(t, own) <==> rs.None? || rs == own
  {
    if rs.Some? && rs != own {
      assert !CtxOk(Search(rs.value, ident, uid, pg, env), own);
    }
  }

  // ------------------------------------------------------------------ borrowing

  /**
   * The end of its own connection undoes a borrow exactly if nothing was saved before: a
   * borrow over an earlier one keeps the older saved context and its connection.
   */
  lemma BorrowRoundTrip(s: PrioCtx, lender: Option<Ctx>, lenderUid: Uid, procUid: Uid, rs: Option<Ruleset>,
                        cookie: Cookie, pg: bool, env: Env)
    requires BorrowFrom(s, lender, lenderUid, procUid, rs, cookie, pg, env) != s
    ensures Restore(BorrowFrom(s, lender, lenderUid, procUid, rs, cookie, pg, env), cookie).(borrow := s.borrow) == s
            <==> s.saved.None?
  {
    assert s.cur.Some?;
  }

  /** While a context is saved, further borrows leave it and its connection alone. */
  lemma BorrowKeepsSaved(s: PrioCtx, lender: Option<Ctx>, lenderUid: Uid, procUid: Uid, rs: Option<Ruleset>,
                         cookie: Cookie, pg: bool, env: Env)
    requires s.saved.Some?
    ensures var t := BorrowFrom(s, lender, lenderUid, procUid, rs, cookie, pg, env);
      t.saved == s.saved && t.borrow == s.borrow
  {
  }
}

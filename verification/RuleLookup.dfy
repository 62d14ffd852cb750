/**
 * Verdicts over hashed candidates agree with verdicts over whole rule lists, and the
 * guard for renames and hard links is exact (pe_sfs.c, pe_sandbox.c, pe_compare in pe.c).
 */
module RuleLookup {
  import opened Basics
  import opened Policy
  import Contexts
  import opened Processes
  import opened PathRules
  import opened PrefixHash
  import FileTree
  import Verdicts
  import Effects

  /** The numbers that pe_build_prefixhash gives to the rules of a block */
  function Entries(rules: seq<PathRule>, from: nat): (r: seq<Ent>)
    ensures |r| == |rules| && forall k | 0 <= k < |r| :: r[k] == Ent(from + k, rules[k])
  {
    seq(|rules|, k requires 0 <= k < |rules| => Ent(from + k, rules[k]))
  }

  function RulesOf(s: seq<Ent>): (r: seq<PathRule>)
    ensures |r| == |s| && forall k | 0 <= k < |r| :: r[k] == s[k].rule
  {
    seq(|s|, k requires 0 <= k < |s| => s[k].rule)
  }

  /** A rule of any other type makes the block unusable. */
  predicate Buildable(rules: seq<PathRule>) {
    forall r <- rules :: !r.OtherRule?
  }

  /** pe_build_prefixhash */
  method BuildHash(rules: seq<PathRule>) returns (h: HashTable?)
    ensures h == null <==> !Buildable(rules)
    ensures h != null ==> h.Valid() && fresh(h) && h.all == Entries(rules, 1) && h.tabsize == TableSize(|rules|)
  {
    var t := new HashTable(|rules|);
    for k := 0 to |rules|
      invariant t.Valid() && fresh(t) && fresh(t.tab) && t.all == Entries(rules[..k], 1)
      invariant forall j | 0 <= j < k :: !rules[j].OtherRule?
    {
      if rules[k].OtherRule? {
        return null;
      }
      t.Add(PrefixOf(rules[k]), rules[k], k + 1);
    }
    assert rules[..|rules|] == rules;
    return t;
  }

  /** The candidates for a path among the rules of a block */
  ghost function Candidates(rules: seq<PathRule>, path: Option<Path>): seq<PathRule> {
    RulesOf(Selected(Entries(rules, 1), TableSize(|rules|), path))
  }

  /** pe_sfs_getrules and pe_sb_getrules, given the rules of the block if there is one */
  ghost function Hashed(block: Option<seq<PathRule>>, path: Option<Path>): (r: Source)
    ensures !r.Skip?
  {
    match block
    case None => Rules([])
    case Some(rules) =>
      if !Buildable(rules) || (path.Some? && !Absolute(path.value)) then Failure else Rules(Candidates(rules, path))
  }

  /** The same without a hash */
  function Full(block: Option<seq<PathRule>>, path: Option<Path>): Source {
    match block
    case None => Rules([])
    case Some(rules) =>
      if !Buildable(rules) || (path.Some? && !Absolute(path.value)) then Failure else Rules(rules)
  }

  method GetRules(block: Option<seq<PathRule>>, path: Option<Path>) returns (src: Source)
    ensures src == Hashed(block, path)
  {
    if block.None? { return Rules([]); }
    var h := BuildHash(block.value);
    if h == null { return Failure; }
    var r := h.GetRules(path);
    if r.None? { return Failure; }
    return Rules(RulesOf(r.value));
  }

  // ------------------------------------------------------------------ hash refines scan

  predicate AllServed(rules: seq<PathRule>) {
    forall r <- rules :: Served(PrefixOf(r))
  }

  predicate BlockServed(block: Option<seq<PathRule>>) {
    block.Some? ==> AllServed(block.value)
  }

  predicate PathOk(path: Option<Path>) {
    path.Some? ==> Absolute(path.value)
  }

  /** A rule that is no candidate does not apply to the path. */
  lemma NotCandidate(size: nat, r: PathRule, path: Option<Path>)
    requires size > 0 && Served(PrefixOf(r)) && PathOk(path)
    requires !SlotUsed(size, path, RuleSlot(size, PrefixOf(r)))
    ensures !PrefixOk(r, path)
  {
    if PrefixOk(r, path) {
      Complete(size, PrefixOf(r), path);
    }
  }

  lemma RulesCons(e: Ent, s: seq<Ent>)
    ensures RulesOf([e] + s) == [e.rule] + RulesOf(s)
  {
    var a, b := RulesOf([e] + s), [e.rule] + RulesOf(s);
    assert |a| == |b|;
    forall k | 0 <= k < |a| ensures a[k] == b[k] {
    }
  }

  /** The first rule of a list and the first candidate */
  lemma FirstRule(all: seq<Ent>, size: nat, path: Option<Path>)
    requires size > 0 && all != []
    ensures RulesOf(all) == [all[0].rule] + RulesOf(all[1..])
    ensures var some, rest := RulesOf(Selected(all, size, path)), RulesOf(Selected(all[1..], size, path));
      some == if SlotUsed(size, path, RuleSlot(size, PrefixOf(all[0].rule))) then [all[0].rule] + rest else rest
  {
    hide SlotUsed;
    hide RuleSlot;
    hide RulesOf;
    var rest := Selected(all[1..], size, path);
    assert all == [all[0]] + all[1..];
    RulesCons(all[0], all[1..]);
    RulesCons(all[0], rest);
    assert [] + rest == rest;
    assert Selected(all, size, path)
        == (if SlotUsed(size, path, RuleSlot(size, PrefixOf(all[0].rule))) then [all[0]] else []) + rest;
  }

  lemma {:induction false} HashedScan(all: seq<Ent>, size: nat, ev: FileEvent, env: Contexts.Env, i: nat, s: SfsState)
    requires size > 0 && PathOk(ev.path) && forall e <- all :: Served(PrefixOf(e.rule))
    ensures SfsScan(RulesOf(Selected(all, size, ev.path)), ev, env, i, s) == SfsScan(RulesOf(all), ev, env, i, s)
    decreases |all|
  {
    hide SfsMatchOne;
    hide SlotUsed;
    hide Selected;
    if all == [] {
      assert Selected(all, size, ev.path) == [] by { NothingSelected(size, ev.path); }
    } else {
      var e := all[0];
      FirstRule(all, size, ev.path);
      hide RulesOf;
      var rest, tail := RulesOf(Selected(all[1..], size, ev.path)), RulesOf(all[1..]);
      assert ([e.rule] + rest)[1..] == rest && ([e.rule] + tail)[1..] == tail;
      var m := SfsMatchOne(e.rule, ev, env);
      if !SlotUsed(size, ev.path, RuleSlot(size, PrefixOf(e.rule))) {
        NotCandidate(size, e.rule, ev.path);
        NoMatchOutside(e.rule, ev, env);
      }
      HashedScan(all[1..], size, ev, env, i, s);
      if m.Some? {
        HashedScan(all[1..], size, ev, env, i, s.(log := Max(m.value.0.log, s.log)));
      }
    }
  }

  lemma NothingSelected(size: nat, path: Option<Path>)
    requires size > 0
    ensures Selected([], size, path) == []
  {
  }

  lemma NoMatchOutside(r: PathRule, ev: FileEvent, env: Contexts.Env)
    requires !PrefixOk(r, ev.path)
    ensures SfsMatchOne(r, ev, env).None? && !r.PlainDefault? && forall a :: !SbMatches(r, ev, a, env)
  {
  }

  lemma {:induction false} HashedSearch(all: seq<Ent>, size: nat, ev: FileEvent, a: Access, env: Contexts.Env,
                                        fallback: Option<PathRule>)
    requires size > 0 && PathOk(ev.path) && forall e <- all :: Served(PrefixOf(e.rule))
    requires fallback.Some? ==> fallback.value.PlainDefault?
    ensures SbSearch(RulesOf(Selected(all, size, ev.path)), ev, a, env, fallback)
            == SbSearch(RulesOf(all), ev, a, env, fallback)
    decreases |all|
  {
    hide SbMatches;
    hide SlotUsed;
    hide Selected;
    if all == [] {
      assert Selected(all, size, ev.path) == [] by { NothingSelected(size, ev.path); }
    } else {
      var e := all[0];
      FirstRule(all, size, ev.path);
      hide RulesOf;
      var rest, tail := RulesOf(Selected(all[1..], size, ev.path)), RulesOf(all[1..]);
      assert ([e.rule] + rest)[1..] == rest && ([e.rule] + tail)[1..] == tail;
      if !SlotUsed(size, ev.path, RuleSlot(size, PrefixOf(e.rule))) {
        NotCandidate(size, e.rule, ev.path);
        NoMatchOutside(e.rule, ev, env);
      }
      HashedSearch(all[1..], size, ev, a, env, fallback);
      if e.rule.PlainDefault? {
        HashedSearch(all[1..], size, ev, a, env, Some(e.rule));
      }
    }
  }

  lemma EntriesServed(rules: seq<PathRule>)
    requires AllServed(rules)
    ensures forall e <- Entries(rules, 1) :: Served(PrefixOf(e.rule))
    ensures RulesOf(Entries(rules, 1)) == rules
  {
    forall e | e in Entries(rules, 1) ensures e.rule in rules {
    }
  }

  lemma SfsPrioHashed(block: Option<seq<PathRule>>, ev: FileEvent, env: Contexts.Env, i: nat, s: SfsState)
    requires BlockServed(block)
    ensures SfsPrio(Hashed(block, ev.path), ev, env, i, s) == SfsPrio(Full(block, ev.path), ev, env, i, s)
  {
    if block.Some? && PathOk(ev.path) {
      EntriesServed(block.value);
      HashedScan(Entries(block.value, 1), TableSize(|block.value|), ev, env, i, s);
    }
  }

  /** The SFS verdict over the candidates is that over all rules, with rule id and log level. */
  lemma SfsHashIsScan(admin: Option<seq<PathRule>>, user: Option<seq<PathRule>>, ev: FileEvent, env: Contexts.Env)
    requires BlockServed(admin) && BlockServed(user)
    ensures DecideSfs(Hashed(admin, ev.path), Hashed(user, ev.path), ev, env)
         == DecideSfs(Full(admin, ev.path), Full(user, ev.path), ev, env)
  {
    var s := SfsState(None, 0, 0, 0, NoMatch);
    SfsPrioHashed(admin, ev, env, 0, s);
    SfsPrioHashed(user, ev, env, 1, SfsPrio(Full(admin, ev.path), ev, env, 0, s));
  }

  /** No rule has been evaluated yet. */
  const UNTOUCHED := SbState(UNSET, UNSET, UNSET, None)

  /** What the evaluation of a list without any match leaves: accesses that are not requested are allowed. */
  function Unmatched(ev: FileEvent): SbState {
    SbState(if Read in ev.amask then UNSET else UNSET.(decision := Some(Allow)),
            if Write in ev.amask then UNSET else UNSET.(decision := Some(Allow)),
            if Exec in ev.amask then UNSET else UNSET.(decision := Some(Allow)), Some(Allow))
  }

  /** States in which a priority can be entered */
  predicate Entered(s: SbState, ev: FileEvent) {
    || s == UNTOUCHED
    || (s.final.Some?
        && (s.final == Some(Allow) ==>
              && Mild(s.read, Read, ev) && Mild(s.write, Write, ev) && Mild(s.exec, Exec, ev)))
  }

  /** A partial result that has not stopped the evaluation */
  predicate Mild(r: Result, a: Access, ev: FileEvent) {
    r.decision != Some(Deny) && r.decision != Some(Ask) && (a !in ev.amask ==> r.decision == Some(Allow))
  }

  lemma EvaluateHashed(rules: seq<PathRule>, ev: FileEvent, env: Contexts.Env, i: nat, a: Access, res: Result)
    requires AllServed(rules) && PathOk(ev.path)
    ensures Evaluate(Candidates(rules, ev.path), ev, a, env, i, res) == Evaluate(rules, ev, a, env, i, res)
    ensures Candidates(rules, ev.path) == [] ==>
              Evaluate(rules, ev, a, env, i, res) == if a in ev.amask then res else res.(decision := Some(Allow))
  {
    EntriesServed(rules);
    HashedSearch(Entries(rules, 1), TableSize(|rules|), ev, a, env, None);
  }

  lemma SbPrioHashed(block: Option<seq<PathRule>>, ev: FileEvent, env: Contexts.Env, i: nat, s: SbState)
    requires BlockServed(block) && Entered(s, ev)
    ensures var h, f := SbPrio(Hashed(block, ev.path), ev, env, i, s), SbPrio(Full(block, ev.path), ev, env, i, s);
      && (h == f || (s == UNTOUCHED && h == s && f == Unmatched(ev)))
      && Entered(f, ev)
  {
    hide SbSearch;
    hide Buildable;
    hide Absolute;
    hide AllServed;
    if block.Some? && PathOk(ev.path) {
      EvaluateHashed(block.value, ev, env, i, Read, s.read);
      EvaluateHashed(block.value, ev, env, i, Write, s.write);
      EvaluateHashed(block.value, ev, env, i, Exec, s.exec);
      hide Candidates;
    }
  }

  /** It makes no difference whether an earlier list was empty or had no match. */
  lemma UnmatchedSame(src: Source, ev: FileEvent, env: Contexts.Env)
    ensures SbReply(SbPrio(src, ev, env, 1, UNTOUCHED)) == SbReply(SbPrio(src, ev, env, 1, Unmatched(ev)))
  {
  }

  /** The sandbox verdict over the candidates is that over all rules, with rule id and log level. */
  lemma SbHashIsScan(admin: Option<seq<PathRule>>, user: Option<seq<PathRule>>, ev: FileEvent, env: Contexts.Env)
    requires BlockServed(admin) && BlockServed(user)
    ensures DecideSb(Hashed(admin, ev.path), Hashed(user, ev.path), ev, env)
         == DecideSb(Full(admin, ev.path), Full(user, ev.path), ev, env)
  {
    SbPrioHashed(admin, ev, env, 0, UNTOUCHED);
    var h, f := SbPrio(Hashed(admin, ev.path), ev, env, 0, UNTOUCHED),
        SbPrio(Full(admin, ev.path), ev, env, 0, UNTOUCHED);
    SbPrioHashed(user, ev, env, 1, f);
    if h != f {
      SbPrioHashed(user, ev, env, 1, UNTOUCHED);
      UnmatchedSame(Full(user, ev.path), ev, env);
      UnmatchedSame(Hashed(user, ev.path), ev, env);
    }
    hide Evaluate;
    hide Hashed;
    hide Full;
  }

  // ------------------------------------------------------------------ which rules apply

  /** The SFS rules of a user */
  function SfsBlock(db: Db, uid: Uid, i: Prio): Option<seq<PathRule>> {
    var rs := GetRuleset(db, uid, i);
    if rs.None? || rs.value.sfs == [] || rs.value.sfs[0].pathRules == [] then None else Some(rs.value.sfs[0].pathRules)
  }

  /** The first block without applications; blocks for playgrounds apply to processes there only. */
  function DefaultBlock(chain: seq<Block>, pg: bool): Option<Block> {
    if chain == [] then None
    else if (pg || !chain[0].pgOnly) && chain[0].apps == [] then Some(chain[0])
    else DefaultBlock(chain[1..], pg)
  }

  /** The sandbox rules of a process: those of its context, unless it runs under another uid */
  function SbBlock(p: Option<Proc>, db: Db, uid: Uid, i: Prio): Option<seq<PathRule>> {
    if p.Some? && p.value.uid == uid then
      var c := p.value.prio[i].cur;
      if c.Some? && c.value.sb.Some? then Some(c.value.sb.value.pathRules) else None
    else
      var rs := GetRuleset(db, uid, i);
      var b := if rs.None? then None else DefaultBlock(rs.value.sb, p.Some? && p.value.pgid != 0);
      if b.None? then None else Some(b.value.pathRules)
  }

  /** A secure process may be exempt from SFS rules by its context. */
  predicate Exempt(p: Option<Proc>, i: Prio) {
    p.Some? && p.value.flags.secure && p.value.prio[i].cur.Some? && p.value.prio[i].cur.value.cr.Some?
    && p.value.prio[i].cur.value.cr.value.noSfs
  }

  /** Block k is the first one without applications that applies inside or outside a playground. */
  predicate FirstDefault(chain: seq<Block>, pg: bool, k: nat) {
    && k < |chain| && chain[k].apps == [] && (pg || !chain[k].pgOnly)
    && forall j | 0 <= j < k :: chain[j].apps != [] || (!pg && chain[j].pgOnly)
  }

  lemma {:induction false} DefaultBlockExactly(chain: seq<Block>, pg: bool, b: Block)
    ensures DefaultBlock(chain, pg) == Some(b) <==> exists k: nat :: FirstDefault(chain, pg, k) && chain[k] == b
  {
    if chain != [] {
      var rest := chain[1..];
      DefaultBlockExactly(rest, pg, b);
      assert forall j | 0 <= j < |rest| :: chain[j + 1] == rest[j];
      assert forall j | 0 < j < |chain| :: chain[j] == rest[j - 1];
      if k: nat :| FirstDefault(chain, pg, k) && chain[k] == b {
        assert k > 0 ==> FirstDefault(rest, pg, k - 1);
      }
      if (pg || !chain[0].pgOnly) && chain[0].apps == [] {
        assert FirstDefault(chain, pg, 0);
      } else if k: nat :| FirstDefault(rest, pg, k) && rest[k] == b {
        assert FirstDefault(chain, pg, k + 1);
      }
    }
  }

  /** A process under its own uid is judged by the sandbox block of its context: the first for its program. */
  lemma SandboxOfContext(p: Proc, db: Db, i: Prio, rs: Ruleset, ident: Ident, pg: bool, env: Contexts.Env)
    requires p.prio[i].cur.Some? && Contexts.Searched(p.prio[i].cur.value, rs, ident, p.uid, pg, env)
    ensures forall k: nat | Contexts.FirstApplies(rs.sb, k, ident, p.uid, pg, env) ::
              SbBlock(Some(p), db, p.uid, i) == Some(rs.sb[k].pathRules)
    ensures (forall b <- rs.sb :: !Contexts.BlockApplies(b, ident, p.uid, pg, env)) ==>
              SbBlock(Some(p), db, p.uid, i) == None
  {
    hide Contexts.BlockApplies;
  }

  /**
   * After an exec that may change the context, file events of the process are judged by the first sandbox
   * block of its user's ruleset that applies to the new program.
   */
  lemma SandboxAfterExec(s: Engine, e: Event, env: Contexts.Env, i: Prio, k: nat)
    requires e.ExecEv? && e.uid != NO_UID && GetRuleset(s.db, e.uid, i).Some?
    requires var p := Get(s.procs, e.cookie);
      p.None? || p.value.uid != e.uid || p.value.prio[i].cur.None?
      || Contexts.Permits(p.value.prio[i].cur.value, New, e.ident, e.uid, env)
    requires var pg := if Get(s.procs, e.cookie).Some? then Get(s.procs, e.cookie).value.pgid != 0 else e.pgid != 0;
      Contexts.FirstApplies(GetRuleset(s.db, e.uid, i).value.sb, k, e.ident, e.uid, pg, env)
    ensures var q := Get(Step(s, e, env).procs, e.cookie);
      q.Some? && SbBlock(q, s.db, e.uid, i) == Some(GetRuleset(s.db, e.uid, i).value.sb[k].pathRules)
  {
    Effects.ExecEffect(s, e, env);
    var at := Find(s.procs, e.cookie);
    var t := Step(s, e, env);
    var p := if at.Some? then s.procs[at.value] else NewProc(e.uid, e.cookie, NO_IDENT, e.pgid);
    var q := t.procs[if at.Some? then at.value else |s.procs|];
    ExecutedFind(s, t, e.cookie, at);
    hide Step;
    hide Find;
    hide Contexts.FirstApplies;
    hide Contexts.Searched;
    SandboxOfContext(q, s.db, i, GetRuleset(s.db, e.uid, i).value, e.ident, p.pgid != 0, env);
  }

  lemma ExecutedFind(s: Engine, t: Engine, cookie: Cookie, at: Option<nat>)
    requires at == Find(s.procs, cookie)
    requires at.Some? ==> Effects.OnlyAt(s.procs, t.procs, at.value) && t.procs[at.value].cookie == cookie
    requires at.None? ==> |t.procs| == |s.procs| + 1 && t.procs[..|s.procs|] == s.procs
                          && t.procs[|s.procs|].cookie == cookie
    ensures Find(t.procs, cookie) == Some(if at.Some? then at.value else |s.procs|)
  {
    hide Find;
    if at.None? {
      assert forall j | 0 <= j < |s.procs| :: t.procs[j] == s.procs[j];
    }
  }

  /** The SFS rules that a priority contributes for a file event */
  function SfsSource(p: Option<Proc>, db: Db, ev: FileEvent, i: Prio): Source {
    if Exempt(p, i) then Skip else Full(SfsBlock(db, ev.uid, i), ev.path)
  }

  /**
   * After an exec only a process that was executed securely can be exempt from SFS rules, and then it is
   * exempt exactly if the first context block that applies to the new program says so.
   */
  lemma ExemptAfterExec(s: Engine, e: Event, env: Contexts.Env, i: Prio, k: nat, ev: FileEvent)
    requires e.ExecEv? && e.uid != NO_UID && GetRuleset(s.db, e.uid, i).Some?
    requires var p := Get(s.procs, e.cookie);
      p.None? || p.value.uid != e.uid || p.value.prio[i].cur.None?
      || Contexts.Permits(p.value.prio[i].cur.value, New, e.ident, e.uid, env)
    requires var pg := if Get(s.procs, e.cookie).Some? then Get(s.procs, e.cookie).value.pgid != 0 else e.pgid != 0;
      Contexts.FirstApplies(GetRuleset(s.db, e.uid, i).value.ctx, k, e.ident, e.uid, pg, env)
    ensures var q := Get(Step(s, e, env).procs, e.cookie);
      SfsSource(q, s.db, ev, i).Skip? <==> e.secure && GetRuleset(s.db, e.uid, i).value.ctx[k].noSfs
  {
    hide Step;
    hide Find;
    hide Contexts.BlockApplies;
    hide Contexts.FirstApplies;
    hide Contexts.FirstOf;
    hide Contexts.Permits;
    hide SfsBlock;
    hide Full;
    Effects.ExecEffect(s, e, env);
    var at := Find(s.procs, e.cookie);
    var t := Step(s, e, env);
    var p := if at.Some? then s.procs[at.value] else NewProc(e.uid, e.cookie, NO_IDENT, e.pgid);
    var q := t.procs[if at.Some? then at.value else |s.procs|];
    ExecutedFind(s, t, e.cookie, at);
    FullIsNoSkip(SfsBlock(s.db, ev.uid, i), ev.path);
    var rs := GetRuleset(s.db, e.uid, i).value;
    assert Contexts.Searched(q.prio[i].cur.value, rs, e.ident, e.uid, p.pgid != 0, env);
    FirstIs(q.prio[i].cur.value.cr, rs.ctx, k, e.ident, e.uid, p.pgid != 0, env);
    hide GetRuleset;
  }

  lemma FullIsNoSkip(block: Option<seq<PathRule>>, path: Option<Path>)
    ensures !Full(block, path).Skip?
  {
  }

  lemma FirstIs(r: Option<Block>, chain: seq<Block>, k: nat, ident: Ident, uid: Uid, pg: bool, env: Contexts.Env)
    requires Contexts.FirstOf(r, chain, ident, uid, pg, env) && Contexts.FirstApplies(chain, k, ident, uid, pg, env)
    ensures r == Some(chain[k])
  {
    hide Contexts.BlockApplies;
  }

  /** Whoever is not exempt is judged by the first SFS block in the ruleset of the uid of the event. */
  lemma SfsSourceExactly(p: Option<Proc>, db: Db, ev: FileEvent, i: Prio, r: PathRule)
    requires !SfsSource(p, db, ev, i).Skip? && !SfsSource(p, db, ev, i).Failure?
    ensures r in SfsSource(p, db, ev, i).rules <==>
            exists rs :: GetRuleset(db, ev.uid, i) == Some(rs) && rs.sfs != [] && r in rs.sfs[0].pathRules
  {
    hide GetRuleset;
  }

  /** The sandbox rules that a priority contributes for a file event */
  function SbSource(p: Option<Proc>, db: Db, ev: FileEvent, i: Prio): Source {
    Full(SbBlock(p, db, ev.uid, i), ev.path)
  }

  /** The verdict of pe_handle_sfs on a file event, given how rules are looked up */
  ghost function Verdict(p: Option<Proc>, db: Db, ev: FileEvent, env: Contexts.Env,
                         source: (Option<seq<PathRule>>, Option<Path>) -> Source): Reply {
    var sfs := (i: Prio) => if Exempt(p, i) then Skip else source(SfsBlock(db, ev.uid, i), ev.path);
    var sb := (i: Prio) => source(SbBlock(p, db, ev.uid, i), ev.path);
    Merge(DecideSfs(sfs(0), sfs(1), ev, env), DecideSb(sb(0), sb(1), ev, env)).0
  }

  /** The rule loop of pe_decide_sfs */
  method ScanRules(rules: seq<PathRule>, ev: FileEvent, env: Contexts.Env, i: nat,
                   start: SfsState) returns (s: SfsState)
    ensures s == SfsScan(rules, ev, env, i, start)
  {
    s := start;
    for r := 0 to |rules|
      invariant SfsScan(rules, ev, env, i, start) == SfsScan(rules[r..], ev, env, i, s)
    {
      assert rules[r..][0] == rules[r] && rules[r..][1..] == rules[r + 1..];
      var m := SfsMatchOne(rules[r], ev, env);
      if m.None? { continue; }
      var (v, matched) := m.value;
      if v.log > s.log {
        s := s.(log := v.log);
      }
      if v.action.Continue? { continue; }
      return s.(decision := Some(v.action), ruleId := rules[r].id, prio := i, matched := matched);
    }
  }

  /** pe_decide_sfs for a tracked process or none */
  method DecideSfsEvent(p: Option<Proc>, db: Db, ev: FileEvent, env: Contexts.Env) returns (r: Reply)
    ensures var sfs := (i: Prio) => if Exempt(p, i) then Skip else Hashed(SfsBlock(db, ev.uid, i), ev.path);
      r == DecideSfs(sfs(0), sfs(1), ev, env)
    ensures BlockServed(SfsBlock(db, ev.uid, 0)) && BlockServed(SfsBlock(db, ev.uid, 1)) ==>
              Verdicts.SfsAnswer(SfsSource(p, db, ev, 0), SfsSource(p, db, ev, 1), ev, env, r)
  {
    hide Hashed;
    hide SfsScan;
    hide SfsBlock;
    hide Exempt;
    var s := SfsState(None, 0, 0, 0, NoMatch);
    ghost var sfs := (i: Prio) => if Exempt(p, i) then Skip else Hashed(SfsBlock(db, ev.uid, i), ev.path);
    var i := 0;
    while i < PRIOS
      invariant i <= PRIOS
      invariant SfsPrio(sfs(1), ev, env, 1, SfsPrio(sfs(0), ev, env, 0, SfsState(None, 0, 0, 0, NoMatch)))
             == if i == 0 then SfsPrio(sfs(1), ev, env, 1, SfsPrio(sfs(0), ev, env, 0, s))
                else if i == 1 then SfsPrio(sfs(1), ev, env, 1, s) else s
      invariant s.decision.None? || s.decision == Some(Allow) || i == PRIOS
    {
      if !Exempt(p, i) {
        var src := GetRules(SfsBlock(db, ev.uid, i), ev.path);
        if src.Failure? {
          s := s.(decision := Some(Deny));
          break;
        }
        s := ScanRules(src.rules, ev, env, i, s);
        if s.decision.Some? && s.decision != Some(Allow) { break; }
      }
      i := i + 1;
    }
    r := Reply(s.decision == Some(Deny), s.decision == Some(Ask), s.log, s.ruleId, s.prio, s.matched);
    if BlockServed(SfsBlock(db, ev.uid, 0)) && BlockServed(SfsBlock(db, ev.uid, 1)) {
      SfsSourceSame(p, db, ev, env);
      Verdicts.SfsExactly(SfsSource(p, db, ev, 0), SfsSource(p, db, ev, 1), ev, env, r);
    }
    hide Verdicts.SfsAnswer;
    hide SfsSource;
    hide BlockServed;
  }

  lemma SfsSourceSame(p: Option<Proc>, db: Db, ev: FileEvent, env: Contexts.Env)
    requires BlockServed(SfsBlock(db, ev.uid, 0)) && BlockServed(SfsBlock(db, ev.uid, 1))
    ensures var sfs := (i: Prio) => if Exempt(p, i) then Skip else Hashed(SfsBlock(db, ev.uid, i), ev.path);
      DecideSfs(sfs(0), sfs(1), ev, env) == DecideSfs(SfsSource(p, db, ev, 0), SfsSource(p, db, ev, 1), ev, env)
  {
    hide SfsBlock;
    hide Hashed;
    hide Full;
    hide SfsScan;
    var s := SfsState(None, 0, 0, 0, NoMatch);
    SfsPrioHashed(SfsBlock(db, ev.uid, 0), ev, env, 0, s);
    SfsPrioHashed(SfsBlock(db, ev.uid, 1), ev, env, 1, SfsPrio(SfsSource(p, db, ev, 0), ev, env, 0, s));
  }

  /** pe_sb_evaluate */
  method EvaluateRules(rules: seq<PathRule>, ev: FileEvent, a: Access, env: Contexts.Env, i: nat,
                       res: Result) returns (r: Result)
    ensures r == Evaluate(rules, ev, a, env, i, res)
    ensures Verdicts.Partial(rules, ev, a, env, i, res, r)
  {
    Verdicts.EvaluateAnswer(rules, ev, a, env, i, res);
    hide Verdicts.Partial;
    if a !in ev.amask {
      return res.(decision := Some(Allow));
    }
    var found: Option<PathRule> := None;
    for k := 0 to |rules|
      invariant found.Some? ==> found.value.PlainDefault?
      invariant SbSearch(rules, ev, a, env, None) == SbSearch(rules[k..], ev, a, env, found)
    {
      assert rules[k..][0] == rules[k] && rules[k..][1..] == rules[k + 1..];
      if rules[k].PlainDefault? {
        if found.None? {
          found := Some(rules[k]);
        }
        continue;
      }
      if SbMatches(rules[k], ev, a, env) {
        return Result(Some(rules[k].verdict.action), Max(rules[k].verdict.log, res.log), rules[k].id, i);
      }
    }
    if found.None? {
      return res;
    }
    return Result(Some(found.value.verdict.action), Max(found.value.verdict.log, res.log), found.value.id, i);
  }

  /** One round of the priority loop of pe_decide_sandbox */
  method EvaluatePrio(block: Option<seq<PathRule>>, ev: FileEvent, env: Contexts.Env, i: nat,
                      s: SbState) returns (t: SbState)
    requires s.final.None? || s.final == Some(Allow)
    ensures t == SbPrio(Hashed(block, ev.path), ev, env, i, s)
  {
    hide Hashed;
    var src := GetRules(block, ev.path);
    if src.Failure? {
      return s.(final := Some(Deny));
    }
    if src.rules == [] {
      return s;
    }
    var read := EvaluateRules(src.rules, ev, Read, env, i, s.read);
    var write := EvaluateRules(src.rules, ev, Write, env, i, s.write);
    var exec := EvaluateRules(src.rules, ev, Exec, env, i, s.exec);
    var decisions := [read.decision, write.decision, exec.decision];
    var final := s.final;
    for j := 0 to 3
      invariant final == (if j == 0 then s.final
                          else if j == 1 then Combine(s.final, decisions[0])
                          else if j == 2 then Combine(Combine(s.final, decisions[0]), decisions[1])
                          else Combine(Combine(Combine(s.final, decisions[0]), decisions[1]), decisions[2]))
      invariant final != Some(Deny)
    {
      if decisions[j] == Some(Deny) {
        final := Some(Deny);
        break;
      } else if decisions[j] == Some(Ask) {
        final := Some(Ask);
      } else if final.None? {
        final := Some(Allow);
      }
    }
    return SbState(read, write, exec, final);
  }

  /** pe_decide_sandbox for a tracked process or none */
  method DecideSbEvent(p: Option<Proc>, db: Db, ev: FileEvent, env: Contexts.Env) returns (r: Reply)
    ensures r == DecideSb(Hashed(SbBlock(p, db, ev.uid, 0), ev.path), Hashed(SbBlock(p, db, ev.uid, 1), ev.path), ev,
            env)
    ensures BlockServed(SbBlock(p, db, ev.uid, 0)) && BlockServed(SbBlock(p, db, ev.uid, 1)) ==>
              Verdicts.SbAnswer(SbSource(p, db, ev, 0), SbSource(p, db, ev, 1), ev, env, r)
  {
    hide Hashed;
    hide SbBlock;
    hide Evaluate;
    hide Combine;
    var s := UNTOUCHED;
    s := EvaluatePrio(SbBlock(p, db, ev.uid, 0), ev, env, 0, s);
    if s.final.None? || s.final == Some(Allow) {
      s := EvaluatePrio(SbBlock(p, db, ev.uid, 1), ev, env, 1, s);
    }
    r := SbReply(s);
    if BlockServed(SbBlock(p, db, ev.uid, 0)) && BlockServed(SbBlock(p, db, ev.uid, 1)) {
      SbHashIsScan(SbBlock(p, db, ev.uid, 0), SbBlock(p, db, ev.uid, 1), ev, env);
      Verdicts.SbExactly(SbSource(p, db, ev, 0), SbSource(p, db, ev, 1), ev, env, r);
    }
    hide Verdicts.SbAnswer;
    hide SbPrio;
    hide SbReply;
    hide BlockServed;
  }

  // ------------------------------------------------------------------ renames and hard links

  /** A rename or hard link with its two paths */
  datatype PathPair = PathPair(cookie: Cookie, from: Path, to: Path, now: nat)

  /** The rule applies to exactly one of the two paths. */
  predicate Separates(r: PathRule, e: PathPair) {
    && InScope(r.scope, e.cookie, e.now)
    && PrefixOf(r).Some?
    && (Under(PrefixOf(r).value, e.from) <==> !Under(PrefixOf(r).value, e.to))
  }

  datatype Guard = Allowed | CrossDevice | InvalidPath

  /** pe_compare_path for the rules found for one path */
  function CompareList(src: Source, e: PathPair): Guard {
    match src
    case Skip => Allowed
    case Failure => InvalidPath
    case Rules(rules) => if exists r <- rules :: Separates(r, e) then CrossDevice else Allowed
  }

  /** The loop of pe_compare: for each block both paths are looked up; blocks are sandbox and SFS, admin and user. */
  ghost function Compare(blocks: seq<Option<seq<PathRule>>>, e: PathPair): Guard {
    if blocks == [] then Allowed
    else
      var first := CompareList(Hashed(blocks[0], Some(e.from)), e);
      var second := CompareList(Hashed(blocks[0], Some(e.to)), e);
      if !first.Allowed? then first else if !second.Allowed? then second else Compare(blocks[1..], e)
  }

  /** pe_compare_path */
  method ComparePath(rules: seq<PathRule>, e: PathPair) returns (r: Guard)
    ensures r == CompareList(Rules(rules), e)
  {
    for i := 0 to |rules|
      invariant forall k | 0 <= k < i :: !Separates(rules[k], e)
    {
      if !InScope(rules[i].scope, e.cookie, e.now) { continue; }
      var prefix := PrefixOf(rules[i]);
      if prefix.None? { continue; }
      var a, b := Under(prefix.value, e.from), Under(prefix.value, e.to);
      if a != b {
        assert Separates(rules[i], e);
        return CrossDevice;
      }
    }
    return Allowed;
  }

  /** One of the eight rounds of pe_compare */
  method CompareRound(block: Option<seq<PathRule>>, path: Path, e: PathPair) returns (r: Guard)
    ensures r == CompareList(Hashed(block, Some(path)), e)
  {
    hide Hashed;
    var src := GetRules(block, Some(path));
    if src.Failure? { return InvalidPath; }
    r := ComparePath(src.rules, e);
  }

  /** pe_compare */
  method CompareBlocks(blocks: seq<Option<seq<PathRule>>>, e: PathPair) returns (r: Guard)
    ensures r == Compare(blocks, e)
  {
    for b := 0 to |blocks|
      invariant Compare(blocks, e) == Compare(blocks[b..], e)
    {
      assert blocks[b..][0] == blocks[b] && blocks[b..][1..] == blocks[b + 1..];
      r := CompareRound(blocks[b], e.from, e);
      if !r.Allowed? { return; }
      r := CompareRound(blocks[b], e.to, e);
      if !r.Allowed? { return; }
    }
    return Allowed;
  }

  predicate Usable(blocks: seq<Option<seq<PathRule>>>) {
    forall b <- blocks :: b.Some? ==> Buildable(b.value) && AllServed(b.value)
  }

  lemma CandidateIn(rules: seq<PathRule>, path: Option<Path>, r: PathRule)
    requires r in rules && SlotUsed(TableSize(|rules|), path, RuleSlot(TableSize(|rules|), PrefixOf(r)))
    ensures r in Candidates(rules, path)
  {
    hide SlotUsed;
    var k :| 0 <= k < |rules| && rules[k] == r;
    var all := Entries(rules, 1);
    assert all[k] in all;
    var found := Selected(all, TableSize(|rules|), path);
    assert all[k] in found;
    var j :| 0 <= j < |found| && found[j] == all[k];
    assert RulesOf(found)[j] == r;
  }

  lemma CandidateOf(rules: seq<PathRule>, path: Option<Path>, r: PathRule)
    requires r in Candidates(rules, path)
    ensures r in rules
  {
    hide SlotUsed;
    var all := Entries(rules, 1);
    var found := Selected(all, TableSize(|rules|), path);
    var j :| 0 <= j < |found| && RulesOf(found)[j] == r;
    assert found[j] in all;
    var k :| 0 <= k < |all| && all[k] == found[j];
  }

  /** A rule that separates the paths applies to one of them and is a candidate for that one. */
  lemma SeparatingFound(rules: seq<PathRule>, e: PathPair)
    requires AllServed(rules) && Absolute(e.from) && Absolute(e.to)
    ensures (exists r <- rules :: Separates(r, e)) <==>
              (exists r <- Candidates(rules, Some(e.from)) :: Separates(r, e))
              || (exists r <- Candidates(rules, Some(e.to)) :: Separates(r, e))
  {
    hide Candidates;
    hide SlotUsed;
    hide Served;
    hide Under;
    if r :| r in rules && Separates(r, e) {
      var path := Some(if Under(PrefixOf(r).value, e.from) then e.from else e.to);
      Complete(TableSize(|rules|), PrefixOf(r), path);
      CandidateIn(rules, path, r);
    }
    forall path: Option<Path>, r | r in Candidates(rules, path) ensures r in rules {
      CandidateOf(rules, path, r);
    }
  }

  /**
   * The guard is exact: a rename is allowed if and only if every rule with a prefix that is in
   * scope, of either priority and subsystem, applies to both paths or to neither.
   */
  lemma {:induction false} GuardExact(blocks: seq<Option<seq<PathRule>>>, e: PathPair)
    requires Usable(blocks) && Absolute(e.from) && Absolute(e.to)
    ensures Compare(blocks, e) == Allowed <==> forall b <- blocks :: b.Some? ==> forall r <- b.value :: !Separates(r, e)
    ensures Compare(blocks, e) == Allowed || Compare(blocks, e) == CrossDevice
  {
    hide Separates;
    if blocks != [] {
      GuardExact(blocks[1..], e);
      var b := blocks[0];
      assert b in blocks && forall c :: c in blocks <==> c == b || c in blocks[1..];
      if b.Some? {
        SeparatingFound(b.value, e);
        hide Candidates;
      }
    }
  }

  /** A rule that looks at the path only */
  predicate PrefixOnly(r: PathRule) {
    r.SfsDefault? || r.PlainDefault? || (r.SbAccess? && r.subject.NoSubject?)
  }

  /** The same event on the other path */
  function Moved(ev: FileEvent, path: Path): FileEvent {
    ev.(path := Some(path))
  }

  lemma {:induction false} SameScan(rules: seq<PathRule>, e: PathPair, ev: FileEvent, env: Contexts.Env, i: nat,
                                    s: SfsState)
    requires ev.cookie == e.cookie && ev.now == e.now
    requires forall r <- rules :: PrefixOnly(r) && !Separates(r, e)
    ensures SfsScan(rules, Moved(ev, e.from), env, i, s) == SfsScan(rules, Moved(ev, e.to), env, i, s)
    decreases |rules|
  {
    hide Under;
    if rules != [] {
      assert rules[0] in rules && forall r <- rules[1..] :: r in rules;
      var m := SfsMatchOne(rules[0], Moved(ev, e.from), env);
      assert m == SfsMatchOne(rules[0], Moved(ev, e.to), env);
      SameScan(rules[1..], e, ev, env, i, s);
      if m.Some? {
        SameScan(rules[1..], e, ev, env, i, s.(log := Max(m.value.0.log, s.log)));
      }
    }
  }

  lemma {:induction false} SameSearch(rules: seq<PathRule>, e: PathPair, ev: FileEvent, a: Access, env: Contexts.Env,
                                      fallback: Option<PathRule>)
    requires ev.cookie == e.cookie && ev.now == e.now
    requires forall r <- rules :: PrefixOnly(r) && !Separates(r, e)
    requires fallback.Some? ==> fallback.value.PlainDefault?
    ensures SbSearch(rules, Moved(ev, e.from), a, env, fallback) == SbSearch(rules, Moved(ev, e.to), a, env, fallback)
    decreases |rules|
  {
    hide Under;
    if rules != [] {
      assert rules[0] in rules && forall r <- rules[1..] :: r in rules;
      assert SbMatches(rules[0], Moved(ev, e.from), a, env) == SbMatches(rules[0], Moved(ev, e.to), a, env);
      SameSearch(rules[1..], e, ev, a, env, fallback);
      if rules[0].PlainDefault? {
        SameSearch(rules[1..], e, ev, a, env, Some(rules[0]));
      }
    }
  }

  lemma SamePrio(block: Option<seq<PathRule>>, e: PathPair, ev: FileEvent, env: Contexts.Env, i: nat, s: SfsState,
                 t: SbState)
    requires ev.cookie == e.cookie && ev.now == e.now && Absolute(e.from) && Absolute(e.to)
    requires block.Some? ==> forall r <- block.value :: PrefixOnly(r) && !Separates(r, e)
    ensures SfsPrio(Full(block, Some(e.from)), Moved(ev, e.from), env, i, s)
            == SfsPrio(Full(block, Some(e.to)), Moved(ev, e.to), env, i, s)
    ensures SbPrio(Full(block, Some(e.from)), Moved(ev, e.from), env, i, t)
            == SbPrio(Full(block, Some(e.to)), Moved(ev, e.to), env, i, t)
  {
    if block.Some? {
      SameScan(block.value, e, ev, env, i, s);
      SameSearch(block.value, e, ev, Read, env, None);
      SameSearch(block.value, e, ev, Write, env, None);
      SameSearch(block.value, e, ev, Exec, env, None);
      hide SfsScan;
      hide SbSearch;
    }
  }

  /** pe_compare looks at these rules. */
  function GuardBlocks(p: Option<Proc>, db: Db, uid: Uid): seq<Option<seq<PathRule>>> {
    [SbBlock(p, db, uid, 0), SbBlock(p, db, uid, 1), SfsBlock(db, uid, 0), SfsBlock(db, uid, 1)]
  }

  /** An allowed rename does not change the verdict on any access, as long as rules look at the path only. */
  lemma AllowedRenameKeepsVerdict(p: Option<Proc>, db: Db, e: PathPair, ev: FileEvent, env: Contexts.Env)
    requires Absolute(e.from) && Absolute(e.to) && ev.cookie == e.cookie && ev.now == e.now
    requires var blocks := GuardBlocks(p, db, ev.uid);
      && Usable(blocks) && Compare(blocks, e) == Allowed
      && forall b <- blocks :: b.Some? ==> forall r <- b.value :: PrefixOnly(r)
    ensures Verdict(p, db, Moved(ev, e.from), env, Hashed) == Verdict(p, db, Moved(ev, e.to), env, Hashed)
  {
    hide DecideSfs;
    hide DecideSb;
    hide Hashed;
    hide SfsBlock;
    hide SbBlock;
    hide Separates;
    var blocks := GuardBlocks(p, db, ev.uid);
    GuardExact(blocks, e);
    assert forall k | 0 <= k < 4 :: blocks[k] in blocks;
    SfsSame(p, db, e, ev, env);
    SbSame(p, db, e, ev, env);
  }

  lemma SbSame(p: Option<Proc>, db: Db, e: PathPair, ev: FileEvent, env: Contexts.Env)
    requires Absolute(e.from) && Absolute(e.to) && ev.cookie == e.cookie && ev.now == e.now
    requires forall i: Prio :: var b := SbBlock(p, db, ev.uid, i);
      BlockServed(b) && (b.Some? ==> forall r <- b.value :: PrefixOnly(r) && !Separates(r, e))
    ensures DecideSb(Hashed(SbBlock(p, db, ev.uid, 0), Some(e.from)), Hashed(SbBlock(p, db, ev.uid, 1), Some(e.from)),
                     Moved(ev, e.from), env)
         == DecideSb(Hashed(SbBlock(p, db, ev.uid, 0), Some(e.to)), Hashed(SbBlock(p, db, ev.uid, 1), Some(e.to)),
                     Moved(ev, e.to), env)
  {
    hide Hashed;
    hide Full;
    hide SbBlock;
    hide SbPrio;
    var a, b := SbBlock(p, db, ev.uid, 0), SbBlock(p, db, ev.uid, 1);
    SbHashIsScan(a, b, Moved(ev, e.from), env);
    SbHashIsScan(a, b, Moved(ev, e.to), env);
    var s := SfsState(None, 0, 0, 0, NoMatch);
    SamePrio(a, e, ev, env, 0, s, UNTOUCHED);
    SamePrio(b, e, ev, env, 1, s, SbPrio(Full(a, Some(e.from)), Moved(ev, e.from), env, 0, UNTOUCHED));
  }

  lemma SfsSame(p: Option<Proc>, db: Db, e: PathPair, ev: FileEvent, env: Contexts.Env)
    requires Absolute(e.from) && Absolute(e.to) && ev.cookie == e.cookie && ev.now == e.now
    requires forall i: Prio :: var b := SfsBlock(db, ev.uid, i);
      BlockServed(b) && (b.Some? ==> forall r <- b.value :: PrefixOnly(r) && !Separates(r, e))
    ensures var from, to := (i: Prio) => if Exempt(p, i) then Skip else Hashed(SfsBlock(db, ev.uid, i), Some(e.from)),
                            (i: Prio) => if Exempt(p, i) then Skip else Hashed(SfsBlock(db, ev.uid, i), Some(e.to));
      DecideSfs(from(0), from(1), Moved(ev, e.from), env) == DecideSfs(to(0), to(1), Moved(ev, e.to), env)
  {
    hide Hashed;
    hide Full;
    hide SfsBlock;
    hide Exempt;
    hide SfsScan;
    var a, b := SfsBlock(db, ev.uid, 0), SfsBlock(db, ev.uid, 1);
    var s := SfsState(None, 0, 0, 0, NoMatch);
    PrioMoved(a, e, ev, env, 0, s);
    var t := if Exempt(p, 0) then s else SfsPrio(Hashed(a, Some(e.from)), Moved(ev, e.from), env, 0, s);
    PrioMoved(b, e, ev, env, 1, t);
  }

  lemma PrioMoved(block: Option<seq<PathRule>>, e: PathPair, ev: FileEvent, env: Contexts.Env, i: nat, s: SfsState)
    requires Absolute(e.from) && Absolute(e.to) && ev.cookie == e.cookie && ev.now == e.now
    requires BlockServed(block) && (block.Some? ==> forall r <- block.value :: PrefixOnly(r) && !Separates(r, e))
    ensures SfsPrio(Hashed(block, Some(e.from)), Moved(ev, e.from), env, i, s)
         == SfsPrio(Hashed(block, Some(e.to)), Moved(ev, e.to), env, i, s)
  {
    hide SfsPrio;
    SfsPrioHashed(block, Moved(ev, e.from), env, i, s);
    SfsPrioHashed(block, Moved(ev, e.to), env, i, s);
    SamePrio(block, e, ev, env, i, s, UNTOUCHED);
  }

  /** The merged verdict on a file event is the same with and without the hash. */
  lemma VerdictHashIsScan(p: Option<Proc>, db: Db, ev: FileEvent, env: Contexts.Env)
    requires forall i: Prio :: BlockServed(SfsBlock(db, ev.uid, i)) && BlockServed(SbBlock(p, db, ev.uid, i))
    ensures Verdict(p, db, ev, env, Hashed) == Verdict(p, db, ev, env, Full)
  {
    hide SfsBlock;
    hide SbBlock;
    hide SfsPrio;
    hide DecideSb;
    hide Merge;
    var a, b := SfsBlock(db, ev.uid, 0), SfsBlock(db, ev.uid, 1);
    var s := SfsState(None, 0, 0, 0, NoMatch);
    SfsPrioHashed(a, ev, env, 0, s);
    SfsPrioHashed(b, ev, env, 1, if Exempt(p, 0) then SfsPrio(Skip, ev, env, 0, s)
        else SfsPrio(Full(a, ev.path), ev, env, 0, s));
    SbHashIsScan(SbBlock(p, db, ev.uid, 0), SbBlock(p, db, ev.uid, 1), ev, env);
    hide Hashed;
    hide Full;
  }

  /** The prefix "/a/" applies to "/a/b", but in a table of ten slots no string that is looked up leads to it. */
  lemma TrailingSlashIsMissed()
    ensures exists rule: PathRule, path: Path, ev: FileEvent, env: Contexts.Env ::
              && Absolute(path) && ev.path == Some(path) && !Served(PrefixOf(rule))
              && DecideSfs(Full(Some([rule]), ev.path), Rules([]), ev, env).deny
              && !DecideSfs(Hashed(Some([rule]), ev.path), Rules([]), ev, env).deny
  {
    var path: Path, prefix: Path := [47, 97, 47, 98], [47, 97, 47];
    SlotValues();
    MissedSlot(path, prefix);
    var rule := SfsDefault(1, None, Some(prefix), Policy.Verdict(Deny, 0));
    var ev := FileEvent(1, 1, Some(path), [], {}, false, false, 0);
    var env := Contexts.Env(map[], map[], map[]);
    assert Trim(prefix) == [47, 97] by { assert prefix[..2] == [47, 97]; }
    assert path[..2] == [47, 97];
    assert Under(prefix, path);
    assert SfsMatchOne(rule, ev, env) == Some((rule.verdict, ByDefault));
    var found := Selected(Entries([rule], 1), TableSize(1), Some(path));
    assert Entries([rule], 1) == [Ent(1, rule)];
    OnlyMissed(Ent(1, rule), 10, Some(path));
    assert Candidates([rule], ev.path) == [] && Hashed(Some([rule]), ev.path) == Rules([]);
    assert DecideSfs(Full(Some([rule]), ev.path), Rules([]), ev, env).deny;
    assert !DecideSfs(Rules([]), Rules([]), ev, env).deny;
    assert Absolute(path) && ev.path == Some(path) && !Served(PrefixOf(rule));
  }

  lemma OnlyMissed(e: Ent, size: nat, path: Option<Path>)
    requires size > 0 && !SlotUsed(size, path, RuleSlot(size, PrefixOf(e.rule)))
    ensures Selected([e], size, path) == []
  {
    hide SlotUsed;
    assert [e][1..] == [];
  }

  lemma MissedSlot(path: Path, prefix: Path)
    requires path == [47, 97, 47, 98] && prefix == [47, 97, 47]
    requires SlotOf(10, prefix) != SlotOf(10, []) && SlotOf(10, prefix) != SlotOf(10, path)
    requires SlotOf(10, prefix) != SlotOf(10, [47]) && SlotOf(10, prefix) != SlotOf(10, [47, 97])
    ensures !SlotUsed(10, Some(path), SlotOf(10, prefix))
  {
    assert path[..0] == [] && path[..1] == [47] && path[..2] == [47, 97];
    forall s: Path | LookedUp(Some(path), s) ensures s == [] || s == path || s == [47] || s == [47, 97] {
      if s <= path && |s| < |path| && path[|s|] == SLASH {
        assert |s| == 0 || |s| == 2;
        assert s == path[..|s|];
      }
    }
  }

  lemma SlotValues()
    ensures SlotOf(10, []) == 0 && SlotOf(10, [47]) == 7 && SlotOf(10, [47, 97]) == 3
    ensures SlotOf(10, [47, 97, 47]) == 1 && SlotOf(10, [47, 97, 47, 98]) == 2
  {
    FileTree.HashPush([], 47);
    FileTree.HashPush([47], 97);
    FileTree.HashPush([47, 97], 47);
    FileTree.HashPush([47, 97, 47], 98);
    MixValues();
    hide FileTree.Mix;
    assert [] + [47] == [47] && [47] + [97] == [47, 97] && [47, 97] + [47] == [47, 97, 47];
    assert [47, 97, 47] + [98] == [47, 97, 47, 98];
    IndexValues();
  }

  lemma MixValues()
    ensures FileTree.Mix(0, 47) == 47 && FileTree.Mix(47, 97) == 63 && FileTree.Mix(63, 47) == 81
            && FileTree.Mix(81, 98) == 192
  {
  }

  lemma IndexValues()
    ensures FileTree.ToIndex(0) == 0 && FileTree.ToIndex(47) == 47 && FileTree.ToIndex(63) == 63
    ensures FileTree.ToIndex(81) == 81 && FileTree.ToIndex(192) == 192
  {
  }
}

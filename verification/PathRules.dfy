/**
 * SFS and sandbox rules for one file event: matching, the verdicts of both subsystems
 * and their merge (pe_sfs.c, pe_sandbox.c, reply_merge in pe.c).
 */
module PathRules {
  import opened Basics
  import opened Policy
  import Contexts

  const SLASH: byte := 47

  // ------------------------------------------------------------------ matching

  /** The prefix of a rule, if it has one */
  function PrefixOf(r: PathRule): Option<Path> {
    match r
    case SfsAccess(_, _, path, _, _, _, _) => path
    case SfsDefault(_, _, path, _) => path
    case SbAccess(_, _, path, _, _, _) => path
    case PlainDefault(_, _, _) => None
    case OtherRule(_, _) => None
  }

  /** Trailing slashes of a prefix are ignored. */
  function Trim(prefix: Path): (r: Path)
    ensures r <= prefix && (r == [] || r[|r| - 1] != SLASH)
    ensures forall k | |r| <= k < |prefix| :: prefix[k] == SLASH
  {
    if prefix == [] || prefix[|prefix| - 1] != SLASH then prefix else Trim(prefix[..|prefix| - 1])
  }

  predicate Absolute(path: Path) {
    path != [] && path[0] == SLASH
  }

  /** strncmp over the trimmed prefix, which must end at a component boundary */
  predicate Under(prefix: Path, path: Path) {
    var p := Trim(prefix);
    p <= path && (|path| == |p| || path[|p|] == SLASH)
  }

  predicate PrefixOk(r: PathRule, path: Option<Path>) {
    PrefixOf(r).Some? ==> path.Some? && Under(PrefixOf(r).value, path.value)
  }

  /** pe_in_scope */
  predicate InScope(scope: Option<Scope>, task: Cookie, now: nat) {
    match scope
    case None => true
    case Some(s) => !(s.timeout != 0 && now > s.timeout) && !(s.task != 0 && task != s.task)
  }

  /** struct pe_file_event; a missing checksum is empty. */
  datatype FileEvent = FileEvent(cookie: Cookie, uid: Uid, path: Option<Path>, csum: Bytes, amask: set<Access>,
                                 touched: bool, writeOk: bool, now: nat)

  /** The checksum registered for the file, as the cache reports it */
  function Registered(s: Subject, ev: FileEvent, env: Contexts.Env): Option<Bytes> {
    if ev.path.None? then None
    else
      match s
      case NoSubject => None
      case OfUid(u) => Contexts.Lookup(env.byUid, (ev.path.value, u))
      case UidSelf => Contexts.Lookup(env.byUid, (ev.path.value, ev.uid))
      case OfKey(k) => Contexts.Lookup(env.byKey, (ev.path.value, k))
      case KeySelf =>
        if ev.uid in env.keyOf then Contexts.Lookup(env.byKey, (ev.path.value, env.keyOf[ev.uid])) else None
  }

  datatype SfsMatch = NoMatch | ByDefault | Unknown | Invalid | Valid

  /** The last part of pe_sfs_match_one: compare checksums. */
  function SumMatch(s: Subject, ev: FileEvent, env: Contexts.Env): SfsMatch {
    var sum := Registered(s, ev, env);
    if sum.None? || sum.value == [] then Unknown
    else if ev.touched && (|ev.csum| == CS_LEN || ev.writeOk) then Valid
    else if |ev.csum| != CS_LEN || sum.value != ev.csum then Invalid
    else Valid
  }

  /** pe_sfs_match_one */
  function SfsMatchOne(r: PathRule, ev: FileEvent, env: Contexts.Env): Option<(Verdict, SfsMatch)> {
    if !InScope(r.scope, ev.cookie, ev.now) || !(r.SfsAccess? || r.SfsDefault?) || !PrefixOk(r, ev.path) then None
    else if r.SfsDefault? then Some((r.verdict, ByDefault))
    else
      match SumMatch(r.subject, ev, env)
      case Valid => Some((r.valid, Valid))
      case Invalid => Some((r.invalid, Invalid))
      case _ => Some((r.unknown, Unknown))
  }

  function Max(a: nat, b: nat): nat {
    if a < b then b else a
  }

  // ------------------------------------------------------------------ SFS verdict

  /** The local variables of pe_decide_sfs; no decision is -1. */
  datatype SfsState = SfsState(decision: Option<Action>, log: nat, ruleId: nat, prio: nat, matched: SfsMatch)

  /** The rules that one priority contributes: none, an error, or a list. */
  datatype Source = Skip | Failure | Rules(rules: seq<PathRule>)

  /** The rule loop for priority i */
  function SfsScan(rules: seq<PathRule>, ev: FileEvent, env: Contexts.Env, i: nat, s: SfsState): SfsState {
    if rules == [] then s
    else
      match SfsMatchOne(rules[0], ev, env)
      case None => SfsScan(rules[1..], ev, env, i, s)
      case Some((v, m)) =>
        var t := s.(log := Max(v.log, s.log));
        if v.action.Continue? then SfsScan(rules[1..], ev, env, i, t)
        else t.(decision := Some(v.action), ruleId := rules[0].id, prio := i, matched := m)
  }

  /** One priority, unless an earlier one has already stopped the evaluation */
  function SfsPrio(src: Source, ev: FileEvent, env: Contexts.Env, i: nat, s: SfsState): SfsState {
    if s.decision.Some? && s.decision != Some(Allow) then s
    else
      match src
      case Skip => s
      case Failure => s.(decision := Some(Deny))
      case Rules(rules) => SfsScan(rules, ev, env, i, s)
  }

  /** struct anoubisd_reply */
  datatype Reply = Reply(deny: bool, ask: bool, log: nat, ruleId: nat, prio: nat, matched: SfsMatch)

  /** pe_decide_sfs */
  function DecideSfs(admin: Source, user: Source, ev: FileEvent, env: Contexts.Env): Reply {
    var s := SfsPrio(user, ev, env, 1, SfsPrio(admin, ev, env, 0, SfsState(None, 0, 0, 0, NoMatch)));
    Reply(s.decision == Some(Deny), s.decision == Some(Ask), s.log, s.ruleId, s.prio, s.matched)
  }

  // ------------------------------------------------------------------ sandbox verdict

  /** The tests of pe_sb_evaluate for an access rule */
  predicate SbMatches(r: PathRule, ev: FileEvent, a: Access, env: Contexts.Env) {
    && r.SbAccess?
    && InScope(r.scope, ev.cookie, ev.now)
    && a in r.amask
    && PrefixOk(r, ev.path)
    && (r.subject.NoSubject?
        || (&& (|ev.csum| == CS_LEN || ev.touched)
            && Registered(r.subject, ev, env).Some? && Registered(r.subject, ev, env).value != []
            && if ev.touched then ev.writeOk || |ev.csum| == CS_LEN
               else Registered(r.subject, ev, env).value == ev.csum))
  }

  /** The rule that decides: the first access rule that matches, else the first default rule. */
  function SbSearch(rules: seq<PathRule>, ev: FileEvent, a: Access, env: Contexts.Env,
                    fallback: Option<PathRule>): (r: Option<PathRule>)
    requires fallback.Some? ==> fallback.value.PlainDefault?
    ensures r.Some? ==> r.value.PlainDefault? || r.value.SbAccess?
    decreases |rules|
  {
    if rules == [] then fallback
    else if rules[0].PlainDefault? then
      SbSearch(rules[1..], ev, a, env, if fallback.None? then Some(rules[0]) else fallback)
    else if SbMatches(rules[0], ev, a, env) then Some(rules[0])
    else SbSearch(rules[1..], ev, a, env, fallback)
  }

  /** struct result */
  datatype Result = Result(decision: Option<Action>, log: nat, ruleId: nat, prio: nat)

  const UNSET := Result(None, 0, 0, 0)

  /** pe_sb_evaluate */
  function Evaluate(rules: seq<PathRule>, ev: FileEvent, a: Access, env: Contexts.Env, i: nat, res: Result): Result {
    if a !in ev.amask then res.(decision := Some(Allow))
    else
      match SbSearch(rules, ev, a, env, None)
      case None => res
      case Some(r) => Result(Some(r.verdict.action), Max(r.verdict.log, res.log), r.id, i)
  }

  /** The three partial results and the verdict so far */
  datatype SbState = SbState(read: Result, write: Result, exec: Result, final: Option<Action>)

  /** One step of the loop that combines the partial results */
  function Combine(final: Option<Action>, decision: Option<Action>): Option<Action> {
    if final == Some(Deny) || decision == Some(Deny) then Some(Deny)
    else if decision == Some(Ask) then Some(Ask)
    else if final.None? then Some(Allow)
    else final
  }

  function SbPrio(src: Source, ev: FileEvent, env: Contexts.Env, i: nat, s: SbState): SbState {
    if s.final.Some? && s.final != Some(Allow) then s
    else
      match src
      case Skip => s
      case Failure => s.(final := Some(Deny))
      case Rules(rules) =>
        if rules == [] then s
        else
          var r := Evaluate(rules, ev, Read, env, i, s.read);
          var w := Evaluate(rules, ev, Write, env, i, s.write);
          var x := Evaluate(rules, ev, Exec, env, i, s.exec);
          SbState(r, w, x, Combine(Combine(Combine(s.final, r.decision), w.decision), x.decision))
  }

  /** The rule id and priority to report: those of the last partial result with the final verdict */
  function Reported(s: SbState, final: Action): (nat, nat) {
    if s.exec.decision == Some(final) then (s.exec.ruleId, s.exec.prio)
    else if s.write.decision == Some(final) then (s.write.ruleId, s.write.prio)
    else if s.read.decision == Some(final) then (s.read.ruleId, s.read.prio)
    else (0, 0)
  }

  /** The reply of pe_decide_sandbox for the partial results */
  function SbReply(s: SbState): Reply {
    if s.final.None? then Reply(false, false, 0, 0, 0, NoMatch)
    else
      var (id, prio) := Reported(s, s.final.value);
      Reply(s.final == Some(Deny), s.final == Some(Ask), Max(s.read.log, Max(s.write.log, s.exec.log)), id, prio,
          NoMatch)
  }

  /** pe_decide_sandbox */
  function DecideSb(admin: Source, user: Source, ev: FileEvent, env: Contexts.Env): Reply {
    SbReply(SbPrio(user, ev, env, 1, SbPrio(admin, ev, env, 0, SbState(UNSET, UNSET, UNSET, None))))
  }

  // ------------------------------------------------------------------ verdicts only tighten

  /** ALLOW < ASK < DENY */
  function Severity(r: Reply): nat {
    if r.deny then 2 else if r.ask then 1 else 0
  }

  /** reply_merge; the second result tells if the SFS reply was chosen. */
  function Merge(sfs: Reply, sb: Reply): (Reply, bool) {
    var useSfs :=
      if !sfs.ask && sfs.deny then true
      else if !sb.ask && sb.deny then false
      else if sfs.ask then true
      else if sb.ask then false
      else true;
    if useSfs then (sfs.(log := Max(sb.log, sfs.log)), true) else (sb.(log := Max(sfs.log, sb.log)), false)
  }

  /** No reply both denies and asks. */
  predicate Proper(r: Reply) {
    !(r.deny && r.ask)
  }

  lemma DecideProper(admin: Source, user: Source, ev: FileEvent, env: Contexts.Env)
    ensures Proper(DecideSfs(admin, user, ev, env)) && Proper(DecideSb(admin, user, ev, env))
  {
  }

  /** The merged reply is the stricter one, with the higher log level; a tie goes to SFS. */
  lemma MergeIsMax(sfs: Reply, sb: Reply)
    requires Proper(sfs) && Proper(sb)
    ensures var (m, fromSfs) := Merge(sfs, sb);
      && Severity(m) == Max(Severity(sfs), Severity(sb))
      && m.log == Max(sfs.log, sb.log)
      && (fromSfs <==> Severity(sfs) >= Severity(sb))
      && m == (if fromSfs then sfs else sb).(log := m.log)
  {
  }

  /** Whatever the user's rules are, the verdict is at least as strict as that of the admin's rules alone. */
  lemma UserCannotWeaken(admin: Source, user: Source, ev: FileEvent, env: Contexts.Env)
    ensures Severity(DecideSfs(admin, user, ev, env)) >= Severity(DecideSfs(admin, Skip, ev, env))
    ensures Severity(DecideSb(admin, user, ev, env)) >= Severity(DecideSb(admin, Skip, ev, env))
    ensures Severity(DecideSfs(admin, Skip, ev, env)) > 0
            ==> DecideSfs(admin, user, ev, env) == DecideSfs(admin, Skip, ev, env)
    ensures Severity(DecideSb(admin, Skip, ev, env)) > 0
            ==> DecideSb(admin, user, ev, env) == DecideSb(admin, Skip, ev, env)
  {
  }

  /** No access rule or default rule of the list says CONTINUE; the policy grammar has it for SFS rules only. */
  predicate NoContinue(src: Source) {
    src.Rules? ==> forall r <- src.rules :: (r.SbAccess? || r.PlainDefault?) ==> !r.verdict.action.Continue?
  }

  predicate UnsetOrAllow(r: Result) {
    r.decision.None? || r.decision == Some(Allow)
  }

  /** The partial results that enter a later priority are unset or ALLOW. */
  lemma EntersUnsetOrAllow(src: Source, ev: FileEvent, env: Contexts.Env, i: nat, s: SbState)
    requires NoContinue(src) && UnsetOrAllow(s.read) && UnsetOrAllow(s.write) && UnsetOrAllow(s.exec)
    requires s.final.None? || s.final == Some(Allow)
    ensures var t := SbPrio(src, ev, env, i, s);
      t.final.None? || t.final == Some(Allow) ==> UnsetOrAllow(t.read) && UnsetOrAllow(t.write) && UnsetOrAllow(t.exec)
  {
    if src.Rules? {
      SearchMember(src.rules, ev, Read, env, None);
      SearchMember(src.rules, ev, Write, env, None);
      SearchMember(src.rules, ev, Exec, env, None);
    }
  }

  lemma {:induction false} SearchMember(rules: seq<PathRule>, ev: FileEvent, a: Access, env: Contexts.Env,
                                        fallback: Option<PathRule>)
    requires fallback.Some? ==> fallback.value.PlainDefault?
    ensures var r := SbSearch(rules, ev, a, env, fallback); r.Some? ==> r == fallback || r.value in rules
    decreases |rules|
  {
    if rules != [] {
      SearchMember(rules[1..], ev, a, env, fallback);
      if rules[0].PlainDefault? {
        SearchMember(rules[1..], ev, a, env, Some(rules[0]));
      }
    }
  }
}

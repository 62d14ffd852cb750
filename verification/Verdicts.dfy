/**
 * What the verdicts of both subsystems mean in terms of the rules alone: which rule of
 * which list decides, what it says, and which log level is reported. The lemmas connect
 * this reading to the evaluation of PathRules.dfy in both directions.
 */
module Verdicts {
  import opened Basics
  import opened Policy
  import Contexts
  import opened PathRules

  function RulesIn(src: Source): seq<PathRule> {
    match src case Rules(rules) => rules case _ => []
  }

  // ------------------------------------------------------------------ what a rule is about

  /** A prefix applies to itself and to what is below it; slashes at its end do not count. */
  predicate Below(prefix: Path, path: Path) {
    path == Trim(prefix) || Trim(prefix) + [SLASH] <= path
  }

  /** The rule is for files, its time is not over, it is for all tasks or for this one, and its prefix applies. */
  predicate Concerns(r: PathRule, ev: FileEvent) {
    && (r.SfsAccess? || r.SfsDefault? || r.SbAccess?)
    && (r.scope.Some? ==>
          && (r.scope.value.timeout == 0 || ev.now <= r.scope.value.timeout)
          && (r.scope.value.task == 0 || r.scope.value.task == ev.cookie))
    && (r.path.Some? ==> ev.path.Some? && Below(r.path.value, ev.path.value))
  }

  lemma UnderExactly(prefix: Path, path: Path)
    ensures Under(prefix, path) <==> Below(prefix, path)
  {
    var p := Trim(prefix);
    if p <= path && |path| > |p| && path[|p|] == SLASH {
      assert path[..|p| + 1] == p + [SLASH];
    }
    if p + [SLASH] <= path {
      assert path[..|p|] == p && path[|p|] == (p + [SLASH])[|p|];
    }
  }

  lemma ConcernsExactly(r: PathRule, ev: FileEvent)
    requires r.SfsAccess? || r.SfsDefault? || r.SbAccess?
    ensures InScope(r.scope, ev.cookie, ev.now) && PrefixOk(r, ev.path) <==> Concerns(r, ev)
  {
    if r.path.Some? && ev.path.Some? {
      UnderExactly(r.path.value, ev.path.value);
    }
    hide Under;
    hide Below;
  }

  /** A checksum is stored for the path under a user or a key that the subject stands for. */
  ghost predicate HasSum(s: Subject, ev: FileEvent, env: Contexts.Env, sum: Bytes) {
    && ev.path.Some?
    && (|| (exists u :: (s == OfUid(u) || (s == UidSelf && u == ev.uid))
                        && (ev.path.value, u) in env.byUid && env.byUid[(ev.path.value, u)] == sum)
        || (exists k :: (s == OfKey(k) || (s == KeySelf && ev.uid in env.keyOf && env.keyOf[ev.uid] == k))
                        && (ev.path.value, k) in env.byKey && env.byKey[(ev.path.value, k)] == sum))
  }

  lemma RegisteredExactly(s: Subject, ev: FileEvent, env: Contexts.Env, sum: Bytes)
    ensures Registered(s, ev, env) == Some(sum) <==> HasSum(s, ev, env, sum)
  {
    if ev.path.Some? && s.OfUid? { assert s == OfUid(s.uid); }
    if ev.path.Some? && s.OfKey? { assert s == OfKey(s.keyid); }
  }

  /** Rules for files and applications of contexts agree on the checksum that is registered for a file. */
  lemma RegisteredAgrees(s: Subject, ev: FileEvent, env: Contexts.Env)
    requires ev.path.Some? && ev.uid != NO_UID && s != OfUid(NO_UID)
    ensures Registered(s, ev, env) == Contexts.SubjectSum(ev.path.value, s, ev.uid, env)
  {
  }

  /** A checksum is registered for the file; an empty one counts as none. */
  ghost predicate Known(s: Subject, ev: FileEvent, env: Contexts.Env) {
    exists sum :: HasSum(s, ev, env, sum) && sum != []
  }

  /** The file is being replaced by an upgrade: its checksum need not be the registered one. */
  predicate Upgraded(ev: FileEvent) {
    ev.touched && (|ev.csum| == CS_LEN || ev.writeOk)
  }

  /** The file has the registered checksum. */
  ghost predicate Same(s: Subject, ev: FileEvent, env: Contexts.Env) {
    |ev.csum| == CS_LEN && HasSum(s, ev, env, ev.csum)
  }

  lemma SumsExactly(s: Subject, ev: FileEvent, env: Contexts.Env)
    ensures Known(s, ev, env) <==> Registered(s, ev, env).Some? && Registered(s, ev, env) != Some([])
    ensures Same(s, ev, env) <==> |ev.csum| == CS_LEN && Registered(s, ev, env) == Some(ev.csum)
  {
    forall sum ensures Registered(s, ev, env) == Some(sum) <==> HasSum(s, ev, env, sum) {
      RegisteredExactly(s, ev, env, sum);
    }
    hide HasSum;
    hide Registered;
    if Registered(s, ev, env).Some? {
      assert HasSum(s, ev, env, Registered(s, ev, env).value);
    }
  }

  // ------------------------------------------------------------------ SFS rules

  /** The rule is in scope, its prefix applies, and v is its verdict for the file. */
  ghost predicate Says(r: PathRule, ev: FileEvent, env: Contexts.Env, v: Verdict, m: SfsMatch) {
    && Concerns(r, ev)
    && match m
       case ByDefault => r.SfsDefault? && v == r.verdict
       case Valid => r.SfsAccess? && v == r.valid && Known(r.subject, ev, env)
                     && (Upgraded(ev) || Same(r.subject, ev, env))
       case Invalid => r.SfsAccess? && v == r.invalid && Known(r.subject, ev, env)
                       && !Upgraded(ev) && !Same(r.subject, ev, env)
       case Unknown => r.SfsAccess? && v == r.unknown && !Known(r.subject, ev, env)
       case NoMatch => false
  }

  /** No rule before k says anything else than CONTINUE. */
  ghost predicate Reaches(rules: seq<PathRule>, k: nat, ev: FileEvent, env: Contexts.Env) {
    k <= |rules| && forall j, v, m | 0 <= j < k && Says(rules[j], ev, env, v, m) :: v.action.Continue?
  }

  /** Rule k is the first one that does not say CONTINUE. */
  ghost predicate Decides(rules: seq<PathRule>, k: nat, ev: FileEvent, env: Contexts.Env, v: Verdict, m: SfsMatch) {
    k < |rules| && Reaches(rules, k, ev, env) && Says(rules[k], ev, env, v, m) && !v.action.Continue?
  }

  ghost predicate Acts(src: Source, ev: FileEvent, env: Contexts.Env, a: Action) {
    exists k: nat, v, m :: Decides(RulesIn(src), k, ev, env, v, m) && v.action == a
  }

  /** The list leaves the verdict to the next one. */
  ghost predicate Lenient(src: Source, ev: FileEvent, env: Contexts.Env) {
    !src.Failure? && !Acts(src, ev, env, Deny) && !Acts(src, ev, env, Ask)
  }

  ghost predicate Decided(src: Source, ev: FileEvent, env: Contexts.Env) {
    exists k: nat, v, m :: Decides(RulesIn(src), k, ev, env, v, m)
  }

  /** The reply names the rule of this list that decides. */
  ghost predicate Names(src: Source, i: nat, ev: FileEvent, env: Contexts.Env, r: Reply) {
    exists k: nat, v, m :: Decides(RulesIn(src), k, ev, env, v, m)
                           && r.ruleId == RulesIn(src)[k].id && r.prio == i && r.matched == m
  }

  /** A rule up to the one that decides has this log level. */
  ghost predicate Logs(rules: seq<PathRule>, ev: FileEvent, env: Contexts.Env, log: nat) {
    exists k: nat, v, m :: k < |rules| && Reaches(rules, k, ev, env) && Says(rules[k], ev, env, v, m) && v.log == log
  }

  ghost predicate Heard(admin: Source, user: Source, ev: FileEvent, env: Contexts.Env, log: nat) {
    Logs(RulesIn(admin), ev, env, log) || (Lenient(admin, ev, env) && Logs(RulesIn(user), ev, env, log))
  }

  /** The reply that the SFS rules of administrator and user call for */
  ghost predicate SfsAnswer(admin: Source, user: Source, ev: FileEvent, env: Contexts.Env, r: Reply) {
    var next := Lenient(admin, ev, env);
    && (r.deny <==> || admin.Failure? || Acts(admin, ev, env, Deny)
                    || (next && (user.Failure? || Acts(user, ev, env, Deny))))
    && (r.ask <==> Acts(admin, ev, env, Ask) || (next && Acts(user, ev, env, Ask)))
    && (if next && Decided(user, ev, env) then Names(user, 1, ev, env, r)
        else if Decided(admin, ev, env) then Names(admin, 0, ev, env, r)
        else r.ruleId == 0 && r.prio == 0 && r.matched == NoMatch)
    && (forall log: nat :: Heard(admin, user, ev, env, log) ==> log <= r.log)
    && (r.log == 0 || Heard(admin, user, ev, env, r.log))
  }

  lemma SaysExactly(r: PathRule, ev: FileEvent, env: Contexts.Env, v: Verdict, m: SfsMatch)
    ensures SfsMatchOne(r, ev, env) == Some((v, m)) <==> Says(r, ev, env, v, m)
  {
    hide Concerns;
    hide Known;
    hide Same;
    hide Registered;
    hide PrefixOk;
    if r.SfsAccess? || r.SfsDefault? {
      ConcernsExactly(r, ev);
    }
    if r.SfsAccess? {
      SumsExactly(r.subject, ev, env);
    }
  }

  /** At most one rule of a list decides. */
  lemma DecidesOnce(rules: seq<PathRule>, ev: FileEvent, env: Contexts.Env, j: nat, v: Verdict, m: SfsMatch, k: nat,
                    w: Verdict, n: SfsMatch)
    requires Decides(rules, j, ev, env, v, m) && Decides(rules, k, ev, env, w, n)
    ensures j == k && v == w && m == n
  {
    SaysExactly(rules[j], ev, env, v, m);
    SaysExactly(rules[k], ev, env, w, n);
    hide Says;
  }

  lemma ReachesNext(rules: seq<PathRule>, ev: FileEvent, env: Contexts.Env, k: nat)
    requires rules != []
    ensures Reaches(rules, 0, ev, env)
    ensures Reaches(rules, 1, ev, env) ==> (Reaches(rules, k + 1, ev, env) <==> Reaches(rules[1..], k, ev, env))
  {
    hide Says;
    if Reaches(rules, 1, ev, env) {
      if Reaches(rules[1..], k, ev, env) {
        forall j, v, m | 0 <= j < k + 1 && Says(rules[j], ev, env, v, m) ensures v.action.Continue? {
          if j > 0 { assert rules[1..][j - 1] == rules[j]; }
        }
      }
      if Reaches(rules, k + 1, ev, env) {
        forall j, v, m | 0 <= j < k && Says(rules[1..][j], ev, env, v, m) ensures v.action.Continue? {
          assert rules[1..][j] == rules[j + 1];
        }
      }
    }
  }

  /** If the first rule does not decide, the rest of the list does. */
  lemma TailDecides(rules: seq<PathRule>, ev: FileEvent, env: Contexts.Env, k: nat, v: Verdict, m: SfsMatch)
    requires rules != [] && Reaches(rules, 1, ev, env)
    ensures !Decides(rules, 0, ev, env, v, m)
    ensures Decides(rules, k + 1, ev, env, v, m) <==> Decides(rules[1..], k, ev, env, v, m)
  {
    hide Says;
    ReachesNext(rules, ev, env, k);
  }

  lemma TailLogs(rules: seq<PathRule>, ev: FileEvent, env: Contexts.Env, log: nat)
    requires rules != [] && Reaches(rules, 1, ev, env)
    ensures Logs(rules, ev, env, log) <==>
            Logs(rules[1..], ev, env, log) || exists v, m :: Says(rules[0], ev, env, v, m) && v.log == log
  {
    hide Says;
    ReachesNext(rules, ev, env, 0);
    if k: nat, v, m :| k < |rules| && Reaches(rules, k, ev, env) && Says(rules[k], ev, env, v, m) && v.log == log {
      if k > 0 {
        ReachesNext(rules, ev, env, k - 1);
        assert rules[1..][k - 1] == rules[k];
      }
    }
    if k: nat, v, m :| k < |rules[1..]| && Reaches(rules[1..], k, ev, env) && Says(rules[1..][k], ev, env, v, m)
                       && v.log == log {
      ReachesNext(rules, ev, env, k);
      assert rules[1..][k] == rules[k + 1];
    }
  }

  lemma FirstSays(rules: seq<PathRule>, ev: FileEvent, env: Contexts.Env)
    requires rules != []
    ensures match SfsMatchOne(rules[0], ev, env)
            case None => Reaches(rules, 1, ev, env) && forall v, m :: !Says(rules[0], ev, env, v, m)
            case Some((v, m)) =>
              && (v.action.Continue? ==> Reaches(rules, 1, ev, env))
              && (!v.action.Continue? ==> Decides(rules, 0, ev, env, v, m))
              && forall w, n :: Says(rules[0], ev, env, w, n) <==> (w, n) == (v, m)
  {
    forall v, m ensures SfsMatchOne(rules[0], ev, env) == Some((v, m)) <==> Says(rules[0], ev, env, v, m) {
      SaysExactly(rules[0], ev, env, v, m);
    }
    hide Says;
    hide SfsMatchOne;
  }

  /** What is left of a list whose first rule decides */
  lemma OnlyFirst(rules: seq<PathRule>, ev: FileEvent, env: Contexts.Env, v: Verdict, m: SfsMatch)
    requires Decides(rules, 0, ev, env, v, m)
    ensures forall k: nat | Reaches(rules, k, ev, env) :: k == 0
    ensures Logs(rules, ev, env, v.log)
  {
  }

  /** The rule loop takes over the verdict of the rule that decides, and otherwise keeps what it has. */
  lemma {:induction false} ScanVerdict(rules: seq<PathRule>, ev: FileEvent, env: Contexts.Env, i: nat, s: SfsState)
    ensures var t := SfsScan(rules, ev, env, i, s);
      && (forall k: nat, v, m | Decides(rules, k, ev, env, v, m) ::
            t == SfsState(Some(v.action), t.log, rules[k].id, i, m))
      && (t == s.(log := t.log) || exists k: nat, v, m :: Decides(rules, k, ev, env, v, m))
    decreases |rules|
  {
    hide Says;
    hide SfsMatchOne;
    if rules != [] {
      FirstSays(rules, ev, env);
      var first := SfsMatchOne(rules[0], ev, env);
      if first.Some? && !first.value.0.action.Continue? {
        var (v, m) := first.value;
        forall k: nat, w, n | Decides(rules, k, ev, env, w, n) ensures (k, w, n) == (0, v, m) {
          DecidesOnce(rules, ev, env, 0, v, m, k, w, n);
        }
      } else {
        var u := if first.None? then s else s.(log := Max(first.value.0.log, s.log));
        ScanVerdict(rules[1..], ev, env, i, u);
        TailVerdict(rules, ev, env);
        hide Decides;
      }
    }
  }

  lemma TailVerdict(rules: seq<PathRule>, ev: FileEvent, env: Contexts.Env)
    requires rules != [] && Reaches(rules, 1, ev, env)
    ensures forall k: nat, v, m | Decides(rules, k, ev, env, v, m) ::
              k > 0 && Decides(rules[1..], k - 1, ev, env, v, m) && rules[k] == rules[1..][k - 1]
    ensures forall k: nat, v, m | Decides(rules[1..], k, ev, env, v, m) :: Decides(rules, k + 1, ev, env, v, m)
  {
    forall k: nat, v, m | Decides(rules, k, ev, env, v, m)
      ensures k > 0 && Decides(rules[1..], k - 1, ev, env, v, m) && rules[k] == rules[1..][k - 1]
    {
      TailDecides(rules, ev, env, if k > 0 then k - 1 else 0, v, m);
    }
    forall k: nat, v, m | Decides(rules[1..], k, ev, env, v, m) ensures Decides(rules, k + 1, ev, env, v, m) {
      TailDecides(rules, ev, env, k, v, m);
    }
  }

  /** The rule loop raises the log level to the highest one up to the rule that decides. */
  lemma {:induction false} ScanLog(rules: seq<PathRule>, ev: FileEvent, env: Contexts.Env, i: nat, s: SfsState)
    ensures var t := SfsScan(rules, ev, env, i, s);
      && s.log <= t.log && (t.log == s.log || Logs(rules, ev, env, t.log))
      && forall log: nat :: Logs(rules, ev, env, log) ==> log <= t.log
    decreases |rules|
  {
    hide Says;
    hide SfsMatchOne;
    if rules != [] {
      FirstSays(rules, ev, env);
      var first := SfsMatchOne(rules[0], ev, env);
      if first.Some? && !first.value.0.action.Continue? {
        OnlyFirst(rules, ev, env, first.value.0, first.value.1);
      } else {
        var u := if first.None? then s else s.(log := Max(first.value.0.log, s.log));
        ScanLog(rules[1..], ev, env, i, u);
        forall log: nat
          ensures Logs(rules, ev, env, log) <==>
                  Logs(rules[1..], ev, env, log) || exists v, m :: Says(rules[0], ev, env, v, m) && v.log == log
        {
          TailLogs(rules, ev, env, log);
        }
        hide Logs;
      }
    }
  }

  /**
   * The SFS verdict is the one that the rules call for: log level, rule and match included,
   * it is exactly the reply described by SfsAnswer.
   */
  lemma SfsExactly(admin: Source, user: Source, ev: FileEvent, env: Contexts.Env, r: Reply)
    ensures SfsAnswer(admin, user, ev, env, r) <==> r == DecideSfs(admin, user, ev, env)
  {
    SfsMeets(admin, user, ev, env);
    if SfsAnswer(admin, user, ev, env, r) {
      SfsUnique(admin, user, ev, env, r, DecideSfs(admin, user, ev, env));
    }
  }

  /**
   * The first rule that concerns the file and does not say CONTINUE decides: the administrator's if it denies
   * or asks, and the user's if the administrator's rules are lenient. The reply has its verdict and its name.
   */
  lemma FirstRuleDecides(admin: Source, user: Source, ev: FileEvent, env: Contexts.Env, i: Prio, k: nat, v: Verdict,
                         m: SfsMatch)
    requires Decides(RulesIn(if i == 0 then admin else user), k, ev, env, v, m)
    requires if i == 0 then v.action.Deny? || v.action.Ask? else Lenient(admin, ev, env)
    ensures var r := DecideSfs(admin, user, ev, env);
      && (r.deny <==> v.action.Deny?) && (r.ask <==> v.action.Ask?)
      && r.ruleId == RulesIn(if i == 0 then admin else user)[k].id && r.prio == i && r.matched == m
  {
    var rules, r := RulesIn(if i == 0 then admin else user), DecideSfs(admin, user, ev, env);
    SfsMeets(admin, user, ev, env);
    forall j: nat, w, n | Decides(rules, j, ev, env, w, n) ensures j == k && w == v && n == m {
      DecidesOnce(rules, ev, env, j, w, n, k, v, m);
    }
    hide Decides;
    hide Heard;
    hide DecideSfs;
  }

  lemma SfsUnique(admin: Source, user: Source, ev: FileEvent, env: Contexts.Env, r: Reply, q: Reply)
    requires SfsAnswer(admin, user, ev, env, r) && SfsAnswer(admin, user, ev, env, q)
    ensures r == q
  {
    hide Heard;
    hide Acts;
    hide Lenient;
    var next := Lenient(admin, ev, env);
    if next && Decided(user, ev, env) {
      NamesOnce(user, 1, ev, env, r, q);
    } else if Decided(admin, ev, env) {
      NamesOnce(admin, 0, ev, env, r, q);
    }
  }

  lemma NamesOnce(src: Source, i: nat, ev: FileEvent, env: Contexts.Env, r: Reply, q: Reply)
    requires Names(src, i, ev, env, r) && Names(src, i, ev, env, q)
    ensures r.ruleId == q.ruleId && r.prio == q.prio && r.matched == q.matched
  {
    var k: nat, v, m :| Decides(RulesIn(src), k, ev, env, v, m)
                        && r.ruleId == RulesIn(src)[k].id && r.prio == i && r.matched == m;
    var j: nat, w, n :| Decides(RulesIn(src), j, ev, env, w, n)
                        && q.ruleId == RulesIn(src)[j].id && q.prio == i && q.matched == n;
    DecidesOnce(RulesIn(src), ev, env, k, v, m, j, w, n);
  }

  /** One priority, entered with no decision or with ALLOW */
  lemma PrioVerdict(src: Source, ev: FileEvent, env: Contexts.Env, i: nat, s: SfsState)
    requires s.decision.None? || s.decision == Some(Allow)
    ensures var t := SfsPrio(src, ev, env, i, s);
      && (Lenient(src, ev, env) <==> t.decision.None? || t.decision == Some(Allow))
      && (forall a: Action | a.Deny? || a.Ask? ::
            t.decision == Some(a) <==> Acts(src, ev, env, a) || (src.Failure? && a.Deny?))
      && (if Decided(src, ev, env)
          then exists k: nat, v, m :: Decides(RulesIn(src), k, ev, env, v, m)
                                      && (t.ruleId, t.prio, t.matched) == (RulesIn(src)[k].id, i, m)
          else (t.ruleId, t.prio, t.matched) == (s.ruleId, s.prio, s.matched))
  {
    hide SfsScan;
    ScanVerdict(RulesIn(src), ev, env, i, s);
    if src.Rules? {
      if k: nat, v, m :| Decides(src.rules, k, ev, env, v, m) {
        forall j: nat, w, n | Decides(src.rules, j, ev, env, w, n) ensures w == v {
          DecidesOnce(src.rules, ev, env, j, w, n, k, v, m);
        }
      }
    }
    hide Decides;
  }

  lemma PrioLog(src: Source, ev: FileEvent, env: Contexts.Env, i: nat, s: SfsState)
    requires s.decision.None? || s.decision == Some(Allow)
    ensures var t := SfsPrio(src, ev, env, i, s);
      && s.log <= t.log && (t.log == s.log || Logs(RulesIn(src), ev, env, t.log))
      && forall log: nat :: Logs(RulesIn(src), ev, env, log) ==> log <= t.log
  {
    ScanLog(RulesIn(src), ev, env, i, s);
    hide SfsScan;
  }

  lemma SfsMeets(admin: Source, user: Source, ev: FileEvent, env: Contexts.Env)
    ensures SfsAnswer(admin, user, ev, env, DecideSfs(admin, user, ev, env))
  {
    var s := SfsState(None, 0, 0, 0, NoMatch);
    var t := SfsPrio(admin, ev, env, 0, s);
    PrioVerdict(admin, ev, env, 0, s);
    PrioLog(admin, ev, env, 0, s);
    if Lenient(admin, ev, env) {
      PrioVerdict(user, ev, env, 1, t);
      PrioLog(user, ev, env, 1, t);
    }
    hide Lenient;
    hide Acts;
    hide Decides;
    hide Logs;
    hide SfsScan;
    hide RulesIn;
  }

  // ------------------------------------------------------------------ sandbox rules

  /** The access rule applies: the file must have the checksum that the rule asks for. */
  ghost predicate Covers(r: PathRule, ev: FileEvent, a: Access, env: Contexts.Env) {
    && r.SbAccess? && a in r.amask && Concerns(r, ev)
    && (r.subject.NoSubject?
        || (Known(r.subject, ev, env) && (Upgraded(ev) || Same(r.subject, ev, env))))
  }

  lemma CoversExactly(r: PathRule, ev: FileEvent, a: Access, env: Contexts.Env)
    ensures SbMatches(r, ev, a, env) <==> Covers(r, ev, a, env)
  {
    hide Concerns;
    hide Known;
    hide Same;
    hide Registered;
    hide PrefixOk;
    if r.SbAccess? {
      ConcernsExactly(r, ev);
      SumsExactly(r.subject, ev, env);
    }
  }

  ghost predicate FirstCovering(rules: seq<PathRule>, k: nat, ev: FileEvent, a: Access, env: Contexts.Env) {
    k < |rules| && Covers(rules[k], ev, a, env) && forall j | 0 <= j < k :: !Covers(rules[j], ev, a, env)
  }

  ghost predicate NoneCovers(rules: seq<PathRule>, ev: FileEvent, a: Access, env: Contexts.Env) {
    forall j | 0 <= j < |rules| :: !Covers(rules[j], ev, a, env)
  }

  predicate FirstDefault(rules: seq<PathRule>, k: nat) {
    k < |rules| && rules[k].PlainDefault? && forall j | 0 <= j < k :: !rules[j].PlainDefault?
  }

  /** Rule k decides a requested access: the first access rule that applies, else the first default rule. */
  ghost predicate Picks(rules: seq<PathRule>, k: nat, ev: FileEvent, a: Access, env: Contexts.Env) {
    && a in ev.amask
    && (FirstCovering(rules, k, ev, a, env) || (NoneCovers(rules, ev, a, env) && FirstDefault(rules, k)))
  }

  ghost predicate Picked(rules: seq<PathRule>, ev: FileEvent, a: Access, env: Contexts.Env) {
    exists k: nat :: Picks(rules, k, ev, a, env)
  }

  lemma PicksOnce(rules: seq<PathRule>, ev: FileEvent, a: Access, env: Contexts.Env, j: nat, k: nat)
    requires Picks(rules, j, ev, a, env) && Picks(rules, k, ev, a, env)
    ensures j == k
  {
    hide Covers;
  }

  lemma {:induction false} SearchAnswer(rules: seq<PathRule>, ev: FileEvent, a: Access, env: Contexts.Env,
                                        fallback: Option<PathRule>)
    requires fallback.Some? ==> fallback.value.PlainDefault?
    ensures var r := SbSearch(rules, ev, a, env, fallback);
      || (exists k: nat :: FirstCovering(rules, k, ev, a, env) && r == Some(rules[k]))
      || (NoneCovers(rules, ev, a, env)
          && if fallback.Some? then r == fallback
             else (exists k: nat :: FirstDefault(rules, k) && r == Some(rules[k]))
                  || (r == None && forall j | 0 <= j < |rules| :: !rules[j].PlainDefault?))
    decreases |rules|
  {
    hide SbMatches;
    hide Covers;
    if rules != [] {
      var rest := rules[1..];
      assert forall j | 0 <= j < |rest| :: rules[j + 1] == rest[j];
      assert forall j | 0 < j < |rules| :: rules[j] == rest[j - 1];
      CoversExactly(rules[0], ev, a, env);
      var next := if rules[0].PlainDefault? && fallback.None? then Some(rules[0]) else fallback;
      assert SbMatches(rules[0], ev, a, env) ==> rules[0].SbAccess? by { IsAccess(rules[0], ev, a, env); }
      if SbMatches(rules[0], ev, a, env) {
        assert FirstCovering(rules, 0, ev, a, env);
      } else {
        SearchAnswer(rest, ev, a, env, next);
        if k: nat :| FirstCovering(rest, k, ev, a, env) && SbSearch(rest, ev, a, env, next) == Some(rest[k]) {
          assert FirstCovering(rules, k + 1, ev, a, env);
        } else {
          assert NoneCovers(rules, ev, a, env);
          if rules[0].PlainDefault? {
            assert FirstDefault(rules, 0);
          } else if k: nat :| FirstDefault(rest, k) && SbSearch(rest, ev, a, env, next) == Some(rest[k]) {
            assert FirstDefault(rules, k + 1);
          }
        }
      }
    }
  }

  lemma IsAccess(r: PathRule, ev: FileEvent, a: Access, env: Contexts.Env)
    ensures SbMatches(r, ev, a, env) ==> r.SbAccess?
  {
  }

  ghost predicate SbActs(src: Source, ev: FileEvent, env: Contexts.Env, action: Action) {
    exists k: nat, a :: Picks(RulesIn(src), k, ev, a, env) && RulesIn(src)[k].verdict.action == action
  }

  ghost predicate SbLenient(src: Source, ev: FileEvent, env: Contexts.Env) {
    !src.Failure? && !SbActs(src, ev, env, Deny) && !SbActs(src, ev, env, Ask)
  }

  ghost predicate PicksRule(rules: seq<PathRule>, ev: FileEvent, a: Access, env: Contexts.Env, action: Action,
                            id: nat) {
    exists k: nat :: Picks(rules, k, ev, a, env) && rules[k].verdict.action == action && rules[k].id == id
  }

  /**
   * The rule that speaks for one access with this action: that of the list which ends the
   * evaluation, else the user's, else the administrator's. Rule 0 allows what is not requested.
   */
  ghost predicate Votes(admin: Source, user: Source, ev: FileEvent, env: Contexts.Env, a: Access, action: Action,
                        id: nat, prio: nat) {
    if !SbLenient(admin, ev, env) then PicksRule(RulesIn(admin), ev, a, env, action, id) && prio == 0
    else
      || (PicksRule(RulesIn(user), ev, a, env, action, id) && prio == 1)
      || (!Picked(RulesIn(user), ev, a, env) && PicksRule(RulesIn(admin), ev, a, env, action, id) && prio == 0)
      || (a !in ev.amask && action == Allow && id == 0 && prio == 0)
  }

  function Rank(a: Access): nat {
    match a case Read => 0 case Write => 1 case Exec => 2
  }

  /** No access after this one, of read, write and execute, votes for the action. */
  ghost predicate LastVote(admin: Source, user: Source, ev: FileEvent, env: Contexts.Env, a: Access, action: Action) {
    forall b, id, prio | Votes(admin, user, ev, env, b, action, id, prio) :: Rank(b) <= Rank(a)
  }

  /** The reply names the rule for the last access that votes for the final verdict. */
  ghost predicate SbNames(admin: Source, user: Source, ev: FileEvent, env: Contexts.Env, action: Action, r: Reply) {
    || (exists a :: Votes(admin, user, ev, env, a, action, r.ruleId, r.prio)
                    && LastVote(admin, user, ev, env, a, action))
    || (r.ruleId == 0 && r.prio == 0 && forall b, id, prio :: !Votes(admin, user, ev, env, b, action, id, prio))
  }

  ghost predicate SbLogs(rules: seq<PathRule>, ev: FileEvent, env: Contexts.Env, log: nat) {
    exists k: nat, a :: Picks(rules, k, ev, a, env) && rules[k].verdict.log == log
  }

  ghost predicate SbHeard(admin: Source, user: Source, ev: FileEvent, env: Contexts.Env, log: nat) {
    SbLogs(RulesIn(admin), ev, env, log) || (SbLenient(admin, ev, env) && SbLogs(RulesIn(user), ev, env, log))
  }

  function ActionOf(r: Reply): Action {
    if r.deny then Deny else if r.ask then Ask else Allow
  }

  /** The reply that the sandbox rules of administrator and user call for */
  ghost predicate SbAnswer(admin: Source, user: Source, ev: FileEvent, env: Contexts.Env, r: Reply) {
    var next := SbLenient(admin, ev, env);
    && (r.deny <==> || admin.Failure? || SbActs(admin, ev, env, Deny)
                    || (next && (user.Failure? || SbActs(user, ev, env, Deny))))
    && (r.ask <==> !r.deny && (SbActs(admin, ev, env, Ask) || SbActs(user, ev, env, Ask)))
    && SbNames(admin, user, ev, env, ActionOf(r), r)
    && r.matched == NoMatch
    && (forall log: nat :: SbHeard(admin, user, ev, env, log) ==> log <= r.log)
    && (r.log == 0 || SbHeard(admin, user, ev, env, r.log))
  }

  function At(s: SbState, a: Access): Result {
    match a case Read => s.read case Write => s.write case Exec => s.exec
  }

  /** The partial result for one access after one list */
  ghost predicate Partial(rules: seq<PathRule>, ev: FileEvent, a: Access, env: Contexts.Env, i: nat, res: Result,
                          t: Result) {
    && (a !in ev.amask ==> t == res.(decision := Some(Allow)))
    && (forall k: nat | Picks(rules, k, ev, a, env) ::
          t == Result(Some(rules[k].verdict.action), Max(rules[k].verdict.log, res.log), rules[k].id, i))
    && (a in ev.amask && !Picked(rules, ev, a, env) ==> t == res)
  }

  lemma EvaluateAnswer(rules: seq<PathRule>, ev: FileEvent, a: Access, env: Contexts.Env, i: nat, res: Result)
    ensures Partial(rules, ev, a, env, i, res, Evaluate(rules, ev, a, env, i, res))
  {
    hide SbSearch;
    hide Covers;
    SearchAnswer(rules, ev, a, env, None);
    var r := SbSearch(rules, ev, a, env, None);
    if a in ev.amask {
      if j: nat :| j < |rules| && Picks(rules, j, ev, a, env) && r == Some(rules[j]) {
        forall k: nat | Picks(rules, k, ev, a, env) ensures k == j {
          PicksOnce(rules, ev, a, env, j, k);
        }
      } else {
        assert !Picked(rules, ev, a, env) && r == None;
      }
    }
  }

  /** No partial result stops the evaluation. */
  predicate Clear(s: SbState) {
    && (s.final.None? || s.final == Some(Allow))
    && forall a: Access :: At(s, a).decision != Some(Deny) && At(s, a).decision != Some(Ask)
  }

  /** One priority of the sandbox */
  lemma SbPrioPartial(src: Source, ev: FileEvent, env: Contexts.Env, i: nat, s: SbState)
    requires Clear(s)
    ensures var t := SbPrio(src, ev, env, i, s);
      if RulesIn(src) == [] then t == s.(final := if src.Failure? then Some(Deny) else s.final)
      else
        && (forall a: Access :: Partial(RulesIn(src), ev, a, env, i, At(s, a), At(t, a)))
        && t.final.Some?
        && (t.final == Some(Deny) <==> exists a: Access :: At(t, a).decision == Some(Deny))
        && (t.final == Some(Ask) <==> t.final != Some(Deny) && exists a: Access :: At(t, a).decision == Some(Ask))
        && (t.final == Some(Allow) || t.final == Some(Deny) || t.final == Some(Ask))
  {
    hide Evaluate;
    hide Partial;
    if RulesIn(src) != [] {
      EvaluateAnswer(src.rules, ev, Read, env, i, s.read);
      EvaluateAnswer(src.rules, ev, Write, env, i, s.write);
      EvaluateAnswer(src.rules, ev, Exec, env, i, s.exec);
      var t := SbPrio(src, ev, env, i, s);
      forall a: Access ensures Partial(src.rules, ev, a, env, i, At(s, a), At(t, a)) {
        match a { case Read => case Write => case Exec => }
      }
      assert At(t, Read) == t.read && At(t, Write) == t.write && At(t, Exec) == t.exec;
    }
  }

  /** The partial results stop the evaluation exactly if some rule does. */
  lemma SbPrioActs(src: Source, ev: FileEvent, env: Contexts.Env, i: nat, s: SbState)
    requires Clear(s)
    ensures var t := SbPrio(src, ev, env, i, s);
      && (t.final == Some(Deny) <==> src.Failure? || SbActs(src, ev, env, Deny))
      && (t.final == Some(Ask) <==> t.final != Some(Deny) && SbActs(src, ev, env, Ask))
      && (Clear(t) <==> SbLenient(src, ev, env))
      && (t.final.None? ==> t == s)
  {
    hide SbPrio;
    SbPrioPartial(src, ev, env, i, s);
    var t := SbPrio(src, ev, env, i, s);
    var rules := RulesIn(src);
    if rules != [] {
      forall action | action == Deny || action == Ask
        ensures (exists a: Access :: At(t, a).decision == Some(action)) <==> SbActs(src, ev, env, action)
      {
        if a: Access :| At(t, a).decision == Some(action) {
          assert Partial(rules, ev, a, env, i, At(s, a), At(t, a));
          assert Picked(rules, ev, a, env);
          var k: nat :| Picks(rules, k, ev, a, env);
        }
        if k: nat, a :| Picks(rules, k, ev, a, env) && rules[k].verdict.action == action {
          assert Partial(rules, ev, a, env, i, At(s, a), At(t, a));
        }
      }
    } else {
      assert forall k: nat, a :: !Picks(rules, k, ev, a, env) by { NothingPicked(ev, env); }
    }
  }

  lemma NothingPicked(ev: FileEvent, env: Contexts.Env)
    ensures forall k: nat, a :: !Picks([], k, ev, a, env)
  {
  }

  /** What is left of one access after both lists */
  lemma BothPartial(admin: Source, user: Source, ev: FileEvent, env: Contexts.Env, a: Access)
    ensures var s := SbPrio(admin, ev, env, 0, START); var t := SbPrio(user, ev, env, 1, s);
      && Clear(START)
      && (if RulesIn(admin) == [] then At(s, a) == UNSET else Partial(RulesIn(admin), ev, a, env, 0, UNSET, At(s, a)))
      && (if !SbLenient(admin, ev, env) then t == s
          else if RulesIn(user) == [] then At(t, a) == At(s, a)
          else Partial(RulesIn(user), ev, a, env, 1, At(s, a), At(t, a)))
      && (if SbLenient(admin, ev, env) then t.final == Some(Allow) ==> RulesIn(admin) != [] || RulesIn(user) != []
          else t.final == Some(Deny) || t.final == Some(Ask))
  {
    assert Clear(START) && At(START, a) == UNSET by { hide SbPrio; }
    SbPrioPartial(admin, ev, env, 0, START);
    SbPrioActs(admin, ev, env, 0, START);
    var s := SbPrio(admin, ev, env, 0, START);
    if SbLenient(admin, ev, env) {
      SbPrioPartial(user, ev, env, 1, s);
    } else {
      assert s.final == Some(Deny) || s.final == Some(Ask);
    }
    hide Partial;
  }

  const START := SbState(UNSET, UNSET, UNSET, None)

  lemma PartialVote(rules: seq<PathRule>, ev: FileEvent, a: Access, env: Contexts.Env, i: nat, res: Result, t: Result,
                    action: Action, id: nat)
    requires Partial(rules, ev, a, env, i, res, t)
    ensures !Picked(rules, ev, a, env) ==>
              && !PicksRule(rules, ev, a, env, action, id)
              && t == if a in ev.amask then res else res.(decision := Some(Allow))
    ensures Picked(rules, ev, a, env) ==>
              && a in ev.amask && t.prio == i
              && (PicksRule(rules, ev, a, env, action, id) <==> t.decision == Some(action) && t.ruleId == id)
  {
    if k: nat :| Picks(rules, k, ev, a, env) {
      forall j: nat | Picks(rules, j, ev, a, env) ensures j == k {
        PicksOnce(rules, ev, a, env, j, k);
      }
    }
    hide FirstCovering;
  }

  /** The partial results are the votes. */
  lemma VotesExactly(admin: Source, user: Source, ev: FileEvent, env: Contexts.Env, a: Access, action: Action,
                     id: nat, prio: nat)
    requires SbPrio(user, ev, env, 1, SbPrio(admin, ev, env, 0, START)).final == Some(action)
    ensures var t := SbPrio(user, ev, env, 1, SbPrio(admin, ev, env, 0, START));
      Votes(admin, user, ev, env, a, action, id, prio) <==> At(t, a) == Result(Some(action), At(t, a).log, id, prio)
  {
    hide SbPrio;
    BothPartial(admin, user, ev, env, a);
    NothingPicked(ev, env);
    var s := SbPrio(admin, ev, env, 0, START);
    var t := SbPrio(user, ev, env, 1, s);
    if RulesIn(admin) != [] {
      PartialVote(RulesIn(admin), ev, a, env, 0, UNSET, At(s, a), action, id);
    }
    if SbLenient(admin, ev, env) && RulesIn(user) != [] {
      PartialVote(RulesIn(user), ev, a, env, 1, At(s, a), At(t, a), action, id);
    }
    hide Picks;
    hide SbLenient;
    hide Partial;
    hide RulesIn;
  }

  /** The last access whose partial result has this decision, if there is one */
  lemma ReportsLast(t: SbState, action: Action) returns (last: Access)
    requires t.final == Some(action)
    ensures var r := SbReply(t);
      if At(t, last).decision == Some(action) then (r.ruleId, r.prio) == (At(t, last).ruleId, At(t, last).prio)
      else (r.ruleId, r.prio) == (0, 0)
    ensures forall b: Access | At(t, b).decision == Some(action) ::
              At(t, last).decision == Some(action) && Rank(b) <= Rank(last)
  {
    last := if t.exec.decision == t.final then Exec else if t.write.decision == t.final then Write else Read;
  }

  lemma NamesVotes(admin: Source, user: Source, ev: FileEvent, env: Contexts.Env)
    ensures var t := SbPrio(user, ev, env, 1, SbPrio(admin, ev, env, 0, START));
      SbNames(admin, user, ev, env, if t.final.Some? then t.final.value else Allow, SbReply(t))
  {
    hide SbPrio;
    hide Votes;
    var t := SbPrio(user, ev, env, 1, SbPrio(admin, ev, env, 0, START));
    if t.final.Some? {
      var action := t.final.value;
      var last := ReportsLast(t, action);
      hide SbReply;
      hide Rank;
      hide At;
      forall b, id, prio | Votes(admin, user, ev, env, b, action, id, prio)
        ensures At(t, b).decision == t.final
      {
        VotesExactly(admin, user, ev, env, b, action, id, prio);
      }
      VotesExactly(admin, user, ev, env, last, action, At(t, last).ruleId, At(t, last).prio);
      hide SbNames;
      if At(t, last).decision == t.final {
        VoteNames(admin, user, ev, env, action, SbReply(t), last);
      } else {
        NoVoteNames(admin, user, ev, env, action, SbReply(t));
      }
    } else {
      NothingNames(admin, user, ev, env, SbReply(t));
    }
  }

  lemma NothingNames(admin: Source, user: Source, ev: FileEvent, env: Contexts.Env, r: Reply)
    requires SbPrio(user, ev, env, 1, SbPrio(admin, ev, env, 0, START)).final.None? && r.ruleId == 0 && r.prio == 0
    ensures SbNames(admin, user, ev, env, Allow, r)
  {
    hide SbPrio;
    hide Votes;
    hide SbNames;
    NothingVotes(admin, user, ev, env);
    var last := if Exec !in ev.amask then Exec else if Write !in ev.amask then Write else Read;
    if last !in ev.amask {
      VoteNames(admin, user, ev, env, Allow, r, last);
    } else {
      forall b: Access ensures b in ev.amask {
        assert b == Read || b == Write || b == Exec;
      }
      NoVoteNames(admin, user, ev, env, Allow, r);
    }
  }

  lemma VoteNames(admin: Source, user: Source, ev: FileEvent, env: Contexts.Env, action: Action, r: Reply, last: Access)
    requires Votes(admin, user, ev, env, last, action, r.ruleId, r.prio)
    requires forall b, id, prio | Votes(admin, user, ev, env, b, action, id, prio) :: Rank(b) <= Rank(last)
    ensures SbNames(admin, user, ev, env, action, r)
  {
    hide Votes;
    assert LastVote(admin, user, ev, env, last, action);
    hide LastVote;
  }

  lemma NoVoteNames(admin: Source, user: Source, ev: FileEvent, env: Contexts.Env, action: Action, r: Reply)
    requires r.ruleId == 0 && r.prio == 0 && forall b, id, prio :: !Votes(admin, user, ev, env, b, action, id, prio)
    ensures SbNames(admin, user, ev, env, action, r)
  {
    hide Votes;
  }

  lemma NothingVotes(admin: Source, user: Source, ev: FileEvent, env: Contexts.Env)
    requires SbPrio(user, ev, env, 1, SbPrio(admin, ev, env, 0, START)).final.None?
    ensures forall a, id, prio ::
              Votes(admin, user, ev, env, a, Allow, id, prio) <==> a !in ev.amask && id == 0 && prio == 0
  {
    BothPartial(admin, user, ev, env, Read);
    var s := SbPrio(admin, ev, env, 0, START);
    SbPrioPartial(admin, ev, env, 0, START);
    SbPrioActs(admin, ev, env, 0, START);
    hide SbPrio;
    SbPrioPartial(user, ev, env, 1, s);
    NothingPicked(ev, env);
  }

  lemma PartialLog(rules: seq<PathRule>, ev: FileEvent, a: Access, env: Contexts.Env, i: nat, res: Result, t: Result)
    requires Partial(rules, ev, a, env, i, res, t)
    ensures res.log <= t.log && (t.log == res.log || SbLogs(rules, ev, env, t.log))
    ensures forall k: nat | Picks(rules, k, ev, a, env) :: rules[k].verdict.log <= t.log
  {
    if k: nat :| Picks(rules, k, ev, a, env) {
    }
  }

  lemma AccessLog(admin: Source, user: Source, ev: FileEvent, env: Contexts.Env, a: Access)
    ensures var t := At(SbPrio(user, ev, env, 1, SbPrio(admin, ev, env, 0, START)), a);
      && (t.log == 0 || SbHeard(admin, user, ev, env, t.log))
      && (forall k: nat | Picks(RulesIn(admin), k, ev, a, env) :: RulesIn(admin)[k].verdict.log <= t.log)
      && (SbLenient(admin, ev, env) ==>
            forall k: nat | Picks(RulesIn(user), k, ev, a, env) :: RulesIn(user)[k].verdict.log <= t.log)
  {
    hide SbPrio;
    BothPartial(admin, user, ev, env, a);
    NothingPicked(ev, env);
    var s := SbPrio(admin, ev, env, 0, START);
    var t := SbPrio(user, ev, env, 1, s);
    if RulesIn(admin) != [] {
      PartialLog(RulesIn(admin), ev, a, env, 0, UNSET, At(s, a));
    }
    if SbLenient(admin, ev, env) && RulesIn(user) != [] {
      PartialLog(RulesIn(user), ev, a, env, 1, At(s, a), At(t, a));
    }
    hide Picks;
    hide SbLenient;
    hide Partial;
    hide RulesIn;
  }

  /** Without a verdict no rule has been looked at. */
  lemma NoFinalNoLog(admin: Source, user: Source, ev: FileEvent, env: Contexts.Env)
    requires SbPrio(user, ev, env, 1, SbPrio(admin, ev, env, 0, START)).final.None?
    ensures forall a :: At(SbPrio(user, ev, env, 1, SbPrio(admin, ev, env, 0, START)), a) == UNSET
  {
  }

  lemma TopLog(t: SbState) returns (top: Access)
    requires t.final.Some? || forall a: Access :: At(t, a) == UNSET
    ensures SbReply(t).log == At(t, top).log && forall a: Access :: At(t, a).log <= At(t, top).log
  {
    top := if t.read.log >= t.write.log && t.read.log >= t.exec.log then Read
           else if t.write.log >= t.exec.log then Write else Exec;
    assert At(t, top).log == Max(t.read.log, Max(t.write.log, t.exec.log));
  }

  lemma LogOfVotes(admin: Source, user: Source, ev: FileEvent, env: Contexts.Env)
    ensures var r := DecideSb(admin, user, ev, env);
      && (forall log: nat :: SbHeard(admin, user, ev, env, log) ==> log <= r.log)
      && (r.log == 0 || SbHeard(admin, user, ev, env, r.log))
  {
    hide SbPrio;
    hide SbLenient;
    hide SbReply;
    hide At;
    var t := SbPrio(user, ev, env, 1, SbPrio(admin, ev, env, 0, START));
    if t.final.None? {
      NoFinalNoLog(admin, user, ev, env);
    }
    var top := TopLog(t);
    AccessLog(admin, user, ev, env, top);
    forall log: nat | SbHeard(admin, user, ev, env, log) ensures log <= At(t, top).log {
      if SbLogs(RulesIn(admin), ev, env, log) {
        var k: nat, a :| Picks(RulesIn(admin), k, ev, a, env) && RulesIn(admin)[k].verdict.log == log;
        AccessLog(admin, user, ev, env, a);
      } else {
        var k: nat, a :| Picks(RulesIn(user), k, ev, a, env) && RulesIn(user)[k].verdict.log == log;
        AccessLog(admin, user, ev, env, a);
      }
    }
  }

  lemma SbMeets(admin: Source, user: Source, ev: FileEvent, env: Contexts.Env)
    ensures SbAnswer(admin, user, ev, env, DecideSb(admin, user, ev, env))
  {
    NamesVotes(admin, user, ev, env);
    LogOfVotes(admin, user, ev, env);
    BothPartial(admin, user, ev, env, Read);
    SbPrioActs(admin, ev, env, 0, START);
    var s := SbPrio(admin, ev, env, 0, START);
    if SbLenient(admin, ev, env) {
      SbPrioActs(user, ev, env, 1, s);
    }
    hide SbPrio;
    hide SbActs;
    hide SbLenient;
    hide SbNames;
    hide SbHeard;
  }

  lemma SbUnique(admin: Source, user: Source, ev: FileEvent, env: Contexts.Env, r: Reply, q: Reply)
    requires SbAnswer(admin, user, ev, env, r) && SbAnswer(admin, user, ev, env, q)
    ensures r == q
  {
    hide SbHeard;
    hide SbActs;
    hide SbLenient;
    SbNamesOnce(admin, user, ev, env, ActionOf(r), r, q);
  }

  lemma VoteOnce(admin: Source, user: Source, ev: FileEvent, env: Contexts.Env, a: Access, action: Action, id: nat,
                 prio: nat, id2: nat, prio2: nat)
    requires Votes(admin, user, ev, env, a, action, id, prio) && Votes(admin, user, ev, env, a, action, id2, prio2)
    ensures id == id2 && prio == prio2
  {
    PickOnce(RulesIn(admin), ev, a, env, action, id, id2);
    PickOnce(RulesIn(admin), ev, a, env, action, id2, id);
    PickOnce(RulesIn(user), ev, a, env, action, id, id2);
    PickOnce(RulesIn(user), ev, a, env, action, id2, id);
    hide Picked;
    hide PicksRule;
    hide SbLenient;
  }

  lemma PickOnce(rules: seq<PathRule>, ev: FileEvent, a: Access, env: Contexts.Env, action: Action, id: nat, id2: nat)
    ensures PicksRule(rules, ev, a, env, action, id) ==>
              Picked(rules, ev, a, env) && a in ev.amask && (PicksRule(rules, ev, a, env, action, id2) ==> id == id2)
  {
    forall j: nat, k: nat | Picks(rules, j, ev, a, env) && Picks(rules, k, ev, a, env) ensures j == k {
      PicksOnce(rules, ev, a, env, j, k);
    }
    hide FirstCovering;
  }

  lemma SbNamesOnce(admin: Source, user: Source, ev: FileEvent, env: Contexts.Env, action: Action, r: Reply, q: Reply)
    requires SbNames(admin, user, ev, env, action, r) && SbNames(admin, user, ev, env, action, q)
    ensures r.ruleId == q.ruleId && r.prio == q.prio
  {
    hide Votes;
    if a :| Votes(admin, user, ev, env, a, action, r.ruleId, r.prio) && LastVote(admin, user, ev, env, a, action) {
      var b :| Votes(admin, user, ev, env, b, action, q.ruleId, q.prio) && LastVote(admin, user, ev, env, b, action);
      assert Rank(a) == Rank(b);
      hide LastVote;
      assert a == b;
      VoteOnce(admin, user, ev, env, a, action, r.ruleId, r.prio, q.ruleId, q.prio);
    }
  }

  /**
   * The sandbox verdict is the one that the rules call for: log level and rule included, it is
   * exactly the reply described by SbAnswer.
   */
  lemma SbExactly(admin: Source, user: Source, ev: FileEvent, env: Contexts.Env, r: Reply)
    ensures SbAnswer(admin, user, ev, env, r) <==> r == DecideSb(admin, user, ev, env)
  {
    SbMeets(admin, user, ev, env);
    if SbAnswer(admin, user, ev, env, r) {
      SbUnique(admin, user, ev, env, r, DecideSb(admin, user, ev, env));
    }
  }
}

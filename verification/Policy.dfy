/**
 * Rulesets and the policy database (pe_user.c, apn.h).
 *
 * Rulesets and rule blocks are compared by address in the source. Here each
 * carries its address as a field, so that equality of values is equality of
 * pointers.
 */
module Policy {
  import opened Basics

  type KeyId = Bytes

  datatype Subject =
    | NoSubject
    | OfUid(uid: Uid)
    | UidSelf
    | OfKey(keyid: KeyId)
    | KeySelf

  /** One element of the application list of a rule block or context rule. */
  datatype App = App(name: Option<Path>, subject: Subject)

  datatype CtxKind = New | Borrow | Open

  /** A rule inside a context block. An empty list of applications is "any". */
  datatype CtxRule = CtxRule(isContext: bool, kind: CtxKind, apps: seq<App>)

  datatype Action = Allow | Deny | Ask | Continue

  datatype Verdict = Verdict(action: Action, log: nat)

  datatype Scope = Scope(timeout: nat, task: Cookie)

  /** A rule of an SFS or sandbox block. */
  datatype PathRule =
    | SfsAccess(id: nat, scope: Option<Scope>, path: Option<Path>, subject: Subject,
                valid: Verdict, invalid: Verdict, unknown: Verdict)
    | SfsDefault(id: nat, scope: Option<Scope>, path: Option<Path>, verdict: Verdict)
    | SbAccess(id: nat, scope: Option<Scope>, path: Option<Path>, subject: Subject,
               amask: set<Access>, verdict: Verdict)
    | PlainDefault(id: nat, scope: Option<Scope>, verdict: Verdict)
    | OtherRule(id: nat, scope: Option<Scope>)

  datatype Access = Read | Write | Exec

  /** An application block. An empty list of applications matches every process. */
  datatype Block = Block(addr: nat, id: nat, pgOnly: bool, pgForce: bool, noSfs: bool,
                         apps: seq<App>, ctxRules: seq<CtxRule>, pathRules: seq<PathRule>)

  datatype Ruleset = Ruleset(addr: nat, alf: seq<Block>, sfs: seq<Block>, sb: seq<Block>, ctx: seq<Block>)

  /** struct pe_user: the rulesets of one user, indexed by priority. */
  datatype User = User(uid: Uid, prio: seq<Option<Ruleset>>)

  predicate DbShape(db: seq<User>) {
    && (forall k | 0 <= k < |db| :: |db[k].prio| == PRIOS)
    && (forall j, k | 0 <= j < k < |db| :: db[j].uid != db[k].uid)
  }

  /** struct pe_policy_db: a list of users. */
  type Db = db: seq<User> | DbShape(db)

  /** No ruleset is reachable through two slots of the database. */
  ghost predicate DbDistinct(db: Db) {
    forall j, k, a: Prio, b: Prio | 0 <= j < |db| && 0 <= k < |db| && db[j].prio[a].Some? ::
      db[j].prio[a] == db[k].prio[b] ==> j == k && a == b
  }

  ghost predicate Owns(db: Db, rs: Ruleset) {
    exists k, i: Prio :: 0 <= k < |db| && db[k].prio[i] == Some(rs)
  }

  /** pe_user_get */
  function FindUser(db: Db, uid: Uid): (r: Option<nat>)
    ensures r.Some? ==> r.value < |db| && db[r.value].uid == uid && forall k | 0 <= k < r.value :: db[k].uid != uid
    ensures r.None? ==> forall k | 0 <= k < |db| :: db[k].uid != uid
  {
    FindUserFrom(db, uid, 0)
  }

  function FindUserFrom(db: Db, uid: Uid, from: nat): (r: Option<nat>)
    requires from <= |db|
    ensures r.Some? ==>
              from <= r.value < |db| && db[r.value].uid == uid && forall k | from <= k < r.value :: db[k].uid != uid
    ensures r.None? ==> forall k | from <= k < |db| :: db[k].uid != uid
    decreases |db| - from
  {
    if from == |db| then None
    else if db[from].uid == uid then Some(from)
    else FindUserFrom(db, uid, from + 1)
  }

  /** The ruleset stored for exactly this user, without the default user. */
  function OwnRuleset(db: Db, uid: Uid, prio: Prio): (r: Option<Ruleset>)
  {
    match FindUser(db, uid)
    case None => None
    case Some(k) => db[k].prio[prio]
  }

  /** pe_user_get_ruleset: the user's own ruleset, else that of the default user. */
  function GetRuleset(db: Db, uid: Uid, prio: Prio): (r: Option<Ruleset>)
    ensures r.Some? ==> Owns(db, r.value)
  {
    if OwnRuleset(db, uid, prio).Some? then OwnRuleset(db, uid, prio) else OwnRuleset(db, NO_UID, prio)
  }

  /** A ruleset comes from the first entry of the user, or if that has none from the default user. */
  lemma RulesetOrder(db: Db, uid: Uid, prio: Prio, k: nat)
    requires k < |db| && db[k].uid == uid && forall j | 0 <= j < k :: db[j].uid != uid
    ensures db[k].prio[prio].Some? || uid == NO_UID ==> GetRuleset(db, uid, prio) == db[k].prio[prio]
    ensures db[k].prio[prio].None? ==> GetRuleset(db, uid, prio) == GetRuleset(db, NO_UID, prio)
  {
    assert FindUser(db, uid) == Some(k);
  }

  /** A user without an entry gets what the default user has. */
  lemma RulesetOfStranger(db: Db, uid: Uid, prio: Prio)
    requires forall j | 0 <= j < |db| :: db[j].uid != uid
    ensures GetRuleset(db, uid, prio) == GetRuleset(db, NO_UID, prio)
    ensures (forall j | 0 <= j < |db| :: db[j].uid != NO_UID) ==> GetRuleset(db, uid, prio) == None
  {
  }

  /** The database part of pe_user_insert_rs. */
  function Insert(db: Db, rs: Ruleset, uid: Uid, prio: Prio): (r: Db)
  {
    match FindUser(db, uid)
    case None => db + [User(uid, [None, None][prio := Some(rs)])]
    case Some(k) => db[k := db[k].(prio := db[k].prio[prio := Some(rs)])]
  }

  /** Insertion changes the slot of the one user and nothing else. */
  lemma InsertOwn(db: Db, rs: Ruleset, uid: Uid, prio: Prio, u: Uid, i: Prio)
    ensures OwnRuleset(Insert(db, rs, uid, prio), u, i)
         == if u == uid && i == prio then Some(rs) else OwnRuleset(db, u, i)
  {
    var db' := Insert(db, rs, uid, prio);
    match FindUser(db, uid) {
      case None => assert db'[|db|].uid == uid;
      case Some(k) => assert db'[k].uid == uid;
    }
    match FindUser(db, u) {
      case None =>
      case Some(k) => assert db'[k].uid == u;
    }
  }

  /** The index of the user's entry after an insertion. */
  function InsertPos(db: Db, uid: Uid): nat {
    var f := FindUser(db, uid);
    if f.Some? then f.value else |db|
  }

  /** Every slot of the new database is the inserted one, an old one, or an empty one of a new user. */
  lemma InsertSlots(db: Db, rs: Ruleset, uid: Uid, prio: Prio)
    ensures var db' := Insert(db, rs, uid, prio); var p := InsertPos(db, uid);
      && p < |db'| && db'[p].prio[prio] == Some(rs)
      && forall k, i: Prio | 0 <= k < |db'| && (k != p || i != prio) ::
           if k < |db| then db'[k].prio[i] == db[k].prio[i] else db'[k].prio[i] == None
  {
  }

  /** A fresh ruleset keeps the slots distinct. */
  lemma InsertDistinct(db: Db, rs: Ruleset, uid: Uid, prio: Prio)
    requires DbDistinct(db) && !Owns(db, rs)
    ensures DbDistinct(Insert(db, rs, uid, prio))
  {
    InsertSlots(db, rs, uid, prio);
    var db' := Insert(db, rs, uid, prio);
    forall j, k, a: Prio, b: Prio | 0 <= j < |db'| && 0 <= k < |db'| && db'[j].prio[a].Some?
                        && db'[j].prio[a] == db'[k].prio[b]
      ensures j == k && a == b
    {
      var p := InsertPos(db, uid);
      if j == p && a == prio {
        if k != p || b != prio {
          assert false;
        }
      } else {
        assert j < |db| && db[j].prio[a] == db'[j].prio[a];
        assert !(k == p && b == prio);
      }
    }
  }

  /** The replaced ruleset is no longer in the database. */
  lemma InsertDropsOld(db: Db, rs: Ruleset, uid: Uid, prio: Prio)
    requires DbDistinct(db) && !Owns(db, rs)
    requires OwnRuleset(db, uid, prio).Some?
    ensures !Owns(Insert(db, rs, uid, prio), OwnRuleset(db, uid, prio).value)
  {
    InsertSlots(db, rs, uid, prio);
    var old' := OwnRuleset(db, uid, prio);
    var db' := Insert(db, rs, uid, prio);
    var p := InsertPos(db, uid);
    forall k, i: Prio | 0 <= k < |db'|
      ensures db'[k].prio[i] != old'
    {
      if k == p && i == prio {
        assert Owns(db, old'.value);
      } else if k < |db| {
        assert db[p].prio[prio] == old';
      }
    }
  }
}

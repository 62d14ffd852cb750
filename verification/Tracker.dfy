/**
 * The process tracker with its heap: process structures and contexts are shared,
 * reference counted objects (pe_proc.c, pe_context.c, pe_user.c). Every method is
 * proved against the functions on values in Contexts.dfy and Processes.dfy.
 */
module Tracker {
  import opened Basics
  import opened Policy
  import opened Contexts
  import opened Processes

  /** struct pe_context. Everything but the reference count is fixed once it is searched. */
  class Context {
    const val: Ctx
    var refcount: int
    /** The slots (process, index) that hold a reference. */
    ghost var owners: set<(Process, nat)>
    /** The number of references held in local variables. */
    ghost var held: nat

    /** pe_context_alloc */
    constructor (val: Ctx)
      ensures this.val == val && refcount == 1 && owners == {} && held == 1
    {
      this.val := val;
      refcount := 1;
      owners, held := {}, 1;
    }
  }

  ghost function Val(c: Context?): Option<Ctx> {
    if c == null then None else Some(c.val)
  }

  /** struct pe_proc */
  class Process {
    const cookie: Cookie
    var refcount: int
    /** References in local variables, and whether the tracker holds one. */
    ghost var held: nat
    ghost var tracked: bool
    var instances: int
    var threads: int
    var uid: Uid
    var pgid: Cookie
    var ident: Ident
    var flags: Flags
    var borrow: seq<Cookie>
    var context: seq<Context?>
    var savedCtx: seq<Context?>

    /** pe_proc_alloc */
    constructor (uid: Uid, cookie: Cookie, ident: Ident, pgid: Cookie)
      ensures this.cookie == cookie && this.uid == uid && this.ident == ident && this.pgid == pgid
      ensures refcount == 1 && held == 1 && !tracked && instances == 0 && threads == 0 && flags == NO_FLAGS
      ensures borrow == [0, 0] && context == [null, null] && savedCtx == [null, null]
      ensures Shape() && View() == NewProc(uid, cookie, ident, pgid).(instances := 0)
              && forall k: nat :: Slot(k) == null
    {
      this.cookie, this.uid, this.ident, this.pgid := cookie, uid, ident, pgid;
      refcount, held, tracked, instances, threads, flags := 1, 1, false, 0, 0, NO_FLAGS;
      borrow, context, savedCtx := [0, 0], [null, null], [null, null];
    }

    ghost predicate Shape()
      reads `borrow, `context, `savedCtx
    {
      |borrow| == PRIOS && |context| == PRIOS && |savedCtx| == PRIOS
    }

    ghost function Prio(i: Prio): PrioCtx
      reads `borrow, `context, `savedCtx
      requires Shape()
    {
      PrioCtx(Val(context[i]), Val(savedCtx[i]), borrow[i])
    }

    /** The four places that hold a reference to a context. */
    ghost function Slot(k: nat): Context?
      reads `borrow, `context, `savedCtx
      requires Shape()
    {
      if k < PRIOS then context[k] else if k < 2 * PRIOS then savedCtx[k - PRIOS] else null
    }

    /** The process as a value: sharing and reference counts are invisible. */
    ghost function View(): Proc
      reads `uid, `pgid, `ident, `instances, `threads, `flags, `borrow, `context, `savedCtx
      requires Shape()
    {
      Proc(cookie, uid, pgid, ident, instances, threads, flags, [Prio(0), Prio(1)])
    }
  }

  /** A struct pe_proc_ident pointer: into a context, into a process, or to data of the event */
  datatype IdentRef = OfContext(ctx: Context) | OfProcess(proc: Process) | OfEvent(ident: Ident)

  ghost function ViewOf(p: Process?): Option<Proc>
    reads (if p == null then {} else {p})
    requires p != null ==> p.Shape()
  {
    if p == null then None else Some(p.View())
  }

  ghost predicate Shapes(s: seq<Process>)
    reads s`borrow, s`context, s`savedCtx
  {
    forall k | 0 <= k < |s| :: s[k].Shape()
  }

  ghost predicate Distinct(s: seq<Process>) {
    forall j, k | 0 <= j < k < |s| :: s[j] != s[k]
  }

  ghost function Views(s: seq<Process>): (r: seq<Proc>)
    reads s`uid, s`pgid, s`ident, s`instances, s`threads, s`flags, s`borrow, s`context, s`savedCtx
    requires Shapes(s)
    ensures |r| == |s| && forall k | 0 <= k < |s| :: r[k] == s[k].View()
  {
    if s == [] then [] else Views(s[..|s| - 1]) + [s[|s| - 1].View()]
  }

  /** The borrow cookies and contexts of all other priorities are as before. */
  twostate predicate OnlyPrio(p: Process, i: Prio)
    reads p`context, p`savedCtx, p`borrow
  {
    && p.Shape() && old(p.Shape())
    && p.context == old(p.context)[i := p.context[i]]
    && p.savedCtx == old(p.savedCtx)[i := p.savedCtx[i]]
    && p.borrow == old(p.borrow)[i := p.borrow[i]]
  }

  /** Changing one process of a list changes its entry in the list of values. */
  lemma OneView(s: seq<Process>, k: nat, before: seq<Proc>)
    requires k < |s| && Shapes(s) && |before| == |s|
    requires forall j | 0 <= j < |s| && j != k :: s[j].View() == before[j]
    ensures Views(s) == before[k := s[k].View()]
  {
  }

  lemma OneLess(s: seq<Process>, k: nat)
    requires Shapes(s) && k < |s|
    ensures Views(s[..k] + s[k + 1..]) == Views(s)[..k] + Views(s)[k + 1..]
  {
    hide Views;
    hide Process.View;
    var t := s[..k] + s[k + 1..];
    assert forall j | 0 <= j < |t| :: t[j] == if j < k then s[j] else s[j + 1];
  }

  lemma OneMore(s: seq<Process>, p: Process)
    requires Shapes(s) && p.Shape()
    ensures Views(s + [p]) == Views(s) + [p.View()]
  {
    assert (s + [p])[..|s|] == s;
  }

  /** The events on one tracked process, given its position */
  lemma ExecAt(s: Engine, at: Option<nat>, cookie: Cookie, uid: Uid, ident: Ident, pgid: Cookie, secure: bool, env: Env)
    requires Find(s.procs, cookie) == at
    ensures var procs := EnsureTracked(s.procs, uid, cookie, pgid); var k := if at.Some? then at.value else |s.procs|;
      && procs == (if at.Some? then s.procs else s.procs + [NewProc(uid, cookie, NO_IDENT, pgid)])
      && Step(s, ExecEv(cookie, uid, ident, pgid, secure), env)
      == s.(procs := procs[k := ExecProc(procs[k], s.db, uid, ident, secure, env)])
  {
    hide ExecProc;
    hide Find;
    if at.None? {
      FindAppended(s.procs, NewProc(uid, cookie, NO_IDENT, pgid));
    }
  }

  lemma PlaygroundAt(s: Engine, at: Option<nat>, cookie: Cookie, pgid: Cookie, env: Env)
    requires Find(s.procs, cookie) == at
    ensures Step(s, PlaygroundEv(cookie, pgid), env)
         == if at.None? then s
            else s.(procs := s.procs[at.value := RefreshBoth(s.procs[at.value].(pgid := pgid), s.db, env)])
  {
    hide Find;
    hide RefreshBoth;
  }

  ghost function Obj(c: Context?): set<Context> {
    if c == null then {} else {c}
  }

  class PolicyEngine {
    var tracker: seq<Process>
    var db: Db

    // The heap: all allocated structures.
    ghost var procs: set<Process>
    ghost var ctxs: set<Context>

    /** pe_proc_init and pe_user_init */
    constructor (db: Db)
      ensures Calm(multiset{}) && State() == Engine([], db)
    {
      tracker, this.db := [], db;
      procs, ctxs := {}, {};
    }

    /** The reference count of a process counts the tracker and the references held in variables. */
    ghost predicate TrackerOk()
      reads `procs, `tracker, procs`refcount, procs`held, procs`tracked, procs`instances
    {
      && (forall k | 0 <= k < |tracker| :: tracker[k] in procs && tracker[k].tracked)
      && (forall p <- procs :: p.tracked ==> p in tracker)
      && Distinct(tracker)
      && (forall p <- procs :: p.refcount == p.held + (if p.tracked then 1 else 0) && p.refcount > 0)
      && (forall p <- procs :: if p.tracked then p.instances >= 1 else p.instances == 0)
    }

    ghost predicate ShapesOk()
      reads `procs, procs`borrow, procs`context, procs`savedCtx
    {
      forall p <- procs :: p.Shape()
    }

    /** A pointer in a process leads to an allocated context that knows about it. */
    ghost predicate PointersOk()
      reads `procs, `ctxs, procs`borrow, procs`context, procs`savedCtx, ctxs`owners
      requires ShapesOk()
    {
      forall p <- procs, k: nat :: p.Slot(k) != null ==> p.Slot(k) in ctxs && (p, k) in p.Slot(k).owners
    }

    /** A context is owned only by slots that point to it. */
    ghost predicate OwnersOk()
      reads `procs, `ctxs, procs`borrow, procs`context, procs`savedCtx, ctxs`owners
      requires ShapesOk()
    {
      forall c <- ctxs, s <- c.owners :: s.0 in procs && s.0.Slot(s.1) == c
    }

    /** The reference count of a context is the number of its owners and of references held in variables. */
    ghost predicate CountsOk()
      reads `ctxs, ctxs`owners, ctxs`held, ctxs`refcount
    {
      forall c <- ctxs :: c.refcount == |c.owners| + c.held && c.refcount > 0
    }

    ghost predicate CtxInv()
      reads `procs, `ctxs, procs`borrow, procs`context, procs`savedCtx, ctxs`owners, ctxs`held, ctxs`refcount
    {
      ShapesOk() && PointersOk() && OwnersOk() && CountsOk()
    }

    ghost predicate Inv()
      reads `procs, `tracker, `ctxs, procs`refcount, procs`held, procs`tracked, procs`instances,
            procs`borrow, procs`context, procs`savedCtx, ctxs`owners, ctxs`held, ctxs`refcount
    {
      TrackerOk() && CtxInv()
    }

    /** No variable holds a reference to a context, except possibly to this one. */
    ghost predicate Idle(except: Context?)
      reads `ctxs, ctxs`held
    {
      forall c <- ctxs :: c == except || c.held == 0
    }

    /** Exactly these references to processes are held in variables. */
    ghost predicate Holds(m: multiset<Process>)
      reads `procs, procs`held
    {
      forall p <- procs :: p.held == m[p]
    }

    /**
     * Between two steps of an event handler: all counts are exact, no variable refers to
     * a context and the variables refer to the processes in m. Between events m is empty.
     */
    ghost predicate Calm(m: multiset<Process>)
      reads `procs, `tracker, `ctxs, procs`refcount, procs`held, procs`tracked, procs`instances,
            procs`borrow, procs`context, procs`savedCtx, ctxs`owners, ctxs`held, ctxs`refcount
    {
      Inv() && Idle(null) && Holds(m)
    }

    ghost function Procs(): (r: seq<Proc>)
      ensures |r| == |tracker|
      reads `tracker, tracker`uid, tracker`pgid, tracker`ident, tracker`instances, tracker`threads, tracker`flags,
            tracker`borrow, tracker`context, tracker`savedCtx
      requires Shapes(tracker)
    {
      Views(tracker)
    }

    ghost function State(): Engine
      reads `db, `tracker, tracker`uid, tracker`pgid, tracker`ident, tracker`instances, tracker`threads,
            tracker`flags, tracker`borrow, tracker`context, tracker`savedCtx
      requires Shapes(tracker)
    {
      Engine(Procs(), db)
    }

    lemma CalmShapes(m: multiset<Process>)
      requires Calm(m)
      ensures Shapes(tracker) && forall p <- tracker :: p in procs
    {
    }

    lemma InstancesAt(k: nat)
      requires k < |tracker| && Calm(multiset{} + multiset{tracker[k]})
      ensures Procs()[k].instances == tracker[k].instances >= 1
    {
    }

    lemma SlotLive(p: Process, i: Prio)
      requires CtxInv() && p in procs
      ensures p.context[i] != null ==> p.context[i] in ctxs
    {
      assert p.context[i] == p.Slot(i);
    }

    lemma CurrentAt(k: nat, i: Prio)
      requires Shapes(tracker) && k < |tracker|
      ensures Procs()[k].prio[i].cur == Val(tracker[k].context[i]) && Procs()[k].uid == tracker[k].uid
    {
    }

    lemma IdentAt(k: nat)
      requires Shapes(tracker) && k < |tracker|
      ensures Procs()[k].ident == tracker[k].ident
    {
    }

    /**
     * Between events nothing leaks: every allocated process is in the tracker, which holds
     * its only reference, and every allocated context is used by a tracked process.
     */
    lemma NothingLeaks()
      requires Calm(multiset{})
      ensures forall p <- procs :: p in tracker && p.refcount == 1 && p.instances >= 1
      ensures forall c <- ctxs :: c.refcount == |c.owners| > 0
      ensures forall c <- ctxs, s <- c.owners :: s.0 in tracker && s.0.Shape() && s.0.Slot(s.1) == c
      ensures forall p <- tracker, k: nat ::
                p.Shape() && (p.Slot(k) != null ==> p.Slot(k) in ctxs && (p, k) in p.Slot(k).owners)
    {
    }

    // ------------------------------------------------------------ reading contexts

    /** A context is only read while it is allocated. */
    function Read(c: Context): Ctx
      reads `ctxs
      requires c in ctxs
    {
      c.val
    }

    function ReadSlot(c: Context?): (r: Option<Ctx>)
      reads `ctxs
      requires c != null ==> c in ctxs
      ensures r == Val(c)
    {
      if c == null then None else Some(Read(c))
    }

    /** The owner of the data behind the pointer is allocated. */
    ghost predicate Live(r: IdentRef)
      reads `ctxs, `procs
    {
      match r
      case OfContext(c) => c in ctxs
      case OfProcess(p) => p in procs
      case OfEvent(_) => true
    }

    function Deref(r: IdentRef): Ident
      reads `ctxs, `procs, (if r.OfProcess? then {r.proc} else {})`ident
      requires Live(r)
    {
      match r
      case OfContext(c) => Read(c).ident
      case OfProcess(p) => p.ident
      case OfEvent(ident) => ident
    }

    // ------------------------------------------------------------ reference counts

    /** pe_context_reference */
    method ReferenceContext(c: Context)
      requires CtxInv() && c in ctxs
      modifies c`refcount, c`held
      ensures CtxInv() && c.held == old(c.held) + 1
    {
      c.refcount := c.refcount + 1;
      c.held := c.held + 1;
    }

    /** pe_context_put of a reference held by the caller */
    method PutContext(c: Context)
      requires CtxInv() && c in ctxs && c.held > 0
      modifies `ctxs, c`refcount, c`held
      ensures CtxInv() && c.held == old(c.held) - 1
      ensures ctxs == old(ctxs) || (ctxs == old(ctxs) - {c} && c.held == 0)
    {
      c.refcount := c.refcount - 1;
      c.held := c.held - 1;
      if c.refcount == 0 {
        ctxs := ctxs - {c};
      }
    }

    /** Empties context[i]; the reference moves to the caller. */
    method TakeContext(p: Process, i: Prio) returns (c: Context?)
      requires CtxInv() && p in procs
      modifies p`context, Obj(p.Slot(i))`owners, Obj(p.Slot(i))`held
      ensures CtxInv()
      ensures c == old(p.context[i]) && p.context == old(p.context)[i := null]
      ensures c != null ==> c in ctxs && c.held == old(c.held) + 1
    {
      c := p.context[i];
      p.context := p.context[i := null];
      if c != null {
        c.owners := c.owners - {(p, i)};
        c.held := c.held + 1;
      }
      assert forall q <- procs, k: nat :: (q == p && k == i) || q.Slot(k) == old(q.Slot(k));
    }

    /** Fills the empty context[i] with a reference of the caller. */
    method FillContext(p: Process, i: Prio, c: Context?)
      requires CtxInv() && p in procs && p.context[i] == null && (c != null ==> c in ctxs && c.held > 0)
      modifies p`context, Obj(c)`owners, Obj(c)`held
      ensures CtxInv()
      ensures p.context == old(p.context)[i := c]
      ensures c != null ==> c.held == old(c.held) - 1
    {
      p.context := p.context[i := c];
      if c != null {
        c.owners := c.owners + {(p, i)};
        c.held := c.held - 1;
      }
      assert forall q <- procs, k: nat :: (q == p && k == i) || q.Slot(k) == old(q.Slot(k));
    }

    /** Empties saved_ctx[i]; the reference moves to the caller. */
    method TakeSaved(p: Process, i: Prio) returns (c: Context?)
      requires CtxInv() && p in procs
      modifies p`savedCtx, Obj(p.Slot(PRIOS + i))`owners, Obj(p.Slot(PRIOS + i))`held
      ensures CtxInv()
      ensures c == old(p.savedCtx[i]) && p.savedCtx == old(p.savedCtx)[i := null]
      ensures c != null ==> c in ctxs && c.held == old(c.held) + 1
    {
      c := p.savedCtx[i];
      p.savedCtx := p.savedCtx[i := null];
      if c != null {
        c.owners := c.owners - {(p, PRIOS + i)};
        c.held := c.held + 1;
      }
      assert forall q <- procs, k: nat :: (q == p && k == PRIOS + i) || q.Slot(k) == old(q.Slot(k));
    }

    /** Fills the empty saved_ctx[i] with a reference of the caller. */
    method FillSaved(p: Process, i: Prio, c: Context?)
      requires CtxInv() && p in procs && p.savedCtx[i] == null && (c != null ==> c in ctxs && c.held > 0)
      modifies p`savedCtx, Obj(c)`owners, Obj(c)`held
      ensures CtxInv()
      ensures p.savedCtx == old(p.savedCtx)[i := c]
      ensures c != null ==> c.held == old(c.held) - 1
    {
      p.savedCtx := p.savedCtx[i := c];
      if c != null {
        c.owners := c.owners + {(p, PRIOS + i)};
        c.held := c.held - 1;
      }
      assert forall q <- procs, k: nat :: (q == p && k == PRIOS + i) || q.Slot(k) == old(q.Slot(k));
    }

    // ------------------------------------------------------------ context slots

    /** pe_proc_set_context */
    method SetContext(p: Process, i: Prio, c: Context?)
      requires CtxInv() && Idle(c) && p in procs && (c != null ==> c in ctxs)
      modifies `ctxs, p`context, ctxs`refcount, ctxs`owners, ctxs`held
      ensures CtxInv() && Idle(c) && ctxs <= old(ctxs)
      ensures c != null ==> c in ctxs && c.held == old(c.held)
      ensures p.context == old(p.context)[i := c]
    {
      if c != null {
        ReferenceContext(c);
      }
      var previous := TakeContext(p, i);
      FillContext(p, i, c);
      if previous != null {
        PutContext(previous);
      }
    }

    /** pe_proc_set_savedctx */
    method SetSavedCtx(p: Process, i: Prio, c: Context?)
      requires CtxInv() && Idle(c) && p in procs && (c != null ==> c in ctxs)
      modifies `ctxs, p`savedCtx, ctxs`refcount, ctxs`owners, ctxs`held
      ensures CtxInv() && Idle(c) && ctxs <= old(ctxs)
      ensures c != null ==> c in ctxs && c.held == old(c.held)
      ensures p.savedCtx == old(p.savedCtx)[i := c]
    {
      if c != null {
        ReferenceContext(c);
      }
      var previous := TakeSaved(p, i);
      FillSaved(p, i, c);
      if previous != null {
        PutContext(previous);
      }
    }

    /** The second half of pe_proc_save_ctx: the reference moves from one slot to the other. */
    method MoveToSaved(p: Process, i: Prio, cookie: Cookie)
      requires CtxInv() && p in procs && p.savedCtx[i] == null
      modifies p`context, p`savedCtx, p`borrow, Obj(p.Slot(i))`owners
      ensures CtxInv()
      ensures p.context == old(p.context)[i := null]
      ensures p.savedCtx == old(p.savedCtx)[i := old(p.context[i])]
      ensures p.borrow == old(p.borrow)[i := cookie]
    {
      var c := p.context[i];
      assert p.Slot(i) == c && p.Slot(PRIOS + i) == null;
      p.savedCtx := p.savedCtx[i := c];
      p.context := p.context[i := null];
      p.borrow := p.borrow[i := cookie];
      if c != null {
        assert (p, i) in c.owners && (p, PRIOS + i) !in c.owners;
        c.owners := c.owners - {(p, i)} + {(p, PRIOS + i)};
        assert |c.owners| == |old(c.owners)|;
      }
      assert forall q <- procs, k: nat :: (q == p && (k == i || k == PRIOS + i)) || q.Slot(k) == old(q.Slot(k));
      assert PointersOk();
      assert OwnersOk();
      assert CountsOk();
    }

    /** pe_proc_save_ctx */
    method SaveCtx(p: Process, i: Prio, cookie: Cookie)
      requires CtxInv() && p in procs
      modifies p`context, p`savedCtx, p`borrow, Obj(p.Slot(i))`owners
      ensures CtxInv()
      ensures p.Shape() && p.Prio(i) == Save(old(p.Prio(i)), cookie)
      ensures p.context == old(p.context)[i := p.context[i]]
      ensures p.savedCtx == old(p.savedCtx)[i := p.savedCtx[i]]
      ensures p.borrow == old(p.borrow)[i := p.borrow[i]]
    {
      if p.savedCtx[i] == null {
        MoveToSaved(p, i, cookie);
      }
    }

    /** pe_proc_restore_ctx */
    method RestoreCtx(p: Process, i: Prio, cookie: Cookie)
      requires CtxInv() && Idle(null) && p in procs
      modifies `ctxs, p`context, p`savedCtx, ctxs`refcount, ctxs`owners, ctxs`held
      ensures CtxInv() && Idle(null) && ctxs <= old(ctxs)
      ensures p.Prio(i) == Restore(old(p.Prio(i)), cookie)
      ensures p.context == old(p.context)[i := p.context[i]]
      ensures p.savedCtx == old(p.savedCtx)[i := p.savedCtx[i]]
    {
      if p.savedCtx[i] != null && p.borrow[i] == cookie {
        assert p.Slot(PRIOS + i) != null;
        SetContext(p, i, p.savedCtx[i]);
        var c := TakeSaved(p, i);
        PutContext(c);
      }
    }

    /** pe_proc_drop_saved_ctx */
    method DropSavedCtx(p: Process, i: Prio)
      requires CtxInv() && Idle(null) && p in procs
      modifies `ctxs, p`savedCtx, ctxs`refcount, ctxs`owners, ctxs`held
      ensures CtxInv() && Idle(null) && ctxs <= old(ctxs)
      ensures p.savedCtx == old(p.savedCtx)[i := null]
    {
      if p.savedCtx[i] != null {
        var c := TakeSaved(p, i);
        PutContext(c);
      }
    }

    // ------------------------------------------------------------ searching a context

    /** A new context with one reference held by the caller. */
    method AllocContext(val: Ctx) returns (c: Context)
      requires CtxInv() && Idle(null)
      modifies `ctxs
      ensures fresh(c) && c.val == val && c.held == 1 && ctxs == old(ctxs) + {c}
      ensures CtxInv() && Idle(c)
    {
      c := new Context(val);
      ctxs := ctxs + {c};
    }

    /** pe_context_norules */
    method ContextNoRules(p: Process, i: Prio)
      requires CtxInv() && Idle(null) && p in procs
      modifies `ctxs, p`context, ctxs`refcount, ctxs`owners, ctxs`held
      ensures CtxInv() && Idle(null) && fresh(ctxs - old(ctxs))
      ensures p.Shape()
      ensures Val(p.context[i]) == NoRules(Val(old(p.context[i])))
      ensures p.context == old(p.context)[i := p.context[i]]
    {
      var c := p.context[i];
      assert c == p.Slot(i);
      if c != null && !IsNoRules(Read(c)) {
        var n := AllocContext(Ctx(None, None, None, None, Deref(OfContext(c))));
        SetContext(p, i, n);
        PutContext(n);
      }
    }

    /** pe_savedctx_norules */
    method SavedNoRules(p: Process, i: Prio)
      requires CtxInv() && Idle(null) && p in procs
      modifies `ctxs, p`savedCtx, ctxs`refcount, ctxs`owners, ctxs`held
      ensures CtxInv() && Idle(null) && fresh(ctxs - old(ctxs))
      ensures p.Shape()
      ensures Val(p.savedCtx[i]) == NoRules(Val(old(p.savedCtx[i])))
      ensures p.savedCtx == old(p.savedCtx)[i := p.savedCtx[i]]
    {
      var c := p.savedCtx[i];
      assert c == p.Slot(PRIOS + i);
      if c != null && !IsNoRules(Read(c)) {
        var n := AllocContext(Ctx(None, None, None, None, Deref(OfContext(c))));
        SetSavedCtx(p, i, n);
        PutContext(n);
      }
    }

    /** pe_context_search, put into the current context of the process; pident may be part of that context. */
    method SearchContext(p: Process, i: Prio, rs: Ruleset, pident: IdentRef, uid: Uid, env: Env)
      requires CtxInv() && Idle(null) && p in procs && Live(pident)
      modifies `ctxs, p`context, ctxs`refcount, ctxs`owners, ctxs`held
      ensures CtxInv() && Idle(null) && fresh(ctxs - old(ctxs))
      ensures p.Shape()
      ensures Val(p.context[i]) == Some(Search(rs, old(Deref(pident)), uid, p.pgid != 0, env))
      ensures p.context == old(p.context)[i := p.context[i]]
    {
      var val := SearchRules(rs, Deref(pident), uid, p.pgid != 0, env);
      var n := AllocContext(val);
      SetContext(p, i, n);
      PutContext(n);
    }

    /** The same for the saved context */
    method SearchSaved(p: Process, i: Prio, rs: Ruleset, pident: IdentRef, env: Env)
      requires CtxInv() && Idle(null) && p in procs && Live(pident)
      modifies `ctxs, p`savedCtx, ctxs`refcount, ctxs`owners, ctxs`held
      ensures CtxInv() && Idle(null) && fresh(ctxs - old(ctxs))
      ensures p.Shape()
      ensures Val(p.savedCtx[i]) == Some(Search(rs, old(Deref(pident)), p.uid, p.pgid != 0, env))
      ensures p.savedCtx == old(p.savedCtx)[i := p.savedCtx[i]]
    {
      var val := SearchRules(rs, Deref(pident), p.uid, p.pgid != 0, env);
      var n := AllocContext(val);
      SetSavedCtx(p, i, n);
      PutContext(n);
    }

    /** pe_context_switch; the owner of pident is allocated when it is read. */
    method ContextSwitch(p: Process, i: Prio, pident: IdentRef, uid: Uid, env: Env)
      requires CtxInv() && Idle(null) && p in procs && Live(pident)
      modifies `ctxs, p`context, ctxs`refcount, ctxs`owners, ctxs`held
      ensures CtxInv() && Idle(null) && fresh(ctxs - old(ctxs))
      ensures p.Shape()
      ensures Val(p.context[i]) ==
              Switch(Val(old(p.context[i])), GetRuleset(db, uid, i), old(Deref(pident)), uid, p.pgid != 0, env)
      ensures p.context == old(p.context)[i := p.context[i]]
    {
      var rs := GetRuleset(db, uid, i);
      if rs.None? {
        ContextNoRules(p, i);
      } else {
        SearchContext(p, i, rs.value, pident, uid, env);
      }
    }

    /** pe_context_refresh */
    method ContextRefresh(p: Process, i: Prio, env: Env)
      requires CtxInv() && Idle(null) && p in procs
      modifies `ctxs, p`context, p`savedCtx, ctxs`refcount, ctxs`owners, ctxs`held
      ensures CtxInv() && Idle(null) && fresh(ctxs - old(ctxs))
      ensures OnlyPrio(p, i)
      ensures p.Prio(i) == Refresh(old(p.Prio(i)), GetRuleset(db, p.uid, i), p.ident, p.uid, p.pgid != 0, env)
    {
      var rs := GetRuleset(db, p.uid, i);
      if rs.None? {
        ContextNoRules(p, i);
        SavedNoRules(p, i);
        return;
      }
      assert p.context[i] == p.Slot(i);
      if p.context[i] != null {
        SearchContext(p, i, rs.value, OfContext(p.context[i]), p.uid, env);
      } else {
        SearchContext(p, i, rs.value, OfProcess(p), p.uid, env);
      }
      assert p.savedCtx[i] == p.Slot(PRIOS + i);
      if p.savedCtx[i] != null {
        SearchSaved(p, i, rs.value, OfContext(p.savedCtx[i]), env);
      }
    }

    /** pe_context_fork: share the context of a parent with the same uid. */
    method ContextFork(p: Process, parent: Process?, env: Env)
      requires CtxInv() && Idle(null) && p in procs && parent != p && (parent != null ==> parent in procs)
      requires p.context == [null, null] && p.savedCtx == [null, null]
      modifies `ctxs, p`context, p`savedCtx, ctxs`refcount, ctxs`owners, ctxs`held
      ensures CtxInv() && Idle(null) && fresh(ctxs - old(ctxs)) && p.Shape()
      ensures forall i: Prio :: p.context[i] == null || p.context[i] in ctxs
      ensures forall i: Prio ::
                var inherited := if parent != null && parent.uid == p.uid then Val(parent.context[i]) else None;
                Val(p.context[i]) == Fork(inherited, GetRuleset(db, p.uid, i), p.ident, p.uid, p.pgid != 0, env).cur
      ensures p.savedCtx == [null, null]
    {
      for i := 0 to PRIOS
        invariant CtxInv() && Idle(null) && fresh(ctxs - old(ctxs)) && p.Shape()
        invariant p.savedCtx == [null, null]
        invariant forall j: Prio :: i <= j ==> p.context[j] == null
        invariant forall j: Prio :: j < i ==>
                    var inherited := if parent != null && parent.uid == p.uid then Val(parent.context[j]) else None;
                    Val(p.context[j]) == Fork(inherited, GetRuleset(db, p.uid, j), p.ident, p.uid, p.pgid != 0, env).cur
      {
        if parent != null && parent.uid == p.uid && parent.context[i] != null {
          assert parent.Slot(i) != null;
          SetContext(p, i, parent.context[i]);
        } else {
          ContextSwitch(p, i, OfProcess(p), p.uid, env);
          DropSavedCtx(p, i);
        }
      }
      assert forall i: Prio :: p.Slot(i) == p.context[i];
    }

    /** One iteration of the loop of pe_context_exec, with the identity of the process as pident */
    method ExecPrio(p: Process, i: Prio, uid: Uid, env: Env)
      requires CtxInv() && Idle(null) && p in procs
      modifies `ctxs, p`context, p`savedCtx, ctxs`refcount, ctxs`owners, ctxs`held
      ensures CtxInv() && Idle(null) && fresh(ctxs - old(ctxs))
      ensures OnlyPrio(p, i)
      ensures p.Prio(i) == Execute(old(p.Prio(i)), p.uid, GetRuleset(db, uid, i), p.ident, uid, p.pgid != 0, env)
    {
      assert p.context[i] == p.Slot(i);
      var d := ContextDecide(ReadSlot(p.context[i]), p.uid, New, p.ident, uid, env);
      if d {
        ContextSwitch(p, i, OfProcess(p), uid, env);
        DropSavedCtx(p, i);
      }
    }

    /** pe_context_exec */
    method ContextExecute(p: Process, uid: Uid, env: Env)
      requires CtxInv() && Idle(null) && p in procs
      modifies `ctxs, p`context, p`savedCtx, p`uid, ctxs`refcount, ctxs`owners, ctxs`held
      ensures CtxInv() && Idle(null) && fresh(ctxs - old(ctxs))
      ensures p.Shape() && p.View() == ContextExec(old(p.View()), db, uid, p.ident, env)
    {
      for i := 0 to PRIOS
        invariant CtxInv() && Idle(null) && fresh(ctxs - old(ctxs)) && p.Shape()
        invariant p.uid == old(p.uid)
        invariant forall j: Prio :: j < i ==>
                    p.Prio(j) == Execute(old(p.Prio(j)), p.uid, GetRuleset(db, uid, j), p.ident, uid, p.pgid != 0, env)
        invariant forall j: Prio :: i <= j ==> p.Prio(j) == old(p.Prio(j))
      {
        ExecPrio(p, i, uid, env);
      }
      if uid != NO_UID {
        p.uid := uid;
      }
    }

    /** One iteration of the loop of pe_context_open */
    method OpenPrio(p: Process, i: Prio, uid: Uid, ident: Ident, env: Env)
      requires CtxInv() && Idle(null) && p in procs
      modifies `ctxs, p`context, p`savedCtx, ctxs`refcount, ctxs`owners, ctxs`held
      ensures CtxInv() && Idle(null) && fresh(ctxs - old(ctxs))
      ensures OnlyPrio(p, i)
      ensures p.Prio(i) == OpenFile(old(p.Prio(i)), p.uid, GetRuleset(db, uid, i), ident, uid, p.pgid != 0, env)
    {
      assert p.context[i] == p.Slot(i);
      var d := ContextDecide(ReadSlot(p.context[i]), p.uid, Open, ident, p.uid, env);
      if d {
        ContextSwitch(p, i, OfEvent(ident), uid, env);
      }
    }

    /** pe_context_open */
    method ContextOpenFile(p: Process, uid: Uid, ident: Ident, env: Env)
      requires CtxInv() && Idle(null) && p in procs
      modifies `ctxs, p`context, p`savedCtx, ctxs`refcount, ctxs`owners, ctxs`held
      ensures CtxInv() && Idle(null) && fresh(ctxs - old(ctxs))
      ensures p.Shape() && p.View() == if ident.csum.None? then old(p.View())
              else ContextOpen(old(p.View()), db, uid, ident, env)
    {
      if ident.csum.None? { return; }
      for i := 0 to PRIOS
        invariant CtxInv() && Idle(null) && fresh(ctxs - old(ctxs)) && p.Shape()
        invariant forall j: Prio :: j < i ==>
                    p.Prio(j) == OpenFile(old(p.Prio(j)), p.uid, GetRuleset(db, uid, j), ident, uid, p.pgid != 0, env)
        invariant forall j: Prio :: i <= j ==> p.Prio(j) == old(p.Prio(j))
      {
        OpenPrio(p, i, uid, ident, env);
      }
    }

    /** One iteration of the loop of pe_context_borrow; lender and p may be the same process. */
    method BorrowPrio(p: Process, lender: Process, i: Prio, cookie: Cookie, env: Env)
      requires CtxInv() && Idle(null) && p in procs && lender in procs
      modifies `ctxs, p`context, p`savedCtx, p`borrow, ctxs`refcount, ctxs`owners, ctxs`held
      ensures CtxInv() && Idle(null) && fresh(ctxs - old(ctxs))
      ensures OnlyPrio(p, i)
      ensures p.Prio(i) == BorrowFrom(old(p.Prio(i)), Val(old(lender.context[i])), lender.uid, p.uid,
                                      GetRuleset(db, p.uid, i), cookie, p.pgid != 0, env)
    {
      var c := lender.context[i];
      if c == null { return; }
      assert c == lender.Slot(i) && p.context[i] == p.Slot(i);
      var d := ContextDecide(ReadSlot(p.context[i]), p.uid, Borrow, Deref(OfContext(c)), lender.uid, env);
      if d && Read(c).ruleset == Read(p.context[i]).ruleset {
        assert Obj(p.Slot(i)) <= ctxs;
        SaveCtx(p, i, cookie);
        ContextSwitch(p, i, OfContext(c), p.uid, env);
      }
    }

    /** pe_context_borrow */
    method ContextBorrowFrom(p: Process, lender: Process, cookie: Cookie, env: Env)
      requires CtxInv() && Idle(null) && p in procs && lender in procs
      modifies `ctxs, p`context, p`savedCtx, p`borrow, ctxs`refcount, ctxs`owners, ctxs`held
      ensures CtxInv() && Idle(null) && fresh(ctxs - old(ctxs))
      ensures p.Shape() && p.View() == ContextBorrow(old(p.View()), old(lender.View()), db, cookie, env)
    {
      for i := 0 to PRIOS
        invariant CtxInv() && Idle(null) && fresh(ctxs - old(ctxs)) && p.Shape()
        invariant forall j: Prio :: i <= j ==> lender.Prio(j) == old(lender.Prio(j))
        invariant forall j: Prio :: i <= j ==> p.Prio(j) == old(p.Prio(j))
        invariant forall j: Prio :: j < i ==>
                    p.Prio(j) == BorrowFrom(old(p.Prio(j)), Val(old(lender.context[j])), lender.uid, p.uid,
                               GetRuleset(db, p.uid, j), cookie, p.pgid != 0, env)
      {
        BorrowPrio(p, lender, i, cookie, env);
      }
    }

    /** pe_context_restore */
    method ContextRestoreAll(p: Process, cookie: Cookie)
      requires CtxInv() && Idle(null) && p in procs
      modifies `ctxs, p`context, p`savedCtx, ctxs`refcount, ctxs`owners, ctxs`held
      ensures CtxInv() && Idle(null) && ctxs <= old(ctxs)
      ensures p.Shape() && p.View() == ContextRestore(old(p.View()), cookie)
    {
      for i := 0 to PRIOS
        invariant CtxInv() && Idle(null) && ctxs <= old(ctxs) && p.Shape()
        invariant forall j: Prio :: p.Prio(j) == if j < i then Restore(old(p.Prio(j)), cookie) else old(p.Prio(j))
      {
        RestoreCtx(p, i, cookie);
      }
    }

    // ------------------------------------------------------------ process references

    /** The list walk of pe_proc_get */
    method FindProcess(cookie: Cookie) returns (r: Option<nat>)
      requires Shapes(tracker)
      ensures r == Find(Procs(), cookie)
      ensures r.Some? ==> r.value < |tracker|
    {
      ghost var views := Procs();
      for k := 0 to |tracker|
        invariant forall j | 0 <= j < k :: views[j].cookie != cookie
      {
        assert views[k].cookie == tracker[k].cookie;
        if tracker[k].cookie == cookie {
          return Some(k);
        }
      }
      return None;
    }

    method ReferenceProcess(p: Process)
      requires TrackerOk() && p in procs
      modifies p`refcount, p`held
      ensures TrackerOk() && p.held == old(p.held) + 1
    {
      p.refcount := p.refcount + 1;
      p.held := p.held + 1;
    }

    /** The loop that releases the contexts of a process that is about to be freed. */
    method DropContexts(p: Process)
      requires CtxInv() && Idle(null) && p in procs
      modifies `ctxs, p`context, p`savedCtx, ctxs`refcount, ctxs`owners, ctxs`held
      ensures CtxInv() && Idle(null) && ctxs <= old(ctxs)
      ensures p.context == [null, null] && p.savedCtx == [null, null]
    {
      for i := 0 to PRIOS
        invariant CtxInv() && Idle(null) && ctxs <= old(ctxs) && p.Shape()
        invariant forall j: Prio :: j < i ==> p.context[j] == null && p.savedCtx[j] == null
      {
        SetContext(p, i, null);
        DropSavedCtx(p, i);
      }
    }

    /** A process without contexts may be forgotten. */
    method FreeProcess(p: Process)
      requires CtxInv() && p in procs
      requires p.context == [null, null] && p.savedCtx == [null, null]
      modifies `procs
      ensures CtxInv() && procs == old(procs) - {p}
    {
      assert forall k: nat :: p.Slot(k) == null;
      procs := procs - {p};
    }

    /**
     * pe_proc_put. The count of a tracked process cannot reach zero, and a process
     * that is not tracked has no instances, so there is nothing to panic about.
     */
    method PutProcess(p: Process)
      requires Inv() && Idle(null) && p in procs && p.held > 0
      modifies `procs, `ctxs, p`refcount, p`held, p`context, p`savedCtx, ctxs`refcount, ctxs`owners, ctxs`held
      ensures Inv() && Idle(null) && ctxs <= old(ctxs)
      ensures p.held == old(p.held) - 1
      ensures p.tracked || p.held > 0
              ==> procs == old(procs) && p.context == old(p.context) && p.savedCtx == old(p.savedCtx)
      ensures !p.tracked && p.held == 0 ==> procs == old(procs) - {p}
    {
      hide Idle;
      hide PointersOk;
      hide OwnersOk;
      hide CountsOk;
      p.refcount := p.refcount - 1;
      p.held := p.held - 1;
      if p.refcount == 0 {
        if p.instances != 0 {
          assert false;  // PANIC: Remaining instances
        }
        DropContexts(p);
        FreeProcess(p);
      }
      assert TrackerOk();
    }

    /** pe_proc_alloc */
    method AllocStruct(uid: Uid, cookie: Cookie, ident: Ident, pgid: Cookie) returns (p: Process)
      requires Inv()
      modifies `procs
      ensures Inv() && fresh(p) && procs == old(procs) + {p} && !p.tracked && p.held == 1
      ensures p.Shape() && p.View() == NewProc(uid, cookie, ident, pgid).(instances := 0)
      ensures p.context == [null, null] && p.savedCtx == [null, null]
    {
      hide Distinct;
      hide CountsOk;
      hide Process.View;
      hide Process.Slot;
      hide NewProc;
      p := new Process(uid, cookie, ident, pgid);
      procs := procs + {p};
      assert ShapesOk();
      assert PointersOk();
      assert OwnersOk();
      assert CountsOk();
    }

    /** The same, seen from outside: the caller holds the reference. */
    method AllocProcess(uid: Uid, cookie: Cookie, ident: Ident, pgid: Cookie, ghost m: multiset<Process>)
      returns (p: Process)
      requires Calm(m)
      modifies `procs
      ensures Calm(m + multiset{p}) && Procs() == old(Procs())
      ensures fresh(p) && procs == old(procs) + {p} && !p.tracked
      ensures p.Shape() && p.View() == NewProc(uid, cookie, ident, pgid).(instances := 0)
      ensures p.context == [null, null] && p.savedCtx == [null, null]
    {
      hide Procs;
      hide Inv;
      hide Process.View;
      hide NewProc;
      CalmShapes(m);
      p := AllocStruct(uid, cookie, ident, pgid);
      assert m[p] == 0;
    }

    /** pe_proc_track */
    method AppendToTracker(p: Process)
      requires TrackerOk() && p in procs && !p.tracked && p.Shape()
      modifies `tracker, p`refcount, p`tracked, p`instances
      ensures TrackerOk() && tracker == old(tracker) + [p] && p.tracked
      ensures p.View() == old(p.View()).(instances := 1)
    {
      p.refcount := p.refcount + 1;
      p.instances := 1;
      p.tracked := true;
      tracker := tracker + [p];
    }

    /** The same, seen from outside */
    method TrackProcess(p: Process, ghost m: multiset<Process>)
      requires Calm(m) && p in procs && !p.tracked
      modifies `tracker, p`refcount, p`tracked, p`instances
      ensures Calm(m) && tracker == old(tracker) + [p] && p.tracked
      ensures Procs() == old(Procs()) + [old(p.View()).(instances := 1)]
    {
      hide PointersOk;
      hide OwnersOk;
      hide CountsOk;
      hide Idle;
      hide Views;
      hide Process.View;
      AppendToTracker(p);
      OneMore(old(tracker), p);
    }

    /** The first half of pe_proc_untrack: the tracker's reference moves to the caller. */
    method RemoveFromTracker(p: Process, k: nat)
      requires TrackerOk() && k < |tracker| && tracker[k] == p && p.instances == 1
      modifies `tracker, p`held, p`tracked, p`instances
      ensures TrackerOk()
      ensures !p.tracked && p.held == old(p.held) + 1 && p.instances == 0
      ensures tracker == old(tracker)[..k] + old(tracker)[k + 1..]
    {
      p.instances := 0;
      p.tracked := false;
      p.held := p.held + 1;
      tracker := tracker[..k] + tracker[k + 1..];
    }

    // ------------------------------------------------------------ events

    /** pe_proc_get, with the position of the list entry that is embedded in the structure */
    method GetProcess(cookie: Cookie, ghost m: multiset<Process>) returns (p: Process?, at: nat)
      requires Calm(m)
      modifies procs`refcount, procs`held
      ensures Calm(if p == null then m else m + multiset{p}) && Procs() == old(Procs())
      ensures Shapes(tracker) && Find(Procs(), cookie) == if p == null then None else Some(at)
      ensures p != null ==> at < |tracker| && p == tracker[at] && p in procs && p.tracked
    {
      hide Distinct;
      hide PointersOk;
      hide OwnersOk;
      hide CountsOk;
      hide Idle;
      hide Procs;
      hide Find;
      hide Views;
      hide Process.View;
      var k := FindProcess(cookie);
      if k.None? {
        p, at := null, 0;
      } else {
        p, at := tracker[k.value], k.value;
        ReferenceProcess(p);
      }
    }

    /** pe_proc_put of a tracked process: the count stays positive because the tracker holds a reference. */
    method PutTracked(p: Process, ghost m: multiset<Process>)
      requires Calm(m + multiset{p}) && p in procs && p.tracked
      modifies p`refcount, p`held
      ensures Calm(m) && Procs() == old(Procs())
    {
      hide PointersOk;
      hide OwnersOk;
      hide CountsOk;
      hide Idle;
      hide Views;
      hide Process.View;
      p.refcount := p.refcount - 1;
      p.held := p.held - 1;
      if p.refcount == 0 {
        assert false;
      }
    }

    /** pe_proc_alloc and pe_proc_track */
    method NewTracked(uid: Uid, cookie: Cookie, ident: Ident, pgid: Cookie, ghost m: multiset<Process>)
      returns (p: Process)
      requires Calm(m)
      modifies `tracker, `procs
      ensures Calm(m + multiset{p}) && fresh(p) && procs == old(procs) + {p} && p.tracked
      ensures tracker == old(tracker) + [p]
      ensures p.Shape() && p.context == [null, null] && p.savedCtx == [null, null]
      ensures Procs() == old(Procs()) + [NewProc(uid, cookie, ident, pgid)]
    {
      hide Calm;
      hide Procs;
      hide Process.View;
      p := AllocProcess(uid, cookie, ident, pgid, m);
      TrackProcess(p, m + multiset{p});
    }

    /** Contexts and flags that a new process inherits */
    method Inherit(p: Process, parent: Process?, uid: Uid, cookie: Cookie, pgid: Cookie, env: Env)
      requires CtxInv() && Idle(null) && p in procs && parent != p && (parent != null ==> parent in procs)
      requires p.View() == NewProc(uid, cookie, if parent == null then NO_IDENT else parent.ident, pgid)
      requires p.context == [null, null] && p.savedCtx == [null, null]
      modifies `ctxs, p`context, p`savedCtx, p`flags, ctxs`refcount, ctxs`owners, ctxs`held
      ensures CtxInv() && Idle(null) && fresh(ctxs - old(ctxs))
      ensures p.Shape() && p.View() == Child(ViewOf(parent), db, uid, cookie, pgid, env)
    {
      hide PointersOk;
      hide OwnersOk;
      hide CountsOk;
      ghost var v := ViewOf(parent);
      ContextFork(p, parent, env);
      p.flags := Flags(parent != null && parent.flags.upgrade, false, false, parent != null && parent.flags.secure);
      ghost var c := Child(v, db, uid, cookie, pgid, env);
      assert forall i: Prio :: p.Prio(i) == c.prio[i];
    }

    /** The changes of pe_proc_exec to the process */
    method ExecBody(p: Process, uid: Uid, ident: Ident, secure: bool, env: Env)
      requires CtxInv() && Idle(null) && p in procs
      modifies `ctxs, p`ident, p`context, p`savedCtx, p`uid, p`flags, ctxs`refcount, ctxs`owners, ctxs`held
      ensures CtxInv() && Idle(null) && fresh(ctxs - old(ctxs))
      ensures p.Shape() && p.View() == ExecProc(old(p.View()), db, uid, ident, secure, env)
    {
      hide PointersOk;
      hide OwnersOk;
      hide CountsOk;
      hide Idle;
      hide ContextExec;
      p.ident := ident;
      ContextExecute(p, uid, env);
      p.flags := p.flags.(secure := secure);
    }

    /** pe_context_fork and the inherited flags, for a new child in the tracker */
    method InheritTracked(p: Process, ghost k: nat, parent: Process?, ghost at: nat, uid: Uid, cookie: Cookie,
                          pgid: Cookie, env: Env, ghost m: multiset<Process>)
      requires Calm(m) && k < |tracker| && p == tracker[k]
      requires parent != p && (parent != null ==> at < |tracker| && parent == tracker[at])
      requires Procs()[k] == NewProc(uid, cookie, if parent == null then NO_IDENT else Procs()[at].ident, pgid)
      requires p.context == [null, null] && p.savedCtx == [null, null]
      modifies `ctxs, p`context, p`savedCtx, p`flags, ctxs`refcount, ctxs`owners, ctxs`held
      ensures Calm(m) && fresh(ctxs - old(ctxs))
      ensures Procs() == old(Procs())[k := Child(if parent == null then None else Some(old(Procs())[at]), db, uid,
              cookie, pgid, env)]
    {
      hide PointersOk;
      hide OwnersOk;
      hide CountsOk;
      hide Views;
      hide Process.View;
      hide NewProc;
      hide Child;
      ghost var before := Procs();
      if parent != null { IdentAt(at); }
      Inherit(p, parent, uid, cookie, pgid, env);
      OneView(tracker, k, before);
    }

    /** The changes of pe_proc_exec to a process in the tracker */
    method ExecTracked(p: Process, ghost k: nat, uid: Uid, ident: Ident, secure: bool, env: Env,
                       ghost m: multiset<Process>)
      requires Calm(m) && k < |tracker| && p == tracker[k]
      modifies `ctxs, p`ident, p`context, p`savedCtx, p`uid, p`flags, ctxs`refcount, ctxs`owners, ctxs`held
      ensures Calm(m) && fresh(ctxs - old(ctxs))
      ensures Procs() == old(Procs())[k := ExecProc(old(Procs())[k], db, uid, ident, secure, env)]
    {
      hide PointersOk;
      hide OwnersOk;
      hide CountsOk;
      hide Views;
      hide Process.View;
      hide ExecProc;
      ghost var before := Procs();
      ExecBody(p, uid, ident, secure, env);
      OneView(tracker, k, before);
    }

    /** pe_context_open for a process in the tracker */
    method OpenTracked(p: Process, ghost k: nat, uid: Uid, ident: Ident, env: Env, ghost m: multiset<Process>)
      requires Calm(m) && k < |tracker| && p == tracker[k]
      modifies `ctxs, p`context, p`savedCtx, ctxs`refcount, ctxs`owners, ctxs`held
      ensures Calm(m) && fresh(ctxs - old(ctxs))
      ensures Procs() ==
              if ident.csum.None? then old(Procs())
              else old(Procs())[k := ContextOpen(old(Procs())[k], db, uid, ident, env)]
    {
      hide PointersOk;
      hide OwnersOk;
      hide CountsOk;
      hide Views;
      hide Process.View;
      hide ContextOpen;
      ghost var before := Procs();
      ContextOpenFile(p, uid, ident, env);
      OneView(tracker, k, before);
    }

    /** pe_context_borrow for two processes in the tracker */
    method BorrowTracked(p: Process, ghost k: nat, lender: Process, ghost j: nat, cookie: Cookie, env: Env,
                         ghost m: multiset<Process>)
      requires Calm(m) && k < |tracker| && p == tracker[k] && j < |tracker| && lender == tracker[j]
      modifies `ctxs, p`context, p`savedCtx, p`borrow, ctxs`refcount, ctxs`owners, ctxs`held
      ensures Calm(m) && fresh(ctxs - old(ctxs))
      ensures Procs() == old(Procs())[k := ContextBorrow(old(Procs())[k], old(Procs())[j], db, cookie, env)]
    {
      hide PointersOk;
      hide OwnersOk;
      hide CountsOk;
      hide Views;
      hide Process.View;
      hide ContextBorrow;
      ghost var before := Procs();
      ContextBorrowFrom(p, lender, cookie, env);
      OneView(tracker, k, before);
    }

    /** pe_context_restore for a process in the tracker */
    method RestoreTracked(p: Process, ghost k: nat, cookie: Cookie, ghost m: multiset<Process>)
      requires Calm(m) && k < |tracker| && p == tracker[k]
      modifies `ctxs, p`context, p`savedCtx, ctxs`refcount, ctxs`owners, ctxs`held
      ensures Calm(m) && fresh(ctxs - old(ctxs))
      ensures Procs() == old(Procs())[k := ContextRestore(old(Procs())[k], cookie)]
    {
      hide PointersOk;
      hide OwnersOk;
      hide CountsOk;
      hide Views;
      hide Process.View;
      hide ContextRestore;
      ghost var before := Procs();
      ContextRestoreAll(p, cookie);
      OneView(tracker, k, before);
    }

    // ------------------------------------------------------------ events

    /** The work of pe_proc_fork between getting and dropping the references */
    method ForkChild(parent: Process?, ghost at: nat, uid: Uid, child: Cookie, pgid: Cookie, env: Env,
                     ghost m: multiset<Process>) returns (p: Process)
      requires Calm(m) && (parent != null ==> at < |tracker| && parent == tracker[at])
      modifies `tracker, `procs, `ctxs, ctxs`refcount, ctxs`owners, ctxs`held
      ensures Calm(m + multiset{p}) && fresh(p) && procs == old(procs) + {p} && p.tracked && fresh(ctxs - old(ctxs))
      ensures Procs() == old(Procs())
              + [Child(if parent == null then None else Some(old(Procs())[at]), db, uid, child, pgid, env)]
    {
      hide Procs;
      hide Child;
      hide NewProc;
      hide Calm;
      CalmShapes(m);
      if parent != null { IdentAt(at); }
      p := NewTracked(uid, child, if parent == null then NO_IDENT else parent.ident, pgid, m);
      InheritTracked(p, |tracker| - 1, parent, at, uid, child, pgid, env, m + multiset{p});
    }

    /** The references of pe_proc_fork are dropped. */
    method ForkPuts(parent: Process?, p: Process)
      requires Calm((if parent == null then multiset{} else multiset{} + multiset{parent}) + multiset{p})
      requires p in procs && p.tracked && (parent != null ==> parent in procs && parent.tracked)
      modifies p`refcount, p`held, (if parent == null then {} else {parent})`refcount,
               (if parent == null then {} else {parent})`held
      ensures Calm(multiset{}) && Procs() == old(Procs())
    {
      hide Calm;
      hide Procs;
      if parent != null {
        assert multiset{} + multiset{parent} + multiset{p} == multiset{} + multiset{p} + multiset{parent};
        PutTracked(parent, multiset{} + multiset{p});
      }
      PutTracked(p, multiset{});
    }

    /** pe_proc_fork */
    method ProcFork(uid: Uid, child: Cookie, parentCookie: Cookie, pgid: Cookie, env: Env)
      requires Calm(multiset{})
      modifies `tracker, `procs, `ctxs, procs`refcount, procs`held, ctxs`refcount, ctxs`owners, ctxs`held
      ensures Calm(multiset{}) && fresh(procs - old(procs)) && fresh(ctxs - old(ctxs))
      ensures State() == Step(old(State()), ForkEv(uid, child, parentCookie, pgid), env)
    {
      hide Calm;
      hide Procs;
      hide Child;
      hide NewProc;
      var parent, at := GetProcess(parentCookie, multiset{});
      ghost var m := if parent == null then multiset{} else multiset{} + multiset{parent};
      var p := ForkChild(parent, at, uid, child, pgid, env, m);
      ForkPuts(parent, p);
    }

    method ExecAndPut(p: Process, ghost k: nat, uid: Uid, ident: Ident, secure: bool, env: Env)
      requires Calm(multiset{} + multiset{p}) && k < |tracker| && p == tracker[k] && p in procs && p.tracked
      modifies `ctxs, p`refcount, p`held, p`ident, p`context, p`savedCtx, p`uid, p`flags, ctxs`refcount, ctxs`owners,
               ctxs`held
      ensures Calm(multiset{}) && fresh(ctxs - old(ctxs))
      ensures Procs() == old(Procs())[k := ExecProc(old(Procs())[k], db, uid, ident, secure, env)]
    {
      hide Calm;
      hide Procs;
      hide ExecProc;
      ExecTracked(p, k, uid, ident, secure, env, multiset{} + multiset{p});
      PutTracked(p, multiset{});
    }

    /** pe_proc_exec */
    method ProcExec(cookie: Cookie, uid: Uid, ident: Ident, pgid: Cookie, secure: bool, env: Env)
      requires Calm(multiset{})
      modifies `tracker, `procs, `ctxs, procs`refcount, procs`held, procs`ident, procs`context, procs`savedCtx,
               procs`uid,
        procs`flags, ctxs`refcount, ctxs`owners, ctxs`held
      ensures Calm(multiset{}) && fresh(procs - old(procs)) && fresh(ctxs - old(ctxs))
      ensures State() == Step(old(State()), ExecEv(cookie, uid, ident, pgid, secure), env)
    {
      hide Calm;
      hide Procs;
      hide ExecProc;
      hide EnsureTracked;
      hide Step;
      hide Find;
      hide Process.View;
      hide NewProc;
      var p, at := GetProcess(cookie, multiset{});
      ExecAt(State(), if p == null then None else Some(at), cookie, uid, ident, pgid, secure, env);
      if p == null {
        p := NewTracked(uid, cookie, NO_IDENT, pgid, multiset{});
        ExecAndPut(p, |tracker| - 1, uid, ident, secure, env);
      } else {
        ExecAndPut(p, at, uid, ident, secure, env);
      }
    }

    /** pe_context_open for the process of an open event */
    method FileOpen(cookie: Cookie, uid: Uid, ident: Ident, env: Env)
      requires Calm(multiset{})
      modifies `ctxs, procs`refcount, procs`held, procs`context, procs`savedCtx, ctxs`refcount, ctxs`owners, ctxs`held
      ensures Calm(multiset{}) && fresh(procs - old(procs)) && fresh(ctxs - old(ctxs))
      ensures State() == Step(old(State()), OpenEv(cookie, uid, ident), env)
    {
      hide Calm;
      hide Procs;
      hide ContextOpen;
      var p, at := GetProcess(cookie, multiset{});
      if p == null { return; }
      OpenTracked(p, at, uid, ident, env, multiset{} + multiset{p});
      PutTracked(p, multiset{});
    }

    /** pe_ipc_connect: the peer borrows the context of the source. */
    method IpcConnect(source: Cookie, dest: Cookie, conn: Cookie, env: Env)
      requires Calm(multiset{})
      modifies `ctxs, procs`refcount, procs`held, procs`context, procs`savedCtx, procs`borrow,
        ctxs`refcount, ctxs`owners, ctxs`held
      ensures Calm(multiset{}) && fresh(procs - old(procs)) && fresh(ctxs - old(ctxs))
      ensures State() == Step(old(State()), ConnectEv(source, dest, conn), env)
    {
      hide Calm;
      hide Procs;
      hide ContextBorrow;
      var q, j := GetProcess(source, multiset{});
      if q == null { return; }
      var p, k := GetProcess(dest, multiset{} + multiset{q});
      if p == null {
        PutTracked(q, multiset{});
        return;
      }
      BorrowTracked(p, k, q, j, conn, env, multiset{} + multiset{q} + multiset{p});
      assert multiset{} + multiset{q} + multiset{p} == multiset{} + multiset{p} + multiset{q};
      PutTracked(q, multiset{} + multiset{p});
      PutTracked(p, multiset{});
    }

    /** pe_ipc_destroy */
    method IpcDestroy(source: Cookie, conn: Cookie, env: Env)
      requires Calm(multiset{})
      modifies `ctxs, procs`refcount, procs`held, procs`context, procs`savedCtx, ctxs`refcount, ctxs`owners, ctxs`held
      ensures Calm(multiset{}) && fresh(procs - old(procs)) && fresh(ctxs - old(ctxs))
      ensures State() == Step(old(State()), DisconnectEv(source, conn), env)
    {
      hide Calm;
      hide Procs;
      hide ContextRestore;
      var p, at := GetProcess(source, multiset{});
      if p == null { return; }
      RestoreTracked(p, at, conn, multiset{} + multiset{p});
      PutTracked(p, multiset{});
    }

    /** A change of the number of instances that leaves the process in the tracker */
    method SetInstances(p: Process, ghost k: nat, n: int, ghost m: multiset<Process>)
      requires Calm(m) && k < |tracker| && p == tracker[k] && n >= 1
      modifies p`instances
      ensures Calm(m) && Procs() == old(Procs())[k := old(Procs())[k].(instances := n)]
    {
      hide PointersOk;
      hide OwnersOk;
      hide CountsOk;
      hide Idle;
      hide Views;
      ghost var before := Procs();
      p.instances := n;
      OneView(tracker, k, before);
    }

    /** pe_proc_addinstance */
    method ProcAddInstance(cookie: Cookie)
      requires Calm(multiset{})
      modifies procs`refcount, procs`held, procs`instances
      ensures Calm(multiset{}) && Procs() == AddInstance(old(Procs()), cookie)
    {
      hide Calm;
      hide Procs;
      var p, at := GetProcess(cookie, multiset{});
      if p == null { return; }
      InstancesAt(at);
      SetInstances(p, at, p.instances + 1, multiset{} + multiset{p});
      PutTracked(p, multiset{});
    }

    /** The first half of pe_proc_untrack, seen from outside: the tracker's reference moves to the caller. */
    method Untrack(p: Process, k: nat, ghost m: multiset<Process>)
      requires Calm(m) && k < |tracker| && p == tracker[k] && p.instances == 1
      modifies `tracker, p`held, p`tracked, p`instances
      ensures Calm(m + multiset{p}) && p in procs && !p.tracked
      ensures Procs() == old(Procs())[..k] + old(Procs())[k + 1..]
    {
      hide PointersOk;
      hide OwnersOk;
      hide CountsOk;
      hide Idle;
      hide Views;
      hide Process.View;
      OneLess(tracker, k);
      RemoveFromTracker(p, k);
    }

    /** pe_proc_put of a process that is no longer tracked; the last reference frees it. */
    method PutUntracked(p: Process, ghost m: multiset<Process>)
      requires Calm(m + multiset{p}) && p in procs && !p.tracked
      modifies `procs, `ctxs, p`refcount, p`held, p`context, p`savedCtx, ctxs`refcount, ctxs`owners, ctxs`held
      ensures Calm(m) && Procs() == old(Procs()) && !p.tracked && ctxs <= old(ctxs)
      ensures procs == if p in m then old(procs) else old(procs) - {p}
    {
      hide PointersOk;
      hide OwnersOk;
      hide CountsOk;
      hide Views;
      hide Process.View;
      PutProcess(p);
    }

    /** pe_proc_exit, without the end of an upgrade */
    method ProcExit(cookie: Cookie)
      requires Calm(multiset{})
      modifies `tracker, `procs, `ctxs, procs`refcount, procs`held, procs`tracked, procs`instances, procs`context,
               procs`savedCtx,
        ctxs`refcount, ctxs`owners, ctxs`held
      ensures Calm(multiset{}) && procs <= old(procs) && ctxs <= old(ctxs)
      ensures Procs() == ExitProc(old(Procs()), cookie)
    {
      hide Calm;
      hide Procs;
      var p, at := GetProcess(cookie, multiset{});
      if p == null { return; }
      InstancesAt(at);
      if p.instances - 1 != 0 {
        SetInstances(p, at, p.instances - 1, multiset{} + multiset{p});
        PutTracked(p, multiset{});
      } else {
        Untrack(p, at, multiset{} + multiset{p});
        PutUntracked(p, multiset{} + multiset{p});
        PutUntracked(p, multiset{});
      }
    }

    /** The handler of a replaced process */
    method ProcReplace(gains: Cookie, loses: Cookie)
      requires Calm(multiset{})
      modifies `tracker, `procs, `ctxs, procs`refcount, procs`held, procs`tracked, procs`instances, procs`context,
               procs`savedCtx,
        ctxs`refcount, ctxs`owners, ctxs`held
      ensures Calm(multiset{}) && procs <= old(procs) && ctxs <= old(ctxs)
      ensures Procs() == ExitProc(AddInstance(old(Procs()), gains), loses)
    {
      hide Calm;
      hide Procs;
      hide ExitProc;
      hide AddInstance;
      ProcAddInstance(gains);
      ProcExit(loses);
    }

    /** pe_context_refresh of both priorities */
    method RefreshProcess(p: Process, env: Env)
      requires CtxInv() && Idle(null) && p in procs
      modifies `ctxs, p`context, p`savedCtx, ctxs`refcount, ctxs`owners, ctxs`held
      ensures CtxInv() && Idle(null) && fresh(ctxs - old(ctxs))
      ensures p.Shape() && p.View() == RefreshBoth(old(p.View()), db, env)
    {
      for i := 0 to PRIOS
        invariant CtxInv() && Idle(null) && fresh(ctxs - old(ctxs)) && p.Shape()
        invariant forall j: Prio ::
                    p.Prio(j) == if j < i then Refresh(old(p.Prio(j)), GetRuleset(db, p.uid, j), p.ident, p.uid,
                        p.pgid != 0, env)
                                 else old(p.Prio(j))
      {
        ContextRefresh(p, i, env);
      }
    }

    /** pe_context_refresh of both priorities for a process in the tracker */
    method RefreshTracked(p: Process, ghost k: nat, env: Env, ghost m: multiset<Process>)
      requires Calm(m) && k < |tracker| && p == tracker[k]
      modifies `ctxs, p`context, p`savedCtx, ctxs`refcount, ctxs`owners, ctxs`held
      ensures Calm(m) && fresh(ctxs - old(ctxs))
      ensures Procs() == old(Procs())[k := RefreshBoth(old(Procs())[k], db, env)]
    {
      hide PointersOk;
      hide OwnersOk;
      hide CountsOk;
      hide Views;
      hide Process.View;
      hide RefreshBoth;
      ghost var before := Procs();
      RefreshProcess(p, env);
      OneView(tracker, k, before);
    }

    /** pe_proc_update_db: refresh all tracked processes. */
    method UpdateDb(env: Env)
      requires Calm(multiset{})
      modifies `ctxs, procs`context, procs`savedCtx, ctxs`refcount, ctxs`owners, ctxs`held
      ensures Calm(multiset{}) && fresh(ctxs - old(ctxs))
      ensures Procs() == RefreshAll(old(Procs()), db, env)
    {
      hide Calm;
      hide Procs;
      hide RefreshBoth;
      CalmShapes(multiset{});
      ghost var before := Procs();
      for k := 0 to |tracker|
        invariant Calm(multiset{}) && Shapes(tracker) && fresh(ctxs - old(ctxs))
        invariant |Procs()| == |before| && forall j | 0 <= j < |before| ::
                    Procs()[j] == if j < k then RefreshBoth(before[j], db, env) else before[j]
      {
        RefreshTracked(tracker[k], k, env, multiset{});
        CalmShapes(multiset{});
      }
    }

    /** pe_context_refresh of the priority whose ruleset was replaced */
    method RefreshOne(p: Process, i: Prio, env: Env)
      requires CtxInv() && Idle(null) && p in procs
      modifies `ctxs, p`context, p`savedCtx, ctxs`refcount, ctxs`owners, ctxs`held
      ensures CtxInv() && Idle(null) && fresh(ctxs - old(ctxs))
      ensures p.Shape() && p.View() == RefreshPrio(old(p.View()), db, i, env)
    {
      hide PointersOk;
      hide OwnersOk;
      hide CountsOk;
      hide Idle;
      ContextRefresh(p, i, env);
    }

    /** The loop body of pe_proc_update_db_one */
    method UpdateTracked(p: Process, k: nat, oldrs: Option<Ruleset>, i: Prio, uid: Uid, env: Env,
                         ghost m: multiset<Process>)
      requires Calm(m) && k < |tracker| && p == tracker[k]
      modifies `ctxs, p`context, p`savedCtx, ctxs`refcount, ctxs`owners, ctxs`held
      ensures Calm(m) && fresh(ctxs - old(ctxs))
      ensures Procs() == old(Procs())[k := UpdateOne(old(Procs())[k], db, oldrs, i, uid, env)]
    {
      hide PointersOk;
      hide OwnersOk;
      hide CountsOk;
      hide Idle;
      hide Views;
      hide Process.View;
      hide RefreshPrio;
      ghost var before := Procs();
      CurrentAt(k, i);
      var c := p.context[i];
      SlotLive(p, i);
      if c == null { return; }
      if UsesRs(Read(c), oldrs) || (oldrs.None? && p.uid == uid) {
        RefreshOne(p, i, env);
        OneView(tracker, k, before);
      }
    }

    /** pe_proc_update_db_one */
    method UpdateDbOne(oldrs: Option<Ruleset>, i: Prio, uid: Uid, env: Env)
      requires Calm(multiset{})
      modifies `ctxs, procs`context, procs`savedCtx, ctxs`refcount, ctxs`owners, ctxs`held
      ensures Calm(multiset{}) && fresh(ctxs - old(ctxs))
      ensures Procs() == UpdateAllOne(old(Procs()), db, oldrs, i, uid, env)
    {
      hide Calm;
      hide Procs;
      hide UpdateOne;
      CalmShapes(multiset{});
      ghost var before := Procs();
      for k := 0 to |tracker|
        invariant Calm(multiset{}) && Shapes(tracker) && fresh(ctxs - old(ctxs))
        invariant |Procs()| == |before| && forall j | 0 <= j < |before| ::
                    Procs()[j] == if j < k then UpdateOne(before[j], db, oldrs, i, uid, env) else before[j]
      {
        UpdateTracked(tracker[k], k, oldrs, i, uid, env, multiset{});
        CalmShapes(multiset{});
      }
    }

    method SetPgid(p: Process, ghost k: nat, pgid: Cookie, ghost m: multiset<Process>)
      requires Calm(m) && k < |tracker| && p == tracker[k]
      modifies p`pgid
      ensures Calm(m) && Procs() == old(Procs())[k := old(Procs())[k].(pgid := pgid)]
    {
      hide PointersOk;
      hide OwnersOk;
      hide CountsOk;
      hide Idle;
      hide Views;
      ghost var before := Procs();
      p.pgid := pgid;
      OneView(tracker, k, before);
    }

    /** The handler that moves a process to a playground */
    method PlaygroundProc(cookie: Cookie, pgid: Cookie, env: Env)
      requires Calm(multiset{})
      modifies `ctxs, procs`refcount, procs`held, procs`pgid, procs`context, procs`savedCtx, ctxs`refcount,
               ctxs`owners, ctxs`held
      ensures Calm(multiset{}) && fresh(procs - old(procs)) && fresh(ctxs - old(ctxs))
      ensures State() == Step(old(State()), PlaygroundEv(cookie, pgid), env)
    {
      hide Calm;
      hide Procs;
      hide RefreshBoth;
      hide Step;
      hide Find;
      hide Process.View;
      var p, at := GetProcess(cookie, multiset{});
      PlaygroundAt(State(), if p == null then None else Some(at), cookie, pgid, env);
      if p == null { return; }
      SetPgid(p, at, pgid, multiset{} + multiset{p});
      RefreshTracked(p, at, env, multiset{} + multiset{p});
      PutTracked(p, multiset{});
    }

    method SetDb(newDb: Db)
      requires Calm(multiset{})
      modifies `db
      ensures Calm(multiset{}) && db == newDb && Procs() == old(Procs())
    {
      hide Inv;
      CalmShapes(multiset{});
      db := newDb;
    }

    /** pe_user_insert_rs for the active database */
    method InsertRuleset(rs: Ruleset, uid: Uid, prio: Prio, env: Env)
      requires Calm(multiset{})
      modifies `db, `ctxs, procs`context, procs`savedCtx, ctxs`refcount, ctxs`owners, ctxs`held
      ensures Calm(multiset{}) && fresh(procs - old(procs)) && fresh(ctxs - old(ctxs))
      ensures State() == Step(old(State()), InsertEv(rs, uid, prio), env)
    {
      hide Calm;
      hide Procs;
      hide UpdateAllOne;
      hide OwnRuleset;
      hide Insert;
      CalmShapes(multiset{});
      var oldrs := OwnRuleset(db, uid, prio);
      SetDb(Insert(db, rs, uid, prio));
      UpdateDbOne(oldrs, prio, uid, env);
    }

    /** pe_user_reconfigure */
    method Reconfigure(newDb: Db, env: Env)
      requires Calm(multiset{})
      modifies `db, `ctxs, procs`context, procs`savedCtx, ctxs`refcount, ctxs`owners, ctxs`held
      ensures Calm(multiset{}) && fresh(procs - old(procs)) && fresh(ctxs - old(ctxs))
      ensures State() == Step(old(State()), ReconfigureEv(newDb), env)
    {
      hide Calm;
      hide Procs;
      hide RefreshAll;
      CalmShapes(multiset{});
      SetDb(newDb);
      UpdateDb(env);
    }

    /** The event loop: whatever the event, counts stay exact and the values change as in Processes.Step. */
    method Handle(e: Event, env: Env)
      requires Calm(multiset{})
      modifies this, procs, ctxs
      ensures Calm(multiset{}) && fresh(procs - old(procs)) && fresh(ctxs - old(ctxs))
      ensures State() == Step(old(State()), e, env)
    {
      hide Calm;
      hide Procs;
      hide ExitProc;
      hide AddInstance;
      CalmShapes(multiset{});
      match e {
        case ForkEv(uid, child, parent, pgid) => ProcFork(uid, child, parent, pgid, env);
        case ExecEv(cookie, uid, ident, pgid, secure) => ProcExec(cookie, uid, ident, pgid, secure, env);
        case ExitEv(cookie) => ProcExit(cookie);
        case ReplaceEv(gains, loses) => ProcReplace(gains, loses);
        case OpenEv(cookie, uid, ident) => FileOpen(cookie, uid, ident, env);
        case ConnectEv(source, dest, conn) => IpcConnect(source, dest, conn, env);
        case DisconnectEv(source, conn) => IpcDestroy(source, conn, env);
        case PlaygroundEv(cookie, pgid) => PlaygroundProc(cookie, pgid, env);
        case InsertEv(rs, uid, prio) => InsertRuleset(rs, uid, prio, env);
        case ReconfigureEv(newDb) => Reconfigure(newDb, env);
      }
    }
  }

  // -------------------------------------------------------------- searching rules

  /** The application loop of pe_context_search_chain and pe_context_decide */
  method MatchApps(apps: seq<App>, ident: Ident, uid: Uid, env: Env) returns (r: bool)
    ensures r == AppsMatch(apps, ident, uid, env) == Named(apps, ident, uid, env)
  {
    NamedExactly(apps, ident, uid, env);
    if apps == [] { return true; }
    for k := 0 to |apps|
      invariant forall j | 0 <= j < k :: !AppMatch(apps[j], ident, uid, env)
    {
      if AppMatch(apps[k], ident, uid, env) { return true; }
    }
    return false;
  }

  /** pe_context_search_chain */
  method SearchChain(chain: seq<Block>, ident: Ident, uid: Uid, pg: bool, env: Env) returns (r: Option<Block>)
    ensures r == FirstBlock(chain, ident, uid, pg, env)
    ensures forall b :: r == Some(b) <==> exists k: nat :: FirstApplies(chain, k, ident, uid, pg, env) && chain[k] == b
    ensures r.None? <==> forall k | 0 <= k < |chain| :: !BlockApplies(chain[k], ident, uid, pg, env)
  {
    forall b ensures FirstBlock(chain, ident, uid, pg, env) == Some(b)
                     <==> exists k: nat :: FirstApplies(chain, k, ident, uid, pg, env) && chain[k] == b {
      FirstBlockExactly(chain, ident, uid, pg, env, b);
    }
    hide FirstApplies;
    for k := 0 to |chain|
      invariant FirstBlock(chain, ident, uid, pg, env) == FirstBlock(chain[k..], ident, uid, pg, env)
    {
      assert chain[k..][1..] == chain[k + 1..];
      if !pg && chain[k].pgOnly { continue; }
      var m := MatchApps(chain[k].apps, ident, uid, env);
      if m { return Some(chain[k]); }
    }
    return None;
  }

  method SearchRules(rs: Ruleset, ident: Ident, uid: Uid, pg: bool, env: Env) returns (c: Ctx)
    ensures c == Search(rs, ident, uid, pg, env)
    ensures Searched(c, rs, ident, uid, pg, env)
  {
    SearchedRules(rs, ident, uid, pg, env);
    hide Searched;
    hide FirstApplies;
    hide BlockApplies;
    var alf := SearchChain(rs.alf, ident, uid, pg, env);
    var sb := SearchChain(rs.sb, ident, uid, pg, env);
    var cr := SearchChain(rs.ctx, ident, uid, pg, env);
    c := Ctx(Some(rs), alf, sb, cr, ident);
  }

  /** pe_context_decide */
  method ContextDecide(cur: Option<Ctx>, procUid: Uid, kind: CtxKind, ident: Ident, uid: Uid,
                       env: Env) returns (r: bool)
    ensures r == Decide(cur, procUid, kind, ident, uid, env)
    ensures r <==> (kind == New && (cur.None? || procUid != uid))
                   || (cur.Some? && Permits(cur.value, kind, ident, uid, env))
  {
    DecideExactly(cur, procUid, kind, ident, uid, env);
    hide Permits;
    hide Named;
    if cur.None? { return kind == New; }
    if kind == New && procUid != uid { return true; }
    if cur.value.cr.None? { return false; }
    var rules := cur.value.cr.value.ctxRules;
    for k := 0 to |rules|
      invariant forall j | 0 <= j < k :: !RuleAllows(rules[j], kind, ident, uid, env)
    {
      if rules[k].isContext && rules[k].kind == kind {
        var m := MatchApps(rules[k].apps, ident, uid, env);
        if m { return true; }
      }
    }
    return false;
  }
}

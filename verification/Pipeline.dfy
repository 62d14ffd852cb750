/**
 * Policy engine, master and upgrade process with the queues between them (policy.c,
 * main.c, upgrade.c). Each action is one message handled by one process.
 */
module Pipeline {
  import opened Basics
  import opened Policy
  import Contexts
  import Processes
  import opened Upgrade
  import FileTree
  import opened SfsCache
  import Effects

  /** Whose checksum is stored in the SFS tree; key ids are bytes there. */
  datatype Holder = UserSum(uid: Uid) | KeySig(keyid: Bytes)

  type Disk = map<(Path, Holder), Bytes>

  /** A change of the SFS tree on request of a user */
  datatype CsumOp =
    | AddSum(path: Path, uid: Uid, data: Bytes)
    | DelSum(path: Path, uid: Uid)
    | AddSig(path: Path, keyid: Bytes, data: Bytes)
    | DelSig(path: Path, keyid: Bytes)

  datatype Msg =
    | Reply(token: nat, error: bv32)
    | StartMsg
    | ChunkMsg(data: Bytes)
    | ChunkReq
    | EndMsg
    | UpdateAll(path: Path)
    | OkMsg(value: bool)
    | InvalidateMsg(ipath: Path, who: Who)
    /** A kernel event with the answer that the rules give, if it needs one now */
    | KernelMsg(event: KEvent, ktoken: nat, answer: Option<bv32>)
    | ConfigMsg(db: Db)

  datatype Sys = Sys(
    /** policy engine */
    u: Upg, cache: Cache, hold: seq<Msg>,
    /** eventq_p2m, eventq_m2u, eventq_u2m, eventq_m2p and eventq_m2dev */
    p2m: seq<Msg>, m2u: seq<Msg>, u2m: seq<Msg>, m2p: seq<Msg>, dev: seq<Msg>,
    /** the SFS tree, written by the master only */
    disk: Disk,
    /** history: the paths that the upgrade process took out of chunks since the last START */
    listed: seq<Path>)

  datatype Action =
    | Device(event: KEvent, token: nat, answer: Option<bv32>)
    | Session(op: CsumOp)
    | SendOk(value: bool)
    | SendConfig(db: Db)
    | LoadRules(rs: Ruleset, uid: Uid, prio: Prio, env: Contexts.Env)
    | Lookup(path: Path, who: Who, fails: bool)
    | MasterReadsPolicy
    | UpgradeReads(readable: set<Path>)
    | MasterReadsUpgrade(after: Disk)
    | PolicyReads(env: Contexts.Env)

  // ------------------------------------------------------------------ disk

  function DiskAnswerFor(disk: Disk, path: Path, who: Who): DiskAnswer {
    match who
    case ByUid(uid) => if (path, UserSum(uid)) in disk then Found(disk[(path, UserSum(uid))]) else NotFound
    case ByKey(key) =>
      var id := Decode(key);
      if id.Some? && (path, KeySig(id.value)) in disk then Found(disk[(path, KeySig(id.value))]) else NotFound
  }

  /** What a request would be answered without a cache */
  function Truth(disk: Disk, path: Path, who: Who): Answer {
    ReadSum(who, DiskAnswerFor(disk, path, who))
  }

  /**
   * The answer that the SFS tree gives for a request: for a user what is stored under the user id, for a
   * key what is stored under the key id that it spells.
   */
  ghost predicate DiskSays(disk: Disk, path: Path, who: Who, r: Answer) {
    match who
    case ByUid(uid) => AnswerOf(Stored(disk, path, UserSum(uid)), r)
    case ByKey(key) =>
      && (key == [] ==> r == Error)
      && (key != [] && (forall id :: Hex(id) != Lower(key)) ==> r == Missing)
      && (forall id | key != [] && Hex(id) == Lower(key) :: AnswerOf(Stored(disk, path, KeySig(id)), r))
  }

  function Stored(disk: Disk, path: Path, holder: Holder): Option<Bytes> {
    if (path, holder) in disk then Some(disk[(path, holder)]) else None
  }

  lemma TruthOfDisk(disk: Disk, path: Path, who: Who, r: Answer)
    ensures r == Truth(disk, path, who) <==> DiskSays(disk, path, who, r)
  {
    if who.ByKey? {
      forall id ensures Decode(who.key) == Some(id) <==> Hex(id) == Lower(who.key) {
        DecodeLower(who.key, id);
      }
      if who.key == [] {
        assert Decode(who.key) == Some([]);
      }
    }
    hide Hex;
    hide Lower;
  }

  /** sfs_checksumop */
  function Apply(disk: Disk, op: CsumOp): Disk {
    match op
    case AddSum(path, uid, data) => disk[(path, UserSum(uid)) := data]
    case DelSum(path, uid) => disk - {(path, UserSum(uid))}
    case AddSig(path, keyid, data) => disk[(path, KeySig(keyid)) := data]
    case DelSig(path, keyid) => disk - {(path, KeySig(keyid))}
  }

  /** send_sfscache_invalidate */
  function Invalidation(op: CsumOp): Msg {
    match op
    case AddSum(path, uid, _) => InvalidateMsg(path, ByUid(uid))
    case DelSum(path, uid) => InvalidateMsg(path, ByUid(uid))
    case AddSig(path, keyid, _) => InvalidateMsg(path, ByKey(Hex(keyid)))
    case DelSig(path, keyid) => InvalidateMsg(path, ByKey(Hex(keyid)))
  }

  // ------------------------------------------------------------------ chunks

  /** policy_upgrade_fill_chunk: the bytes and the next position. */
  function FillFrom(t: Tree, k: nat, used: nat): (r: (Bytes, nat))
    requires k <= |t|
    ensures k <= r.1 <= |t|
    decreases |t| - k
  {
    if k == |t| || used + |t[k].path| + 1 > PATH_MAX then ([], k)
    else
      var rest := FillFrom(t, k + 1, used + |t[k].path| + 1);
      (t[k].path + [0] + rest.0, rest.1)
  }

  function Position(u: Upg): (r: nat)
    requires u.tree.Some?
  {
    if u.iter.Some? then u.iter.value else |u.tree.value|
  }

  function Fill(u: Upg): (Bytes, Option<nat>) {
    if u.tree.None? || u.counter != 0 || u.iter.None? || u.iter.value >= |u.tree.value| then ([], None)
    else
      var r := FillFrom(u.tree.value, u.iter.value, 0);
      (r.0, if r.1 == |u.tree.value| then None else Some(r.1))
  }

  /** The position of the first NUL byte */
  function NulAt(d: Bytes): (r: nat)
    ensures r <= |d| && 0 !in d[..r] && (r < |d| ==> d[r] == 0)
  {
    if d == [] || d[0] == 0 then 0
    else
      var r := 1 + NulAt(d[1..]);
      assert d[..r] == [d[0]] + d[1..][..r - 1];
      r
  }

  /** The strings in a chunk */
  function Split(d: Bytes): seq<Path>
    decreases |d|
  {
    if d == [] then []
    else
      var n := NulAt(d);
      if n == |d| then [d] else [d[..n]] + Split(d[n + 1..])
  }

  /** The chunk with a NUL byte forced to its end */
  function Terminated(d: Bytes): Bytes {
    if d == [] then [] else d[|d| - 1 := 0]
  }

  /** The bytes that hold these strings */
  function Join(paths: seq<Path>): Bytes {
    if paths == [] then [] else paths[0] + [0] + Join(paths[1..])
  }

  /** send_checksum for every path: files that cannot be read are skipped. */
  function Checksums(paths: seq<Path>, readable: set<Path>): (r: seq<Msg>)
    ensures forall m <- r :: m.UpdateAll? && m.path in paths
  {
    if paths == [] then []
    else
      (if paths[0] in readable then [UpdateAll(paths[0])] else []) + Checksums(paths[1..], readable)
  }

  /** For every path of a chunk that can be read, and for no other, an update is sent, as often as it is listed. */
  lemma {:induction false} ChecksumsExactly(paths: seq<Path>, readable: set<Path>, p: Path)
    ensures multiset(Checksums(paths, readable))[UpdateAll(p)] == if p in readable then multiset(paths)[p] else 0
  {
    if paths != [] {
      ChecksumsExactly(paths[1..], readable, p);
      assert paths == [paths[0]] + paths[1..];
      var first := if paths[0] in readable then [UpdateAll(paths[0])] else [];
      assert Checksums(paths, readable) == first + Checksums(paths[1..], readable);
    }
  }

  // ------------------------------------------------------------------ the three processes

  /** The state after an event that may have ended the last upgrade parent: send_upgrade_start */
  function Started(s: Sys, v: Upg): Sys {
    s.(u := v, p2m := s.p2m + if v.started then [StartMsg] else [], listed := if v.started then [] else s.listed)
  }

  /** The result of a path event; refused tells if an upgrade may not start. */
  function ErrorOf(e: KEvent, answer: Option<bv32>, refused: bool): bv32
    requires e.PathEvent?
  {
    if e.op.LinkOrRename? && answer.Some? then answer.value
    else if e.op.Lock? && e.uid == 0 && (e.mode.StrictLock? || e.mode.LooseLock?) && refused then EPERM
    else 0
  }

  /** pe_proc_is_hold */
  predicate OnHold(u: Upg, cookie: Cookie) {
    var p := Processes.Get(u.eng.procs, cookie);
    p.Some? && p.value.flags.hold
  }

  /** The answer to a kernel event: sent, held back, or none */
  function Answered(s: Sys, e: KEvent, token: nat, answer: Option<bv32>, refused: bool): Sys {
    match e
    case FileAccess(_, _, _, _, _, _) =>
      if answer.None? then s else s.(p2m := s.p2m + [Reply(token, answer.value)])
    case PathEvent(_, cookie, _, _) =>
      var m := Reply(token, ErrorOf(e, answer, refused));
      if OnHold(s.u, cookie) then s.(hold := s.hold + [m]) else s.(p2m := s.p2m + [m])
    case _ => s
  }

  /** The handling of one kernel event by dispatch_m2p */
  function KernelEvent(s: Sys, e: KEvent, token: nat, answer: Option<bv32>, env: Contexts.Env): Sys {
    Answered(Started(s, Handle(s.u, e, env)), e, token, answer, !s.u.ok && s.u.counter == 0)
  }

  /** One message of dispatch_m2p */
  function PolicyHandles(s: Sys, m: Msg, env: Contexts.Env): Sys {
    match m
    case KernelMsg(event, token, answer) => KernelEvent(s, event, token, answer, env)
    case InvalidateMsg(path, who) => s.(cache := Invalidate(s.cache, path, who))
    case ChunkReq =>
      var (data, iter) := Fill(s.u);
      s.(u := s.u.(iter := iter), p2m := s.p2m + [ChunkMsg(data)])
    case EndMsg => s.(u := Complete(s.u), cache := [], p2m := s.p2m + s.hold, hold := [])
    case OkMsg(value) => s.(u := s.u.(ok := value))
    case ConfigMsg(db) => s.(u := Handle(s.u, Process(Processes.ReconfigureEv(db), false), env), cache := [])
    case _ => s
  }

  /** One message of dispatch_p2m */
  function MasterForwards(s: Sys, m: Msg): Sys {
    match m
    case Reply(_, _) => s.(dev := s.dev + [m])
    case StartMsg => s.(m2u := s.m2u + [m])
    case ChunkMsg(_) => s.(m2u := s.m2u + [m])
    case _ => s
  }

  /** One message of dispatch_m2u */
  function UpgradeHandles(s: Sys, m: Msg, readable: set<Path>): Sys {
    match m
    case StartMsg => s.(u2m := s.u2m + [ChunkReq])
    case ChunkMsg(data) =>
      if data == [] then s.(u2m := s.u2m + [EndMsg])
      else
        var paths := Split(Terminated(data));
        s.(u2m := s.u2m + Checksums(paths, readable) + [ChunkReq], listed := s.listed + paths)
    case _ => s
  }

  ghost predicate OnlyAt(before: Disk, after: Disk, path: Path) {
    && (forall k | k in before && k.0 != path :: k in after && after[k] == before[k])
    && (forall k | k in after && k.0 != path :: k in before)
  }

  /** One message of dispatch_u2m; an update may change any entry of its path. */
  ghost function MasterUpdates(s: Sys, m: Msg, after: Disk): Sys {
    match m
    case UpdateAll(path) => if OnlyAt(s.disk, after, path) then s.(disk := after) else s
    case ChunkReq => s.(m2p := s.m2p + [m])
    case EndMsg => s.(m2p := s.m2p + [m])
    case _ => s
  }

  ghost function Next(s: Sys, a: Action): Sys {
    match a
    case Device(event, token, answer) => s.(m2p := s.m2p + [KernelMsg(event, token, answer)])
    case Session(op) => s.(disk := Apply(s.disk, op), m2p := s.m2p + [Invalidation(op)])
    case SendOk(value) => s.(m2p := s.m2p + [OkMsg(value)])
    case SendConfig(db) => s.(m2p := s.m2p + [ConfigMsg(db)])
    case LoadRules(rs, uid, prio, env) => s.(u := Handle(s.u, Process(Processes.InsertEv(rs, uid, prio), false), env))
    case Lookup(path, who, fails) =>
      s.(cache := Fetch(s.cache, path, who, if fails then Failed else DiskAnswerFor(s.disk, path, who)).1)
    case MasterReadsPolicy => if s.p2m == [] then s else MasterForwards(s.(p2m := s.p2m[1..]), s.p2m[0])
    case UpgradeReads(readable) => if s.m2u == [] then s else UpgradeHandles(s.(m2u := s.m2u[1..]), s.m2u[0], readable)
    case MasterReadsUpgrade(after) => if s.u2m == [] then s else MasterUpdates(s.(u2m := s.u2m[1..]), s.u2m[0], after)
    case PolicyReads(env) => if s.m2p == [] then s else PolicyHandles(s.(m2p := s.m2p[1..]), s.m2p[0], env)
  }

  function Init(db: Db, disk: Disk): Sys {
    Sys(Upg(Processes.Engine([], db), false, None, 0, None, true, false), [], [], [], [], [], [], [], disk, [])
  }

  // ------------------------------------------------------------------ chunks hold whole paths

  ghost predicate NulFree(paths: seq<Path>) {
    forall k | 0 <= k < |paths| :: 0 !in paths[k]
  }

  lemma {:induction false} NulAtPath(p: Path, rest: Bytes)
    requires 0 !in p
    ensures NulAt(p + [0] + rest) == |p|
  {
    if p != [] {
      NulAtPath(p[1..], rest);
      assert (p + [0] + rest)[1..] == p[1..] + [0] + rest;
      assert p[0] in p;
    }
  }

  lemma {:induction false} SplitJoin(paths: seq<Path>)
    requires NulFree(paths)
    ensures Split(Join(paths)) == paths
  {
    if paths != [] {
      var p, rest := paths[0], Join(paths[1..]);
      SplitJoin(paths[1..]);
      NulAtPath(p, rest);
      var d := p + [0] + rest;
      assert d[..|p|] == p && d[|p| + 1..] == rest;
    }
  }

  lemma {:induction false} JoinEnds(paths: seq<Path>)
    ensures paths != [] ==> Join(paths) != [] && Join(paths)[|Join(paths)| - 1] == 0
    ensures Terminated(Join(paths)) == Join(paths)
  {
    if paths != [] {
      JoinEnds(paths[1..]);
      var front, rest := paths[0] + [0], Join(paths[1..]);
      assert (front + rest)[|front| - 1] == 0;
      assert rest != [] ==> (front + rest)[|front + rest| - 1] == rest[|rest| - 1];
    }
  }

  /** A chunk holds exactly the paths from the old to the new position, and it is empty only if it must be. */
  lemma {:induction false} FillExact(t: Tree, k: nat, used: nat)
    requires k <= |t|
    ensures var (data, next) := FillFrom(t, k, used);
      && data == Join(FileTree.Paths(t)[k..next])
      && (used + |data| <= PATH_MAX || data == [])
    ensures var (data, next) := FillFrom(t, k, used);
      && (data == [] <==> next == k)
      && (forall p <- FileTree.Paths(t)[k..next] :: |p| + 1 <= PATH_MAX)
      && (next < |t| ==> used + |data| + |t[next].path| + 1 > PATH_MAX)
    decreases |t| - k
  {
    if k < |t| && used + |t[k].path| + 1 <= PATH_MAX {
      FillExact(t, k + 1, used + |t[k].path| + 1);
      var next := FillFrom(t, k, used).1;
      var ps := FileTree.Paths(t)[k..next];
      assert ps[0] == t[k].path && ps[1..] == FileTree.Paths(t)[k + 1..next];
    }
  }

  // ------------------------------------------------------------------ the invariant

  predicate IsControl(m: Msg) {
    m.StartMsg? || m.ChunkMsg? || m.ChunkReq? || m.EndMsg?
  }

  predicate FromPolicy(m: Msg) {
    m.StartMsg? || m.ChunkMsg?
  }

  predicate FromUpgrade(m: Msg) {
    m.ChunkReq? || m.EndMsg?
  }

  /** The START, CHUNK, CHUNK_REQ and END messages in a queue */
  function Control(q: seq<Msg>): seq<Msg> {
    if q == [] then [] else (if IsControl(q[0]) then [q[0]] else []) + Control(q[1..])
  }

  lemma {:induction false} ControlAppend(a: seq<Msg>, b: seq<Msg>)
    ensures Control(a + b) == Control(a) + Control(b)
  {
    hide IsControl;
    if a == [] {
      assert a + b == b;
    } else {
      ControlAppend(a[1..], b);
      var first := if IsControl(a[0]) then [a[0]] else [];
      assert (a + b)[1..] == a[1..] + b;
      assert first + (Control(a[1..]) + Control(b)) == first + Control(a[1..]) + Control(b);
    }
  }

  lemma {:induction false} ControlNone(q: seq<Msg>)
    requires forall m <- q :: !IsControl(m)
    ensures Control(q) == []
  {
    if q != [] {
      ControlNone(q[1..]);
    }
  }

  ghost predicate PolicyToMaster(q: seq<Msg>) {
    forall m <- q :: m.Reply? || FromPolicy(m)
  }

  ghost predicate MasterToPolicy(q: seq<Msg>) {
    forall m <- q :: m.KernelMsg? || m.InvalidateMsg? || m.OkMsg? || m.ConfigMsg? || FromUpgrade(m)
  }

  ghost predicate Replies(q: seq<Msg>) {
    forall m <- q :: m.Reply?
  }

  predicate Fits(p: Path) {
    |p| + 1 <= PATH_MAX
  }

  /** The next path, if there is one, does not fit into any chunk. */
  predicate Blocked(u: Upg)
    requires u.tree.Some?
  {
    Position(u) < |u.tree.value| ==> !Fits(u.tree.value[Position(u)].path)
  }

  /** The paths before the iterator */
  function Done(u: Upg): seq<Path>
    requires u.tree.Some?
  {
    var paths := FileTree.Paths(u.tree.value);
    if Position(u) <= |paths| then paths[..Position(u)] else paths
  }

  /** The chunk holds these paths, and with them all paths before the iterator are listed. */
  ghost predicate HoldsChunk(s: Sys, data: Bytes, chunk: seq<Path>)
    requires s.u.tree.Some?
  {
    data == Join(chunk) && NulFree(chunk) && s.listed + chunk == Done(s.u)
  }

  /** What the control message in flight says about the progress through the tree */
  ghost predicate Progress(s: Sys, m: Msg)
    requires s.u.tree.Some?
  {
    && (forall p <- Done(s.u) :: Fits(p))
    && match m
       case StartMsg => s.listed == [] && Position(s.u) == 0
       case ChunkMsg(data) => (data == [] ==> Blocked(s.u)) && exists chunk :: HoldsChunk(s, data, chunk)
       case ChunkReq => s.listed == Done(s.u)
       case EndMsg => s.listed == Done(s.u) && Blocked(s.u)
       case _ => false
  }

  /** Checksum updates concern files of the upgrade only. */
  ghost predicate Updates(q: seq<Msg>, t: Tree) {
    forall m <- q :: m.UpdateAll? && m.path in FileTree.Paths(t)
  }

  /** Exactly one control message is in flight while an upgrade is being processed, otherwise none. */
  ghost predicate Flow(s: Sys) {
    if !Pending(s.u) then Control(s.p2m) == [] && s.m2u == [] && s.u2m == [] && Control(s.m2p) == []
    else exists m :: FlowOf(s, m)
  }

  ghost predicate FlowOf(s: Sys, m: Msg)
    requires s.u.tree.Some?
  {
    && Progress(s, m)
    && (|| (FromPolicy(m) && Control(s.p2m) == [m] && s.m2u == [] && s.u2m == [] && Control(s.m2p) == [])
        || (FromPolicy(m) && Control(s.p2m) == [] && s.m2u == [m] && s.u2m == [] && Control(s.m2p) == [])
        || (FromUpgrade(m) && Control(s.p2m) == [] && s.m2u == [] && Control(s.m2p) == []
            && s.u2m != [] && s.u2m[|s.u2m| - 1] == m && Updates(s.u2m[..|s.u2m| - 1], s.u.tree.value))
        || (FromUpgrade(m) && Control(s.p2m) == [] && s.m2u == [] && s.u2m == [] && Control(s.m2p) == [m]))
  }

  ghost predicate Invalidated(q: seq<Msg>, path: Path, who: Who) {
    exists m <- q :: m.InvalidateMsg? && m.ipath == path && SameWho(who, m.who)
  }

  predicate Upgraded(u: Upg, path: Path) {
    Pending(u) && path in FileTree.Paths(u.tree.value)
  }

  /** An entry is right, or about to be dropped: by an invalidation on its way or by the end of the upgrade. */
  ghost predicate Coherent(s: Sys) {
    forall e <- s.cache ::
      Cached(e) == Truth(s.disk, e.path, e.who) || Invalidated(s.m2p, e.path, e.who) || Upgraded(s.u, e.path)
  }

  ghost predicate Held(s: Sys) {
    Replies(s.hold) && (s.hold != [] ==> Pending(s.u))
  }

  ghost predicate SysInv(s: Sys) {
    && Upgrade.Inv(s.u)
    && PolicyToMaster(s.p2m) && MasterToPolicy(s.m2p) && Replies(s.dev)
    && Held(s)
    && Flow(s)
    && CacheOk(s.cache)
    && Coherent(s)
  }

  /** The action is the handling of a lock that no tracked process has taken. */
  predicate LosesCount(s: Sys, a: Action) {
    a.PolicyReads? && s.m2p != [] && s.m2p[0].KernelMsg? && Lost(s.u, s.m2p[0].event)
  }

  // ------------------------------------------------------------------ the steps keep the invariant

  /** A message that is not part of the chunk exchange is appended to eventq_m2p. */
  lemma AppendInv(s: Sys, m: Msg)
    requires SysInv(s) && MasterToPolicy([m]) && !IsControl(m)
    ensures SysInv(s.(m2p := s.m2p + [m]))
  {
    hide Upgrade.Inv;
    hide CacheOk;
    hide Replies;
    hide Truth;
    var t := s.(m2p := s.m2p + [m]);
    ControlAppend(s.m2p, [m]);
    FlowFrame(s, t);
    assert m in [m];
  }

  /** Flow depends on control messages only. */
  lemma FlowFrame(s: Sys, t: Sys)
    requires Flow(s)
    requires t.u.tree == s.u.tree && t.u.counter == s.u.counter && t.u.iter == s.u.iter && t.listed == s.listed
    requires Control(t.p2m) == Control(s.p2m) && t.m2u == s.m2u && t.u2m == s.u2m && Control(t.m2p) == Control(s.m2p)
    ensures Flow(t)
  {
    hide Control;
    if Pending(s.u) {
      var m :| FlowOf(s, m);
      assert Progress(t, m) by {
        hide FlowOf;
        assert Progress(s, m);
        ProgressFrame(s, t, m);
      }
      assert FlowOf(t, m);
    }
  }

  lemma ProgressFrame(s: Sys, t: Sys, m: Msg)
    requires s.u.tree.Some? && Progress(s, m)
    requires t.u.tree == s.u.tree && t.u.iter == s.u.iter && t.listed == s.listed
    ensures Progress(t, m)
  {
    if m.ChunkMsg? {
      var chunk :| HoldsChunk(s, m.data, chunk);
      assert HoldsChunk(t, m.data, chunk);
    }
  }

  /** A change of the disk hits only requests that the invalidation matches, in every spelling of the key. */
  lemma ApplyTruth(disk: Disk, op: CsumOp, path: Path, who: Who)
    ensures Truth(Apply(disk, op), path, who) == Truth(disk, path, who)
            || (Invalidation(op).ipath == path && SameWho(who, Invalidation(op).who))
  {
    if who.ByKey? && (op.AddSig? || op.DelSig?) {
      InvalidateAllSpellings(who.key, op.keyid);
    }
  }

  lemma SessionInv(s: Sys, op: CsumOp)
    requires SysInv(s)
    ensures SysInv(s.(disk := Apply(s.disk, op), m2p := s.m2p + [Invalidation(op)]))
  {
    var t := s.(m2p := s.m2p + [Invalidation(op)]);
    AppendInv(s, Invalidation(op));
    hide Upgrade.Inv;
    hide CacheOk;
    hide Flow;
    hide Truth;
    var v := t.(disk := Apply(s.disk, op));
    FlowFrame(t, v);
    forall e | e in s.cache
      ensures Cached(e) == Truth(v.disk, e.path, e.who) || Invalidated(v.m2p, e.path, e.who) || Upgraded(v.u, e.path)
    {
      ApplyTruth(s.disk, op, e.path, e.who);
      assert Invalidation(op) in v.m2p;
      hide Apply;
      hide Invalidation;
    }
  }

  lemma RulesInv(s: Sys, e: Processes.Event, env: Contexts.Env)
    requires SysInv(s) && (e.InsertEv? || e.ReconfigureEv?)
    ensures SysInv(s.(u := Handle(s.u, Process(e, false), env)))
  {
    var t := s.(u := Handle(s.u, Process(e, false), env));
    HandleInv(s.u, Process(e, false), env);
    assert !Lost(s.u, Process(e, false));
    assert t.u.tree == s.u.tree && t.u.counter == s.u.counter && t.u.iter == s.u.iter;
    hide Upgrade.Inv;
    hide Handle;
    hide Flow;
    hide Truth;
    FlowFrame(s, t);
  }

  /** Which entries a lookup leaves in the cache */
  lemma FetchMembers(c: Cache, path: Path, who: Who, disk: DiskAnswer, e: Entry)
    requires e in Fetch(c, path, who, disk).1
    ensures e in c || (e.path == path && e.who == who && Cached(e) == ReadSum(who, disk))
  {
  }

  /** A read that fails is not cached. */
  lemma FailedRead(who: Who, disk: DiskAnswer)
    ensures ReadSum(who, Failed) == Error || ReadSum(who, Failed) == ReadSum(who, disk)
  {
  }

  lemma LookupInv(s: Sys, path: Path, who: Who, fails: bool)
    requires SysInv(s)
    ensures SysInv(Next(s, Lookup(path, who, fails)))
  {
    var disk := if fails then Failed else DiskAnswerFor(s.disk, path, who);
    var t := Next(s, Lookup(path, who, fails));
    FetchOk(s.cache, path, who, disk);
    FailedRead(who, DiskAnswerFor(s.disk, path, who));
    assert t == s.(cache := Fetch(s.cache, path, who, disk).1);
    hide Upgrade.Inv;
    hide Flow;
    hide Fetch;
    hide CacheOk;
    FlowFrame(s, t);
    forall e | e in t.cache
      ensures Cached(e) == Truth(t.disk, e.path, e.who) || Invalidated(t.m2p, e.path, e.who) || Upgraded(t.u, e.path)
    {
      FetchMembers(s.cache, path, who, disk, e);
      hide ReadSum;
    }
  }

  lemma ControlHead(q: seq<Msg>)
    requires q != []
    ensures Control(q) == (if IsControl(q[0]) then [q[0]] else []) + Control(q[1..])
  {
  }

  lemma MasterReply(s: Sys)
    requires SysInv(s) && s.p2m != [] && s.p2m[0].Reply?
    ensures SysInv(Next(s, MasterReadsPolicy))
  {
    var t := Next(s, MasterReadsPolicy);
    ControlHead(s.p2m);
    hide Upgrade.Inv;
    hide CacheOk;
    hide Truth;
    hide Flow;
    FlowFrame(s, t);
  }

  lemma MasterControl(s: Sys)
    requires SysInv(s) && s.p2m != [] && FromPolicy(s.p2m[0])
    ensures SysInv(Next(s, MasterReadsPolicy))
  {
    hide Upgrade.Inv;
    hide CacheOk;
    hide Truth;
    var m := s.p2m[0];
    var t := Next(s, MasterReadsPolicy);
    ControlHead(s.p2m);
    var c :| FlowOf(s, c);
    assert c == Control(s.p2m)[0] == m;
    ProgressFrame(s, t, m);
    assert FlowOf(t, m) by { hide Progress; }
  }

  lemma MasterInv(s: Sys)
    requires SysInv(s) && s.p2m != []
    ensures SysInv(Next(s, MasterReadsPolicy))
  {
    assert s.p2m[0] in s.p2m;
    assert s.p2m[0].Reply? || FromPolicy(s.p2m[0]);
    hide SysInv;
    hide Next;
    if s.p2m[0].Reply? { MasterReply(s); } else { MasterControl(s); }
  }

  lemma ForwardControl(s: Sys, after: Disk)
    requires SysInv(s) && |s.u2m| == 1
    ensures SysInv(Next(s, MasterReadsUpgrade(after)))
  {
    hide Upgrade.Inv;
    hide CacheOk;
    hide Truth;
    var c :| FlowOf(s, c);
    var t := Next(s, MasterReadsUpgrade(after));
    assert s.u2m[0] == c && t == s.(u2m := [], m2p := s.m2p + [c]);
    ControlAppend(s.m2p, [c]);
    ProgressFrame(s, t, c);
    assert FlowOf(t, c) by { hide Progress; }
  }

  /** The first of several messages is a checksum update of the upgrade. */
  lemma FirstUpdate(s: Sys) returns (c: Msg)
    requires SysInv(s) && |s.u2m| > 1
    ensures Pending(s.u) && FlowOf(s, c) && Progress(s, c) && FromUpgrade(c)
    ensures s.u2m[0].UpdateAll? && Upgraded(s.u, s.u2m[0].path)
    ensures Updates(s.u2m[1..][..|s.u2m| - 2], s.u.tree.value) && s.u2m[1..][|s.u2m| - 2] == c
    ensures Control(s.p2m) == [] && s.m2u == [] && Control(s.m2p) == []
  {
    hide Progress;
    c :| FlowOf(s, c);
    var n := |s.u2m| - 1;
    assert s.u2m[0] in s.u2m[..n];
    assert s.u2m[1..][..n - 1] == s.u2m[..n][1..];
  }

  lemma ForwardUpdate(s: Sys, after: Disk)
    requires SysInv(s) && |s.u2m| > 1
    ensures SysInv(Next(s, MasterReadsUpgrade(after)))
  {
    hide Upgrade.Inv;
    hide CacheOk;
    hide Truth;
    hide Coherent;
    hide Progress;
    hide Updates;
    hide Upgraded;
    hide Control;
    var c := FirstUpdate(s);
    var t := Next(s, MasterReadsUpgrade(after));
    UpdateTruth(s, t, s.u2m[0].path);
    ProgressFrame(s, t, c);
    assert FlowOf(t, c);
  }

  lemma ForwardInv(s: Sys, after: Disk)
    requires SysInv(s) && s.u2m != []
    ensures SysInv(Next(s, MasterReadsUpgrade(after)))
  {
    hide SysInv;
    hide Next;
    if |s.u2m| == 1 { ForwardControl(s, after); } else { ForwardUpdate(s, after); }
  }

  /** An update of a file of the upgrade changes the truth about that file only. */
  lemma UpdateTruth(s: Sys, t: Sys, path: Path)
    requires Coherent(s) && Upgraded(s.u, path)
    requires t.disk == s.disk || OnlyAt(s.disk, t.disk, path)
    requires t.u == s.u && t.cache == s.cache && t.m2p == s.m2p
    ensures Coherent(t)
  {
    forall e | e in t.cache && e.path != path ensures Truth(t.disk, e.path, e.who) == Truth(s.disk, e.path, e.who) {
      hide ReadSum;
    }
    hide Truth;
  }

  lemma ChunkPaths(s: Sys, data: Bytes) returns (chunk: seq<Path>)
    requires s.u.tree.Some? && Progress(s, ChunkMsg(data))
    ensures Split(Terminated(data)) == chunk && (data == [] <==> chunk == [])
    ensures forall p <- chunk :: p in FileTree.Paths(s.u.tree.value)
    ensures data == [] ==> Progress(s, EndMsg)
    ensures Progress(s.(listed := s.listed + chunk), ChunkReq)
  {
    hide Blocked;
    hide Split;
    hide Join;
    hide Terminated;
    chunk :| HoldsChunk(s, data, chunk);
    SplitJoin(chunk);
    JoinEnds(chunk);
    EmptyChunk(chunk);
    PartOfTree(s.listed, chunk, Done(s.u), FileTree.Paths(s.u.tree.value));
    assert Done(s.(listed := s.listed + chunk).u) == Done(s.u);
    if data == [] { assert s.listed + chunk == s.listed; }
  }

  lemma EmptyChunk(chunk: seq<Path>)
    ensures Join(chunk) == [] <==> chunk == []
  {
  }

  lemma PartOfTree(listed: seq<Path>, chunk: seq<Path>, done: seq<Path>, paths: seq<Path>)
    requires listed + chunk == done && done <= paths
    ensures forall p <- chunk :: p in paths
  {
    forall p | p in chunk ensures p in paths {
      var k :| 0 <= k < |chunk| && chunk[k] == p;
      assert (listed + chunk)[|listed| + k] == p;
    }
  }

  /** The upgrade process puts its answer, after any checksums, into an empty queue. */
  lemma AnswerFlow(s: Sys, c: Msg, listed: seq<Path>, ups: seq<Msg>, m: Msg)
    requires SysInv(s) && Pending(s.u) && FlowOf(s, c) && s.m2u == [c]
    requires Updates(ups, s.u.tree.value) && FromUpgrade(m) && Progress(s.(listed := listed), m)
    ensures SysInv(s.(m2u := [], u2m := ups + [m], listed := listed))
  {
    var t := s.(m2u := [], u2m := ups + [m], listed := listed);
    hide Upgrade.Inv;
    hide CacheOk;
    hide Truth;
    ProgressFrame(s.(listed := listed), t, m);
    hide Progress;
    hide Updates;
    assert t.u2m[..|t.u2m| - 1] == ups;
    assert FlowOf(t, m);
  }

  lemma AtUpgrade(s: Sys) returns (m: Msg)
    requires SysInv(s) && s.m2u != []
    ensures Pending(s.u) && FlowOf(s, m) && Progress(s, m)
    ensures s.m2u == [m] && s.u2m == [] && FromPolicy(m)
  {
    m :| FlowOf(s, m);
  }

  lemma UpgradeInv(s: Sys, readable: set<Path>)
    requires SysInv(s) && s.m2u != []
    ensures SysInv(Next(s, UpgradeReads(readable)))
  {
    hide SysInv;
    hide FlowOf;
    hide Progress;
    var m := AtUpgrade(s);
    var t := Next(s, UpgradeReads(readable));
    if m.StartMsg? {
      StartProgress(s);
      AnswerFlow(s, m, s.listed, [], ChunkReq);
      assert t == s.(m2u := [], u2m := [] + [ChunkReq], listed := s.listed);
    } else {
      var chunk := ChunkPaths(s, m.data);
      if m.data == [] {
        AnswerFlow(s, m, s.listed, [], EndMsg);
        assert t == s.(m2u := [], u2m := [] + [EndMsg], listed := s.listed);
      } else {
        AnswerFlow(s, m, s.listed + chunk, Checksums(chunk, readable), ChunkReq);
        assert t == s.(m2u := [], u2m := Checksums(chunk, readable) + [ChunkReq], listed := s.listed + chunk);
      }
    }
  }

  lemma StartProgress(s: Sys)
    requires s.u.tree.Some? && Progress(s, StartMsg)
    ensures Progress(s, ChunkReq)
  {
  }

  // ------------------------------------------------------------------ the policy engine's messages

  lemma PopInv(s: Sys)
    requires SysInv(s) && s.m2p != [] && !IsControl(s.m2p[0]) && !s.m2p[0].InvalidateMsg?
    ensures SysInv(s.(m2p := s.m2p[1..]))
  {
    hide Upgrade.Inv;
    hide CacheOk;
    hide Truth;
    hide Flow;
    var t := s.(m2p := s.m2p[1..]);
    ControlHead(s.m2p);
    FlowFrame(s, t);
  }

  lemma InvalidateInv(s: Sys)
    requires SysInv(s) && s.m2p != [] && s.m2p[0].InvalidateMsg?
    ensures SysInv(s.(m2p := s.m2p[1..], cache := Invalidate(s.cache, s.m2p[0].ipath, s.m2p[0].who)))
  {
    var m := s.m2p[0];
    var t := s.(m2p := s.m2p[1..], cache := Invalidate(s.cache, m.ipath, m.who));
    ControlHead(s.m2p);
    InvalidateExact(s.cache, m.ipath, m.who);
    hide Upgrade.Inv;
    hide CacheOk;
    hide Truth;
    hide Flow;
    hide Invalidate;
    FlowFrame(s, t);
  }

  /** A reply is appended to eventq_p2m. */
  lemma ReplyInv(s: Sys, token: nat, error: bv32)
    requires SysInv(s)
    ensures SysInv(s.(p2m := s.p2m + [Reply(token, error)]))
  {
    hide Upgrade.Inv;
    hide CacheOk;
    hide Truth;
    hide Flow;
    var t := s.(p2m := s.p2m + [Reply(token, error)]);
    ControlAppend(s.p2m, [Reply(token, error)]);
    FlowFrame(s, t);
  }

  /** The effect of an event on the upgrade, with the START message that it may cause */
  lemma EventInv(s: Sys, e: KEvent, env: Contexts.Env)
    requires SysInv(s) && !Lost(s.u, e)
    ensures var v := Handle(s.u, e, env);
      SysInv(Started(s, v))
  {
    hide Handle;
    hide Upgrade.Inv;
    hide CacheOk;
    hide Truth;
    hide Lost;
    var v := Handle(s.u, e, env);
    var t := Started(s, v);
    HandleInv(s.u, e, env);
    ControlAppend(s.p2m, t.p2m[|s.p2m|..]);
    assert t.p2m == s.p2m + t.p2m[|s.p2m|..];
    if Pending(s.u) {
      hide Flow;
      FlowFrame(s, t);
    } else if v.started {
      assert Progress(t, StartMsg);
      assert FlowOf(t, StartMsg) by { hide Progress; }
    }
  }

  lemma KernelInv(s: Sys, e: KEvent, token: nat, answer: Option<bv32>, env: Contexts.Env)
    requires SysInv(s)
    ensures SysInv(KernelEvent(s, e, token, answer, env)) <==> !Lost(s.u, e)
  {
    var v := Handle(s.u, e, env);
    var w := KernelEvent(s, e, token, answer, env);
    HandleInv(s.u, e, env);
    hide Handle;
    assert w.u == v;
    if !Lost(s.u, e) {
      EventInv(s, e, env);
      var t := Started(s, v);
      hide SysInv;
      if |w.p2m| > |t.p2m| {
        var r := w.p2m[|t.p2m|];
        ReplyInv(t, r.token, r.error);
        assert w == t.(p2m := t.p2m + [r]);
      } else if |w.hold| > |t.hold| {
        HoldInv(t, w, e.cookie);
      } else {
        assert w == t;
      }
    } else {
      assert !Upgrade.Inv(w.u);
      hide Upgrade.Inv;
    }
  }

  /** A reply is held back only while an upgrade is being processed. */
  lemma HoldInv(s: Sys, t: Sys, cookie: Cookie)
    requires SysInv(s)
    requires Processes.Get(s.u.eng.procs, cookie).Some? && Processes.Get(s.u.eng.procs, cookie).value.flags.hold
    requires |t.hold| == |s.hold| + 1 && t.hold[|s.hold|].Reply? && t == s.(hold := s.hold + [t.hold[|s.hold|]])
    ensures SysInv(t)
  {
    assert Processes.Get(s.u.eng.procs, cookie).value in s.u.eng.procs;
    assert Pending(s.u);
    hide Upgrade.Inv;
    hide CacheOk;
    hide Truth;
    hide Flow;
    FlowFrame(s, t);
  }

  lemma AtPolicy(s: Sys) returns (m: Msg)
    requires SysInv(s) && s.m2p != [] && IsControl(s.m2p[0])
    ensures Pending(s.u) && FlowOf(s, m) && Progress(s, m)
    ensures s.m2p[0] == m && FromUpgrade(m)
    ensures Control(s.p2m) == [] && s.m2u == [] && s.u2m == [] && Control(s.m2p[1..]) == []
  {
    ControlHead(s.m2p);
    assert Pending(s.u);
    m :| FlowOf(s, m);
    assert Control(s.m2p)[0] == s.m2p[0];
  }

  lemma ChunkFlow(t: Sys, data: Bytes)
    requires Pending(t.u) && Progress(t, ChunkMsg(data))
    requires Control(t.p2m) == [ChunkMsg(data)] && t.m2u == [] && t.u2m == [] && Control(t.m2p) == []
    ensures Flow(t)
  {
    hide Progress;
    hide Control;
    assert FlowOf(t, ChunkMsg(data));
  }

  /** A chunk request is answered with the next paths of the tree. */
  lemma ChunkInv(s: Sys)
    requires SysInv(s) && s.m2p != [] && s.m2p[0].ChunkReq?
    ensures var (data, iter) := Fill(s.u);
      SysInv(s.(m2p := s.m2p[1..], u := s.u.(iter := iter), p2m := s.p2m + [ChunkMsg(data)]))
  {
    hide Progress;
    hide FlowOf;
    hide CacheOk;
    hide Truth;
    hide Fill;
    hide Done;
    hide Blocked;
    var m := AtPolicy(s);
    var (data, iter) := Fill(s.u);
    var t := s.(m2p := s.m2p[1..], u := s.u.(iter := iter), p2m := s.p2m + [ChunkMsg(data)]);
    ChunkProgress(s, t, data);
    ControlAppend(s.p2m, [ChunkMsg(data)]);
    assert Upgrade.Inv(t.u);
    ChunkFlow(t, data);
  }

  /** The paths in the next chunk and the position after it */
  lemma FillChunk(u: Upg) returns (chunk: seq<Path>, next: nat)
    requires Upgrade.Inv(u) && Pending(u)
    ensures var v := u.(iter := Fill(u).1); var paths := FileTree.Paths(u.tree.value);
      && Fill(u).0 == Join(chunk) && NulFree(chunk)
      && Position(u) <= next <= |paths| && Position(v) == next && chunk == paths[Position(u)..next]
      && (v.iter.Some? ==> next < |u.tree.value|)
      && (Fill(u).0 == [] ==> Blocked(v)) && (forall p <- chunk :: Fits(p))
  {
    hide FillFrom;
    hide Join;
    hide FileTree.Sorted;
    hide Parents;
    var tree := u.tree.value;
    FillExact(tree, Position(u), 0);
    next := FillFrom(tree, Position(u), 0).1;
    chunk := FileTree.Paths(tree)[Position(u)..next];
    ChunkStrings(tree, Position(u), next);
    if u.iter.None? { assert chunk == []; }
  }

  lemma ChunkStrings(t: Tree, from: nat, til: nat)
    requires TreeOk(t) && from <= til <= |t|
    ensures NulFree(FileTree.Paths(t)[from..til])
  {
    forall k | 0 <= k < til - from ensures 0 !in FileTree.Paths(t)[from..til][k] {
      assert t[from + k] in t;
    }
  }

  lemma ChunkProgress(s: Sys, t: Sys, data: Bytes)
    requires Upgrade.Inv(s.u) && Pending(s.u) && Progress(s, ChunkReq) && data == Fill(s.u).0
    requires t.u == s.u.(iter := Fill(s.u).1) && t.listed == s.listed
    ensures Progress(t, ChunkMsg(data)) && (t.u.iter.Some? ==> t.u.iter.value < |t.u.tree.value|)
  {
    hide Fill;
    hide Blocked;
    hide Join;
    hide Fits;
    var chunk, next := FillChunk(s.u);
    hide Upgrade.Inv;
    var paths := FileTree.Paths(s.u.tree.value);
    assert Done(t.u) == Done(s.u) + chunk;
    assert HoldsChunk(t, data, chunk);
  }

  /** Between upgrades nothing is cached yet or held back. */
  lemma RestInv(s: Sys)
    requires Upgrade.Inv(s.u) && !Pending(s.u)
    requires PolicyToMaster(s.p2m) && MasterToPolicy(s.m2p) && Replies(s.dev)
    requires Control(s.p2m) == [] && s.m2u == [] && s.u2m == [] && Control(s.m2p) == []
    requires s.cache == [] && s.hold == []
    ensures SysInv(s)
  {
    hide Upgrade.Inv;
    hide Control;
  }

  lemma HeldReplies(p2m: seq<Msg>, hold: seq<Msg>)
    requires PolicyToMaster(p2m) && Replies(hold) && Control(p2m) == []
    ensures PolicyToMaster(p2m + hold) && Control(p2m + hold) == []
  {
    ControlAppend(p2m, hold);
    ControlNone(hold);
  }

  /** The end of an upgrade empties the cache and releases the held replies. */
  lemma FinishInv(s: Sys)
    requires SysInv(s) && s.m2p != [] && s.m2p[0].EndMsg?
    ensures SysInv(s.(m2p := s.m2p[1..], u := Complete(s.u), cache := [], p2m := s.p2m + s.hold, hold := []))
  {
    var m := AtPolicy(s);
    CompleteInv(s.u);
    hide Progress;
    hide FlowOf;
    hide Flow;
    hide Coherent;
    hide CacheOk;
    hide Upgrade.Inv;
    hide Complete;
    hide Control;
    HeldReplies(s.p2m, s.hold);
    RestInv(s.(m2p := s.m2p[1..], u := Complete(s.u), cache := [], p2m := s.p2m + s.hold, hold := []));
  }

  lemma PolicyStep(s: Sys, env: Contexts.Env)
    requires s.m2p != []
    ensures Next(s, PolicyReads(env)) == PolicyHandles(s.(m2p := s.m2p[1..]), s.m2p[0], env)
  {
    hide PolicyHandles;
  }

  lemma FromMaster(s: Sys)
    requires SysInv(s) && s.m2p != []
    ensures var m := s.m2p[0]; m.KernelMsg? || m.InvalidateMsg? || m.OkMsg? || m.ConfigMsg? || FromUpgrade(m)
  {
    assert s.m2p[0] in s.m2p;
  }

  lemma PolicyInv(s: Sys, env: Contexts.Env)
    requires SysInv(s) && s.m2p != []
    ensures SysInv(Next(s, PolicyReads(env))) <==> !LosesCount(s, PolicyReads(env))
  {
    hide SysInv;
    hide Next;
    hide KernelEvent;
    hide Handle;
    hide Complete;
    hide Fill;
    hide Invalidate;
    hide Lost;
    PolicyStep(s, env);
    FromMaster(s);
    var m := s.m2p[0];
    var t := s.(m2p := s.m2p[1..]);
    match m {
      case KernelMsg(event, token, answer) =>
        PopInv(s);
        KernelInv(t, event, token, answer, env);
      case InvalidateMsg(_, _) => InvalidateInv(s);
      case ChunkReq => ChunkInv(s);
      case EndMsg => FinishInv(s);
      case OkMsg(value) =>
        PopInv(s);
        OkInv(t, value);
      case ConfigMsg(db) =>
        PopInv(s);
        RulesInv(t, Processes.ReconfigureEv(db), env);
        FlushInv(t.(u := Handle(t.u, Process(Processes.ReconfigureEv(db), false), env)));
      case _ =>
    }
  }

  lemma OkInv(s: Sys, value: bool)
    requires SysInv(s)
    ensures SysInv(s.(u := s.u.(ok := value)))
  {
    hide Truth;
    hide CacheOk;
    hide Flow;
    FlowFrame(s, s.(u := s.u.(ok := value)));
  }

  lemma FlushInv(s: Sys)
    requires SysInv(s)
    ensures SysInv(s.(cache := []))
  {
    hide Upgrade.Inv;
    hide Truth;
    hide Flow;
    FlowFrame(s, s.(cache := []));
  }

  // ------------------------------------------------------------------ safety over all runs

  /**
   * Every action of every process keeps the invariant, except the handling of a lock
   * of a process that is not tracked.
   */
  lemma NextInv(s: Sys, a: Action)
    requires SysInv(s)
    ensures SysInv(Next(s, a)) <==> !LosesCount(s, a)
  {
    match a {
      case Device(event, token, answer) => AppendInv(s, KernelMsg(event, token, answer));
      case Session(op) => SessionInv(s, op);
      case SendOk(value) => AppendInv(s, OkMsg(value));
      case SendConfig(db) => AppendInv(s, ConfigMsg(db));
      case LoadRules(rs, uid, prio, env) => RulesInv(s, Processes.InsertEv(rs, uid, prio), env);
      case Lookup(path, who, fails) => LookupInv(s, path, who, fails);
      case MasterReadsPolicy => if s.p2m != [] { MasterInv(s); }
      case UpgradeReads(readable) => if s.m2u != [] { UpgradeInv(s, readable); }
      case MasterReadsUpgrade(after) => if s.u2m != [] { ForwardInv(s, after); }
      case PolicyReads(env) => if s.m2p != [] { PolicyInv(s, env); }
    }
    hide SysInv;
  }

  ghost function Run(s: Sys, actions: seq<Action>): Sys
    decreases |actions|
  {
    if actions == [] then s else Next(Run(s, actions[..|actions| - 1]), actions[|actions| - 1])
  }

  ghost predicate CountsKept(s: Sys, actions: seq<Action>) {
    forall k | 0 <= k < |actions| :: !LosesCount(Run(s, actions[..k]), actions[k])
  }

  lemma InitInv(db: Db, disk: Disk)
    ensures SysInv(Init(db, disk))
  {
  }

  /** The invariant holds in every reachable state, in whatever order the processes run. */
  lemma {:induction false} RunInv(db: Db, disk: Disk, actions: seq<Action>)
    requires CountsKept(Init(db, disk), actions)
    ensures SysInv(Run(Init(db, disk), actions))
    decreases |actions|
  {
    hide SysInv;
    hide LosesCount;
    hide Next;
    hide Init;
    var s := Init(db, disk);
    if actions == [] {
      InitInv(db, disk);
    } else {
      var n := |actions| - 1;
      forall k | 0 <= k < n ensures !LosesCount(Run(s, actions[..n][..k]), actions[..n][k]) {
        assert actions[..n][..k] == actions[..k];
      }
      RunInv(db, disk, actions[..n]);
      NextInv(Run(s, actions[..n]), actions[n]);
    }
  }

  lemma OnlyLast(q: seq<Msg>, m: Msg)
    requires q != [] && q[|q| - 1] == m && IsControl(m) && forall k | 0 <= k < |q| - 1 :: !IsControl(q[k])
    ensures Control(q) == [m]
  {
    var n := |q| - 1;
    assert q == q[..n] + [m];
    ControlAppend(q[..n], [m]);
    ControlNone(q[..n]);
  }

  /** Exactly one message of the chunk exchange is in flight while an upgrade is processed, otherwise none. */
  lemma OneControl(s: Sys)
    requires SysInv(s)
    ensures |Control(s.p2m)| + |Control(s.m2u)| + |Control(s.u2m)| + |Control(s.m2p)| == if Pending(s.u) then 1 else 0
  {
    hide Upgrade.Inv;
    hide Coherent;
    hide CacheOk;
    hide Progress;
    hide PolicyToMaster;
    hide MasterToPolicy;
    hide Replies;
    hide Control;
    ControlNone([]);
    if Pending(s.u) {
      var m :| FlowOf(s, m);
      if s.m2u != [] {
        OnlyLast(s.m2u, m);
      } else if s.u2m != [] {
        forall k | 0 <= k < |s.u2m| - 1 ensures !IsControl(s.u2m[k]) {
          assert s.u2m[k] in s.u2m[..|s.u2m| - 1];
        }
        OnlyLast(s.u2m, m);
      }
    }
  }

  /**
   * The cache is transparent: unless the file belongs to an upgrade that is being processed
   * or an invalidation is on its way, a request is answered as if there were no cache.
   */
  lemma CacheIsTransparent(s: Sys, path: Path, who: Who, fails: bool)
    requires SysInv(s) && !Invalidated(s.m2p, path, who) && !Upgraded(s.u, path)
    ensures var answer := Fetch(s.cache, path, who, if fails then Failed else DiskAnswerFor(s.disk, path, who)).0;
      answer == Truth(s.disk, path, who) || (fails && answer == Error)
  {
    FailedRead(who, DiskAnswerFor(s.disk, path, who));
    match Locate(s.cache, path, who) {
      case None =>
      case Some(k) =>
        var e := s.cache[k];
        assert e in s.cache && e.path == path && SameWho(e.who, who);
        SameTruth(s.disk, path, e.who, who);
    }
  }

  /** Two spellings of a key have the same answer. */
  lemma SameTruth(disk: Disk, path: Path, a: Who, b: Who)
    requires SameWho(a, b)
    ensures Truth(disk, path, a) == Truth(disk, path, b)
  {
    if a.ByKey? {
      var x, y := Decode(a.key), Decode(b.key);
      if x.Some? { DecodeLower(a.key, x.value); DecodeLower(b.key, x.value); }
      if y.Some? { DecodeLower(a.key, y.value); DecodeLower(b.key, y.value); }
      assert |Lower(a.key)| == |Lower(b.key)|;
    }
  }

  /**
   * When the end of an upgrade is reported, the files handed to the upgrade process are all
   * files of the tree, each once and in tree order, exactly if every path fits into a chunk.
   */
  lemma AllPathsListed(s: Sys)
    requires SysInv(s) && Pending(s.u) && FlowOf(s, EndMsg)
    ensures s.listed == FileTree.Paths(s.u.tree.value) <==> forall n <- s.u.tree.value :: Fits(n.path)
    ensures forall j, k | 0 <= j < k < |s.listed| :: s.listed[j] != s.listed[k]
  {
    var t := s.u.tree.value;
    var paths := FileTree.Paths(t);
    assert Progress(s, EndMsg) && Position(s.u) <= |paths|;
    hide FlowOf;
    if s.listed == paths {
      forall n | n in t ensures Fits(n.path) {
        var k :| 0 <= k < |t| && t[k] == n;
        assert paths[k] in s.listed;
      }
    }
    forall j, k | 0 <= j < k < |s.listed| ensures s.listed[j] != s.listed[k] {
      FileTree.CompareOrder(t[j].path, t[k].path);
    }
  }

  /**
   * The report of the end drops all cached checksums, sends the held replies in the order
   * they were held, and makes exactly the held processes parents of the next upgrade.
   */
  lemma EndReleases(s: Sys, env: Contexts.Env)
    requires SysInv(s) && s.m2p != [] && s.m2p[0].EndMsg?
    ensures var t := Next(s, PolicyReads(env));
      && t.cache == [] && t.hold == [] && t.p2m == s.p2m + s.hold && !Pending(t.u)
      && |t.u.eng.procs| == |s.u.eng.procs|
      && forall k | 0 <= k < |s.u.eng.procs| ::
           Released(s.u.eng.procs[k], t.u.eng.procs[k]) && !t.u.eng.procs[k].flags.hold
  {
    var m := AtPolicy(s);
    CompleteInv(s.u);
    hide Released;
    hide FlowOf;
    hide Progress;
  }

  // ------------------------------------------------------------------ messages of the master

  lemma {:induction false} ReleaseOk(u: Upg, k: nat)
    requires k <= |u.eng.procs|
    ensures Release(u, k).ok == u.ok
    decreases |u.eng.procs| - k
  {
    if k < |u.eng.procs| {
      if u.eng.procs[k].flags.hold {
        var v := Upgrade.Put(u, SetFlags(u.eng.procs, k, u.eng.procs[k].flags.(hold := false)));
        ReleaseOk(Start(v, Some(k)), k + 1);
      } else {
        ReleaseOk(u, k + 1);
      }
    }
  }

  lemma EndOk(u: Upg, parent: bool, at: Option<nat>)
    requires at.Some? ==> at.value < |u.eng.procs|
    ensures EndParent(u, parent).ok == u.ok && Start(u, at).ok == u.ok
    ensures at.Some? ==> End(u, at.value).ok == u.ok
  {
    hide Prune;
  }

  lemma ExitOk(u: Upg, cookie: nat)
    ensures Exit(u, cookie).ok == u.ok
  {
    hide EndParent;
    hide Processes.Find;
    hide Processes.ExitProc;
    var at := Processes.Find(u.eng.procs, cookie);
    if at.Some? {
      EndOk(Upgrade.Put(u, Processes.ExitProc(u.eng.procs, cookie)), u.eng.procs[at.value].flags.parent, None);
    }
  }

  lemma ProcessOk(u: Upg, e: Processes.Event, trigger: bool, env: Contexts.Env)
    ensures ProcessEvent(u, e, trigger, env).ok == u.ok
  {
    hide Exit;
    hide Start;
    hide Processes.Step;
    hide Processes.Find;
    hide Processes.AddInstance;
    match e {
      case ExitEv(cookie) => ExitOk(u, cookie);
      case ReplaceEv(gains, loses) => ExitOk(Upgrade.Put(u, Processes.AddInstance(u.eng.procs, gains)), loses);
      case ExecEv(cookie, _, _, _, _) =>
        var v := u.(eng := Processes.Step(u.eng, e, env));
        EndOk(v, false, Processes.Find(v.eng.procs, cookie));
      case _ =>
    }
  }

  lemma ThreadOk(u: Upg, cookie: nat)
    ensures ThreadAdded(u, cookie).ok == u.ok && ThreadRemoved(u, cookie).ok == u.ok
  {
    hide End;
    hide Processes.Find;
    var at := Processes.Find(u.eng.procs, cookie);
    if at.Some? {
      EndOk(SetThreads(u.(tracking := true), at.value, u.eng.procs[at.value].threads - 1), false, at);
    }
  }

  /** No kernel event changes whether upgrades may start. */
  lemma HandleOk(u: Upg, e: KEvent, env: Contexts.Env)
    ensures Handle(u, e, env).ok == u.ok
  {
    hide ProcessEvent;
    hide ThreadAdded;
    hide ThreadRemoved;
    hide Start;
    hide End;
    hide Processes.Step;
    hide Processes.Find;
    var v := u.(started := false);
    match e {
      case Process(event, trigger) => ProcessOk(v, event, trigger, env);
      case AddThread(cookie) => ThreadOk(v, cookie);
      case RemoveThread(cookie) => ThreadOk(v, cookie);
      case FileAccess(_, _, _, _, _, _) =>
      case PathEvent(_, cookie, _, _) => EndOk(v, false, Processes.Find(v.eng.procs, cookie));
    }
  }

  /**
   * Whether upgrades may start is what the master said last. A new policy is in force at once, for every
   * context of every process, and leaves no cached checksum.
   */
  lemma MasterSays(s: Sys, env: Contexts.Env)
    requires s.m2p != []
    ensures var m := s.m2p[0]; var t := Next(s, PolicyReads(env));
      && t.u.ok == (if m.OkMsg? then m.value else s.u.ok)
      && (m.ConfigMsg? ==>
            && t.cache == [] && t.u.eng.db == m.db && |t.u.eng.procs| == |s.u.eng.procs|
            && forall k | 0 <= k < |s.u.eng.procs| ::
                 Effects.AllRefreshed(s.u.eng.procs[k], t.u.eng.procs[k], m.db, env))
  {
    var m := s.m2p[0];
    match m {
      case KernelMsg(event, _, _) => HandleOk(s.u, event, env);
      case EndMsg => ReleaseOk(s.u.(tree := None, iter := None), 0);
      case ConfigMsg(db) =>
        HandleOk(s.u, Process(Processes.ReconfigureEv(db), false), env);
        Effects.ReconfigureEffect(s.u.eng, Processes.ReconfigureEv(db), env);
      case _ =>
    }
    hide Effects.AllRefreshed;
    hide Processes.Step;
    hide Release;
    hide Fill;
    hide OnHold;
    hide ErrorOf;
  }
}

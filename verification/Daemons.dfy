/**
 * The message handlers of policy engine, master and upgrade process as they run: queues
 * and state are changed in place (policy.c, main.c, upgrade.c). One call handles one
 * message; every handler is proved against the step of Pipeline.dfy.
 */
module Daemons {
  import opened Basics
  import Contexts
  import Policy
  import opened Processes
  import opened Upgrade
  import opened SfsCache
  import opened Pipeline
  import opened UpgradeEngine
  import Completion
  import UpgradeEvents

  lemma SplitNone()
    ensures Split([]) == []
  {
  }

  lemma SplitStep(chunk: Bytes, pos: nat, n: nat)
    requires pos + n < |chunk| && n == NulAt(chunk[pos..])
    ensures Split(chunk[pos..]) == [chunk[pos..pos + n]] + Split(chunk[pos + n + 1..])
  {
    hide NulAt;
    var rest := chunk[pos..];
    assert rest != [] && n < |rest|;
    assert rest[..n] == chunk[pos..pos + n];
    assert rest[n + 1..] == chunk[pos + n + 1..];
  }

  /** strlen of the string at a position; the chunk ends in a NUL byte. */
  method StrLen(chunk: Bytes, pos: nat) returns (n: nat)
    requires pos < |chunk| && chunk[|chunk| - 1] == 0
    ensures pos + n < |chunk| && n == NulAt(chunk[pos..])
  {
    n := 0;
    while chunk[pos + n] != 0
      invariant pos + n < |chunk|
      invariant NulAt(chunk[pos..]) == n + NulAt(chunk[pos + n..])
      decreases |chunk| - n
    {
      assert chunk[pos + n..][1..] == chunk[pos + n + 1..];
      n := n + 1;
    }
  }

  /** The number of checksum updates in a queue */
  function UpdatesIn(q: seq<Msg>): nat {
    if q == [] then 0 else UpdatesIn(q[..|q| - 1]) + if q[|q| - 1].UpdateAll? then 1 else 0
  }

  lemma UpdatesPush(q: seq<Msg>, m: Msg)
    ensures UpdatesIn(q + [m]) == UpdatesIn(q) + if m.UpdateAll? then 1 else 0
  {
    assert (q + [m])[..|q|] == q;
  }

  lemma {:induction false} UpdatesHead(q: seq<Msg>)
    requires q != []
    ensures UpdatesIn(q) == UpdatesIn(q[1..]) + if q[0].UpdateAll? then 1 else 0
    decreases |q|
  {
    if |q| == 1 {
      assert q[..0] == [] && q[1..] == [];
    } else {
      var n := |q| - 1;
      UpdatesHead(q[..n]);
      assert q[..n][1..] == q[1..][..n - 1];
    }
  }

  lemma UpdateStep(s: Sys, after: Disk)
    requires s.u2m != []
    ensures Next(s, MasterReadsUpgrade(after)) == MasterUpdates(s.(u2m := s.u2m[1..]), s.u2m[0], after)
  {
    hide MasterUpdates;
  }

  /** Nothing follows the END message of the upgrade process. */
  lemma EndIsLast(s: Sys)
    requires SysInv(s) && s.u2m != []
    ensures s.u2m[0].EndMsg? ==> s.u2m[1..] == [] && UpdatesIn(s.u2m[1..]) == 0
  {
    var m := Completion.AtMaster(s);
  }

  class Daemons {
    /** The policy engine's state and its checksum cache */
    const engine: PolicyProcess
    const sfshash: SfsHash
    /** eventq_p2m_hold and the queues between the processes */
    var hold: seq<Msg>
    var p2m: seq<Msg>
    var m2u: seq<Msg>
    var u2m: seq<Msg>
    var m2p: seq<Msg>
    var dev: seq<Msg>
    /** The SFS tree, which only the master writes */
    var disk: Disk
    /** upgraded_files, and the numbers of files that clients were notified about */
    var upgradedFiles: nat
    var notified: seq<nat>
    /** The paths that were taken out of chunks since the last START */
    ghost var listed: seq<Path>
    /** The paths for which the upgrade process has sent an update since the last END was relayed */
    ghost var updates: seq<Path>

    /** The daemons have started. */
    constructor (db: Policy.Db, disk: Disk)
      ensures Valid() && Value() == Init(db, disk)
      ensures fresh(engine) && fresh(sfshash) && fresh(sfshash.tab)
    {
      engine := new PolicyProcess(Engine([], db));
      sfshash := new SfsHash();
      this.disk := disk;
      hold, p2m, m2u, u2m, m2p, dev, listed := [], [], [], [], [], [], [];
      upgradedFiles, notified, updates := 0, [], [];
      new;
      InitInv(db, disk);
      hide SysInv;
    }

    ghost function Value(): Sys
      reads this, engine, sfshash
    {
      Sys(engine.State(), sfshash.Contents(), hold, p2m, m2u, u2m, m2p, dev, disk, listed)
    }

    ghost predicate Valid()
      reads this, engine, sfshash, sfshash.tab
    {
      sfshash.Valid() && SysInv(Value()) && Counted()
    }

    /** Every update is either counted or still on its way. */
    ghost predicate Counted()
      reads `upgradedFiles, `u2m, `updates
    {
      upgradedFiles + UpdatesIn(u2m) == |updates|
    }

    // ------------------------------------------------------------ the policy engine

    /** The end of dispatch_m2p: the reply is queued, or held back. */
    method QueueReply(e: KEvent, token: nat, answer: Option<bv32>, refused: bool)
      modifies `p2m, `hold
      ensures Value() == Answered(old(Value()), e, token, answer, refused)
    {
      match e {
        case FileAccess(_, _, _, _, _, _) =>
          if answer.Some? {
            p2m := p2m + [Reply(token, answer.value)];
          }
        case PathEvent(op, cookie, uid, mode) =>
          var error: bv32 := 0;
          if op.LinkOrRename? {
            if answer.Some? {
              error := answer.value;
            }
          } else if op.Lock? && uid == 0 && (mode.StrictLock? || mode.LooseLock?) && refused {
            error := EPERM;
          }
          var p := Processes.Get(engine.eng.procs, cookie);
          if p.Some? && p.value.flags.hold {
            hold := hold + [Reply(token, error)];
          } else {
            p2m := p2m + [Reply(token, error)];
          }
        case _ =>
      }
    }

    /** A kernel event in dispatch_m2p; answer is what the rules say if the event needs a reply now. */
    method HandleKernel(e: KEvent, token: nat, answer: Option<bv32>, env: Contexts.Env)
      modifies `p2m, `hold, `listed, engine
      ensures Value() == KernelEvent(old(Value()), e, token, answer, env)
    {
      hide Handle;
      hide Answered;
      hide Upgrade.Inv;
      hide UpgradeEvents.Effect;
      var refused := !engine.ok && engine.counter == 0;
      engine.HandleEvent(e, env);
      if engine.started {
        p2m := p2m + [StartMsg];
        listed := [];
      } else {
        assert p2m + [] == p2m;
      }
      QueueReply(e, token, answer, refused);
    }

    /** dispatch_upgrade of the policy engine: the next chunk */
    method SendChunk()
      requires var u := engine.State(); u.iter.Some? && u.tree.Some? ==> u.iter.value < |u.tree.value|
      modifies `p2m, engine
      ensures var s := old(Value()); var (data, iter) := Fill(s.u);
        Value() == s.(u := s.u.(iter := iter), p2m := s.p2m + [ChunkMsg(data)])
    {
      hide Fill;
      var data := engine.FillChunk();
      p2m := p2m + [ChunkMsg(data)];
    }

    /** dispatch_upgrade of the policy engine: the upgrade is finished and the hold queue is released. */
    method FinishUpgrade()
      requires sfshash.Valid()
      modifies `p2m, `hold, engine, sfshash, sfshash.tab
      ensures sfshash.Valid()
      ensures var s := old(Value());
        Value() == s.(u := Complete(s.u), cache := [], p2m := s.p2m + s.hold, hold := [])
    {
      hide Complete;
      hide SfsHash.Valid;
      hide SfsHash.Contents;
      hide PolicyProcess.State;
      engine.CompleteUpgrade();
      sfshash.Flush();
      while hold != []
        invariant sfshash.Valid() && p2m + hold == old(p2m) + old(hold)
        invariant Value() == old(Value()).(u := Complete(old(Value()).u), cache := [], p2m := p2m, hold := hold)
        decreases |hold|
      {
        var m := hold[0];
        assert p2m + hold == (p2m + [m]) + hold[1..];
        hold := hold[1..];
        p2m := p2m + [m];
      }
      assert p2m + [] == p2m;
    }

    /** The body of the loop of dispatch_m2p */
    method HandleM2P(m: Msg, env: Contexts.Env)
      requires sfshash.Valid()
      requires var u := engine.State(); u.iter.Some? && u.tree.Some? ==> u.iter.value < |u.tree.value|
      modifies `p2m, `hold, `listed, engine, sfshash, sfshash.tab
      ensures sfshash.Valid() && Value() == PolicyHandles(old(Value()), m, env)
    {
      hide KernelEvent;
      hide Invalidate;
      hide Fill;
      hide Complete;
      hide Handle;
      hide SfsHash.Valid;
      hide SfsHash.Contents;
      hide PolicyProcess.State;
      match m {
        case KernelMsg(event, token, answer) => HandleKernel(event, token, answer, env);
        case InvalidateMsg(path, who) => sfshash.InvalidateEntry(path, who);
        case ChunkReq => SendChunk();
        case EndMsg => FinishUpgrade();
        case OkMsg(value) => engine.SetUpgradeOk(value);
        case ConfigMsg(db) =>
          engine.HandleEvent(Process(ReconfigureEv(db), false), env);
          sfshash.Flush();
        case _ =>
      }
    }

    /** One message of dispatch_m2p */
    method DispatchM2P(env: Contexts.Env)
      requires Valid() && m2p != []
      modifies this, engine, sfshash, sfshash.tab
      ensures sfshash.Valid() && Value() == Next(old(Value()), PolicyReads(env))
      ensures Valid() <==> !LosesCount(old(Value()), PolicyReads(env))
    {
      hide SysInv;
      hide Counted;
      hide Next;
      hide LosesCount;
      hide PolicyHandles;
      hide SfsHash.Valid;
      hide SfsHash.Contents;
      hide PolicyProcess.State;
      ghost var before := Value();
      NextInv(before, PolicyReads(env));
      IterInTree(before);
      PolicyStep(before, env);
      var m := m2p[0];
      m2p := m2p[1..];
      HandleM2P(m, env);
    }

    /** A request for a checksum: within the invariant its answer is the truth about the disk. */
    method LookupChecksum(path: Path, who: Who, fails: bool) returns (r: Answer)
      requires Valid()
      modifies sfshash, sfshash.tab
      ensures Valid() && Value() == Next(old(Value()), Lookup(path, who, fails))
      ensures Invalidated(m2p, path, who) || Upgraded(engine.State(), path)
              || r == Truth(disk, path, who) || (fails && r == Error)
      ensures Invalidated(m2p, path, who) || Upgraded(engine.State(), path)
              || DiskSays(disk, path, who, r) || (fails && r == Error)
    {
      hide SysInv;
      hide SfsHash.Valid;
      hide Fetch;
      hide Truth;
      hide LosesCount;
      hide Invalidated;
      hide Upgraded;
      ghost var before := Value();
      NextInv(before, Lookup(path, who, fails));
      NoLoss(before, Lookup(path, who, fails));
      if !Invalidated(m2p, path, who) && !Upgraded(engine.State(), path) {
        CacheIsTransparent(before, path, who, fails);
      }
      r := sfshash.Get(path, who, if fails then Failed else DiskAnswerFor(disk, path, who));
      TruthOfDisk(disk, path, who, r);
    }

    // ------------------------------------------------------------ the master

    /** One message of dispatch_p2m */
    method DispatchP2M()
      requires Valid() && p2m != []
      modifies this
      ensures Valid() && Value() == Next(old(Value()), MasterReadsPolicy)
    {
      hide SysInv;
      hide LosesCount;
      hide SfsHash.Valid;
      hide PolicyProcess.State;
      hide SfsHash.Contents;
      NextInv(Value(), MasterReadsPolicy);
      NoLoss(Value(), MasterReadsPolicy);
      var m := p2m[0];
      p2m := p2m[1..];
      match m {
        case Reply(_, _) => dev := dev + [m];
        case StartMsg => m2u := m2u + [m];
        case ChunkMsg(_) => m2u := m2u + [m];
        case _ =>
      }
    }

    /** The body of the loop of dispatch_u2m */
    method HandleU2M(m: Msg, after: Disk)
      requires m.UpdateAll? ==> OnlyAt(disk, after, m.path)
      modifies `disk, `m2p, `upgradedFiles, `notified, `updates
      ensures Value() == MasterUpdates(old(Value()), m, after)
      ensures m.EndMsg? ==> notified == old(notified) + [old(upgradedFiles)] && upgradedFiles == 0 && updates == []
      ensures !m.EndMsg? ==> notified == old(notified) && updates == old(updates)
                             && upgradedFiles == old(upgradedFiles) + if m.UpdateAll? then 1 else 0
    {
      hide OnlyAt;
      hide SfsHash.Contents;
      hide PolicyProcess.State;
      match m {
        case UpdateAll(path) =>
          disk := after;
          upgradedFiles := upgradedFiles + 1;
        case ChunkReq => m2p := m2p + [m];
        case EndMsg =>
          notified := notified + [upgradedFiles];
          upgradedFiles := 0;
          updates := [];
          m2p := m2p + [m];
        case _ =>
      }
    }

    /**
     * One message of dispatch_u2m; after is the disk after an update of the checksums of a
     * file. At the end clients are told the number of updates that the upgrade process sent.
     */
    method DispatchU2M(after: Disk)
      requires Valid() && u2m != []
      requires u2m[0].UpdateAll? ==> OnlyAt(disk, after, u2m[0].path)
      modifies this
      ensures Valid() && Value() == Next(old(Value()), MasterReadsUpgrade(after))
      ensures old(u2m[0].EndMsg?) ==> notified == old(notified) + [|old(updates)|] && updates == []
      ensures !old(u2m[0].EndMsg?) ==> notified == old(notified) && updates == old(updates)
    {
      hide SysInv;
      hide LosesCount;
      hide Next;
      hide MasterUpdates;
      hide SfsHash.Valid;
      hide PolicyProcess.State;
      hide SfsHash.Contents;
      hide UpdatesIn;
      hide OnlyAt;
      ghost var before := Value();
      NextInv(before, MasterReadsUpgrade(after));
      NoLoss(before, MasterReadsUpgrade(after));
      UpdateStep(before, after);
      var m := u2m[0];
      EndIsLast(before);
      UpdatesHead(u2m);
      u2m := u2m[1..];
      HandleU2M(m, after);
    }

    /** The part of dispatch_checksumop that changes the SFS tree: the invalidation follows the change. */
    method DispatchChecksumOp(op: CsumOp)
      requires Valid()
      modifies this
      ensures Valid() && Value() == Next(old(Value()), Session(op))
    {
      hide SysInv;
      hide LosesCount;
      hide SfsHash.Valid;
      hide PolicyProcess.State;
      hide SfsHash.Contents;
      NextInv(Value(), Session(op));
      NoLoss(Value(), Session(op));
      hide Apply;
      disk := Apply(disk, op);
      match op {
        case AddSum(path, uid, _) => m2p := m2p + [InvalidateMsg(path, ByUid(uid))];
        case DelSum(path, uid) => m2p := m2p + [InvalidateMsg(path, ByUid(uid))];
        case AddSig(path, keyid, _) => m2p := m2p + [InvalidateMsg(path, ByKey(Hex(keyid)))];
        case DelSig(path, keyid) => m2p := m2p + [InvalidateMsg(path, ByKey(Hex(keyid)))];
      }
    }

    // ------------------------------------------------------------ the upgrade process

    /** The loop of dispatch_upgrade of the upgrade process over the paths of a chunk */
    method SendChecksums(chunk: Bytes, readable: set<Path>)
      requires chunk != [] && chunk[|chunk| - 1] == 0
      modifies `u2m, `listed, `updates
      ensures u2m == old(u2m) + Checksums(Split(chunk), readable) && listed == old(listed) + Split(chunk)
      ensures old(Counted()) ==> Counted()
    {
      hide Split;
      hide NulAt;
      hide Checksums;
      hide UpdatesIn;
      var pos := 0;
      assert chunk[0..] == chunk;
      ghost var all := Split(chunk);
      while pos < |chunk|
        invariant pos <= |chunk|
        invariant u2m + Checksums(Split(chunk[pos..]), readable) == old(u2m) + Checksums(all, readable)
        invariant listed + Split(chunk[pos..]) == old(listed) + all
        invariant old(Counted()) ==> Counted()
      {
        var n := StrLen(chunk, pos);
        SplitStep(chunk, pos, n);
        ghost var rest := Split(chunk[pos + n + 1..]);
        var path := chunk[pos..pos + n];
        FirstChecksum(path, rest, readable);
        assert listed + ([path] + rest) == (listed + [path]) + rest;
        assert u2m + ([UpdateAll(path)] + Checksums(rest, readable))
               == (u2m + [UpdateAll(path)]) + Checksums(rest, readable);
        if path in readable {
          UpdatesPush(u2m, UpdateAll(path));
          u2m := u2m + [UpdateAll(path)];
          updates := updates + [path];
        }
        listed := listed + [path];
        pos := pos + n + 1;
      }
      SplitNone();
      NoChecksum(readable);
      assert chunk[pos..] == [] && u2m + [] == u2m && listed + [] == listed;
    }

    /** One message of dispatch_m2u */
    method DispatchM2U(readable: set<Path>)
      requires Valid() && m2u != []
      modifies this
      ensures Valid() && Value() == Next(old(Value()), UpgradeReads(readable))
    {
      hide SysInv;
      hide LosesCount;
      hide SfsHash.Valid;
      hide PolicyProcess.State;
      hide SfsHash.Contents;
      hide UpdatesIn;
      NextInv(Value(), UpgradeReads(readable));
      NoLoss(Value(), UpgradeReads(readable));
      hide Split;
      hide Checksums;
      var m := m2u[0];
      m2u := m2u[1..];
      match m {
        case StartMsg =>
          UpdatesPush(u2m, ChunkReq);
          u2m := u2m + [ChunkReq];
        case ChunkMsg(data) =>
          if data == [] {
            UpdatesPush(u2m, EndMsg);
            u2m := u2m + [EndMsg];
          } else {
            SendChecksums(data[|data| - 1 := 0], readable);
            UpdatesPush(u2m, ChunkReq);
            u2m := u2m + [ChunkReq];
          }
        case _ =>
      }
    }
  }

  /** Only the handling of a kernel event can lose the count. */
  lemma NoLoss(s: Sys, a: Action)
    requires !a.PolicyReads?
    ensures !LosesCount(s, a)
  {
  }

  lemma IterInTree(s: Sys)
    requires SysInv(s)
    ensures s.u.iter.Some? ==> s.u.tree.Some? && s.u.iter.value < |s.u.tree.value|
  {
  }

  lemma FirstChecksum(path: Path, rest: seq<Path>, readable: set<Path>)
    ensures Checksums([path] + rest, readable)
         == (if path in readable then [UpdateAll(path)] else []) + Checksums(rest, readable)
  {
    assert ([path] + rest)[1..] == rest;
  }

  lemma NoChecksum(readable: set<Path>)
    ensures Checksums([], readable) == []
  {
  }
}

/**
 * Runs from the start of the daemons in which the promises of an upgrade are not kept: a
 * lock of an unknown process, and a path that does not fit into a chunk.
 */
module Witnesses {
  import opened Basics
  import Policy
  import opened Contexts
  import opened Processes
  import opened Upgrade
  import FileTree
  import opened SfsCache
  import opened Pipeline

  const NO_ENV := Contexts.Env(map[], map[], map[])

  const FRESH := Upg(Engine([], []), false, None, 0, None, true, false)

  /** A lock event of root for a process that is not tracked */
  const STRAY_LOCK := PathEvent(Lock, 7, 0, StrictLock)

  /** The first event after the start may already be counted as an upgrade that never ends. */
  lemma StrayLockIsLost()
    ensures Upgrade.Inv(FRESH) && Lost(FRESH, STRAY_LOCK)
    ensures Stuck(Handle(FRESH, STRAY_LOCK, NO_ENV)) && !Upgrade.Inv(Handle(FRESH, STRAY_LOCK, NO_ENV))
  {
    LostIsStuck(FRESH, STRAY_LOCK, NO_ENV);
    HandleInv(FRESH, STRAY_LOCK, NO_ENV);
  }

  // ------------------------------------------------------------------ a path that does not fit

  function Updater(flags: Flags): Proc {
    Proc(5, 0, 0, NO_IDENT, 1, 0, flags, [NO_CTX, NO_CTX])
  }

  const MARKED := Flags(true, true, false, false)

  function LongPath(): (r: CString)
    ensures |r| == PATH_MAX
  {
    seq(PATH_MAX, _ => 47)
  }

  /** An update program is started, writes one file with a checksum and exits. */
  function Events(): seq<KEvent> {
    [Process(ExecEv(5, 0, NO_IDENT, 0, false), true),
     FileAccess(5, 0, NO_IDENT, Some(LongPath()), true, true),
     Process(ExitEv(5), false)]
  }

  const RUNNING := Upg(Engine([Updater(MARKED)], []), false, Some([]), 1, None, true, false)

  lemma OneProcess(p: Proc)
    ensures Find([p], p.cookie) == Some(0) && Get([p], p.cookie) == Some(p)
    ensures forall q: Proc :: Processes.Put([p], p.cookie, q) == [q]
  {
    FindAppended([], p);
    assert [] + [p] == [p];
  }

  /** Without a policy an exec leaves a process without contexts. */
  lemma ExecWithoutPolicy(p: Proc, e: Event)
    requires e == ExecEv(5, 0, NO_IDENT, 0, false) && p == NewProc(0, 5, NO_IDENT, 0)
    ensures ExecProc(p, [], 0, NO_IDENT, false, NO_ENV) == p
  {
    assert Policy.GetRuleset([], 0, 0) == None && Policy.GetRuleset([], 0, 1) == None;
    var q := ContextExec(p.(ident := NO_IDENT), [], 0, NO_IDENT, NO_ENV);
    assert q.prio == [NO_CTX, NO_CTX];
  }

  lemma ExecTracks(e: Event)
    requires e == ExecEv(5, 0, NO_IDENT, 0, false)
    ensures Step(FRESH.eng, e, NO_ENV) == Engine([Updater(NO_FLAGS)], [])
  {
    hide ExecProc;
    hide Find;
    hide Processes.Put;
    var p := NewProc(0, 5, NO_IDENT, 0);
    ExecWithoutPolicy(p, e);
    NoProcess();
    OneProcess(p);
    assert [] + [p] == [p];
  }

  lemma NoProcess()
    ensures Find([], 5) == None
  {
  }

  lemma ExecStarts()
    ensures Handle(FRESH, Events()[0], NO_ENV) == RUNNING
  {
    hide Step;
    hide Find;
    ExecTracks(ExecEv(5, 0, NO_IDENT, 0, false));
    OneProcess(Updater(NO_FLAGS));
  }

  const WRITTEN := RUNNING.(tree := Some([FileTree.Node(LongPath(), 0)]))

  lemma AccessIsRecorded()
    ensures Handle(RUNNING, Events()[1], NO_ENV) == WRITTEN
  {
    hide Find;
    OneProcess(Updater(MARKED));
    assert Step(RUNNING.eng, OpenEv(5, 0, NO_IDENT), NO_ENV) == RUNNING.eng;
    hide Step;
    assert FileTree.Insert([], LongPath(), 0) == [FileTree.Node(LongPath(), 0)];
  }

  /** The upgrade has ended; the tree holds the one path. */
  const ENDED := Upg(Engine([], []), false, WRITTEN.tree, 0, Some(0), true, true)

  lemma ExitEnds()
    ensures Handle(WRITTEN, Events()[2], NO_ENV) == ENDED
  {
    hide Find;
    OneProcess(Updater(MARKED));
    var n := FileTree.Node(LongPath(), 0);
    assert [n][..0] == [];
    assert Prune([n], [], false) == [n];
    assert ClearMarks([]) == [];
  }

  /** A state of the daemons without cache, replies and checksums */
  function At(u: Upg, p2m: seq<Msg>, m2u: seq<Msg>, u2m: seq<Msg>, m2p: seq<Msg>): Sys {
    Sys(u, [], [], p2m, m2u, u2m, m2p, [], map[], [])
  }

  /** An event without an answer is reported and handled. */
  lemma Reported(u: Upg, v: Upg, e: KEvent)
    requires Handle(u, e, NO_ENV) == v && (e.Process? || e.FileAccess?)
    ensures Next(Next(At(u, [], [], [], []), Device(e, 0, None)), PolicyReads(NO_ENV))
         == At(v, if v.started then [StartMsg] else [], [], [], [])
  {
    hide Handle;
    var s := Next(At(u, [], [], [], []), Device(e, 0, None));
    var m := KernelMsg(e, 0, None);
    assert s == At(u, [], [], [], [m]);
    assert [m][1..] == [] && [] + [StartMsg] == [StartMsg];
    PolicyStep(s, NO_ENV);
  }

  lemma Relayed(u: Upg, m: Msg)
    requires FromPolicy(m)
    ensures Next(At(u, [m], [], [], []), MasterReadsPolicy) == At(u, [], [m], [], [])
  {
    assert [m][1..] == [] && [] + [m] == [m];
  }

  lemma Requested(u: Upg)
    ensures Next(At(u, [], [StartMsg], [], []), UpgradeReads({})) == At(u, [], [], [ChunkReq], [])
    ensures Next(At(u, [], [], [ChunkReq], []), MasterReadsUpgrade(map[])) == At(u, [], [], [], [ChunkReq])
    ensures Next(At(u, [], [ChunkMsg([])], [], []), UpgradeReads({})) == At(u, [], [], [EndMsg], [])
  {
    assert [StartMsg][1..] == [] && [ChunkReq][1..] == [] && [ChunkMsg([])][1..] == [];
    assert [] + [ChunkReq] == [ChunkReq] && [] + [EndMsg] == [EndMsg];
  }

  lemma NothingFits()
    ensures Fill(ENDED) == ([], Some(0))
  {
  }

  lemma Refused()
    ensures Next(At(ENDED, [], [], [], [ChunkReq]), PolicyReads(NO_ENV)) == At(ENDED, [ChunkMsg([])], [], [], [])
  {
    hide Fill;
    NothingFits();
    var s := At(ENDED, [], [], [], [ChunkReq]);
    assert [ChunkReq][1..] == [] && [] + [ChunkMsg([])] == [ChunkMsg([])];
    PolicyStep(s, NO_ENV);
    assert ENDED.(iter := Some(0)) == ENDED;
  }

  lemma OneMore(s: Sys, actions: seq<Action>, a: Action)
    ensures Pipeline.Run(s, actions + [a]) == Next(Pipeline.Run(s, actions), a)
  {
    assert (actions + [a])[..|actions|] == actions;
  }

  lemma TwoMore(s: Sys, actions: seq<Action>, a: Action, b: Action)
    ensures Pipeline.Run(s, actions + [a] + [b]) == Next(Next(Pipeline.Run(s, actions), a), b)
  {
    OneMore(s, actions, a);
    OneMore(s, actions + [a], b);
  }

  /** The three events up to the START message */
  lemma UpgradeEnds() returns (actions: seq<Action>)
    ensures Pipeline.Run(Init([], map[]), actions) == At(ENDED, [StartMsg], [], [], [])
  {
    hide Next;
    hide Handle;
    hide Pipeline.Run;
    var s, e := Init([], map[]), Events();
    ExecStarts();
    AccessIsRecorded();
    ExitEnds();
    Reported(FRESH, RUNNING, e[0]);
    Reported(RUNNING, WRITTEN, e[1]);
    Reported(WRITTEN, ENDED, e[2]);
    var a := [Device(e[0], 0, None), PolicyReads(NO_ENV)];
    assert a == [] + [a[0]] + [a[1]];
    NoActions(s);
    TwoMore(s, [], Device(e[0], 0, None), PolicyReads(NO_ENV));
    var b := a + [Device(e[1], 0, None)] + [PolicyReads(NO_ENV)];
    TwoMore(s, a, Device(e[1], 0, None), PolicyReads(NO_ENV));
    actions := b + [Device(e[2], 0, None)] + [PolicyReads(NO_ENV)];
    TwoMore(s, b, Device(e[2], 0, None), PolicyReads(NO_ENV));
  }

  lemma NoActions(s: Sys)
    ensures Pipeline.Run(s, []) == s
  {
  }

  /** The end of the upgrade is reported in a reachable state, but its one file was never listed. */
  lemma LongPathIsDropped()
    ensures exists actions ::
              var s := Pipeline.Run(Init([], map[]), actions);
              && Pending(s.u) && FlowOf(s, EndMsg)
              && s.listed == [] && FileTree.Paths(s.u.tree.value) == [LongPath()]
  {
    hide Next;
    hide Pipeline.Run;
    hide FlowOf;
    var a := UpgradeEnds();
    var s := Init([], map[]);
    Relayed(ENDED, StartMsg);
    Requested(ENDED);
    Refused();
    Relayed(ENDED, ChunkMsg([]));
    var b := a + [MasterReadsPolicy] + [UpgradeReads({})];
    TwoMore(s, a, MasterReadsPolicy, UpgradeReads({}));
    var c := b + [MasterReadsUpgrade(map[])] + [PolicyReads(NO_ENV)];
    TwoMore(s, b, MasterReadsUpgrade(map[]), PolicyReads(NO_ENV));
    var d := c + [MasterReadsPolicy] + [UpgradeReads({})];
    TwoMore(s, c, MasterReadsPolicy, UpgradeReads({}));
    assert Pipeline.Run(s, d) == At(ENDED, [], [], [EndMsg], []);
    AtTheEnd();
  }

  lemma AtTheEnd()
    ensures var s := At(ENDED, [], [], [EndMsg], []);
      Pending(s.u) && FlowOf(s, EndMsg) && s.listed == [] && FileTree.Paths(s.u.tree.value) == [LongPath()]
  {
    var s := At(ENDED, [], [], [EndMsg], []);
    assert s.u2m[..0] == [];
  }
}

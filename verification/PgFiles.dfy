/**
 * Names of playground files: the files that store them and the lists that are sent
 * to users (pe_playground.c, amsg_list.c).
 */
module PgFiles {
  import opened Basics

  // ------------------------------------------------------------------ names in a file

  /** The bytes behind the last NUL byte */
  function Tail(b: Bytes): (r: Bytes)
    ensures 0 !in r && |r| <= |b|
  {
    if b == [] || b[|b| - 1] == 0 then [] else Tail(b[..|b| - 1]) + [b[|b| - 1]]
  }

  /** The names that end in a NUL byte */
  function Names(b: Bytes): (r: seq<Bytes>)
    ensures forall n: Bytes | n in r :: (0 as byte) !in n
  {
    if b == [] then []
    else
      var rest := b[..|b| - 1];
      if b[|b| - 1] == 0 then Names(rest) + [Tail(rest)] else Names(rest)
  }

  lemma Push(b: Bytes, c: byte)
    ensures Tail(b + [c]) == if c == 0 then [] else Tail(b) + [c]
    ensures Names(b + [c]) == if c == 0 then Names(b) + [Tail(b)] else Names(b)
  {
    assert (b + [c])[..|b|] == b;
  }

  /** Bytes without a NUL byte belong to the name that has begun. */
  lemma {:induction false} PushAll(b: Bytes, s: Bytes)
    requires 0 !in s
    ensures Tail(b + s) == Tail(b) + s && Names(b + s) == Names(b)
  {
    hide Tail;
    hide Names;
    if s == [] {
      assert b + s == b && Tail(b) + s == Tail(b);
    } else {
      var n := |s| - 1;
      var init, c := s[..n], s[n];
      assert s == init + [c] && c in s;
      PushAll(b, init);
      Push(b + init, c);
      assert b + s == (b + init) + [c] && Tail(b) + s == (Tail(b) + init) + [c];
    }
  }

  // ------------------------------------------------------------------ adding a name

  /** The file after pe_playground_file_add */
  function Added(b: Bytes, path: CString): Bytes {
    if path in Names(b) then b else b + (if Tail(b) == [] then [] else [0]) + path + [0]
  }

  /** Earlier names stay, in order; the name is there exactly if it was there or is now the last one. */
  lemma AddedNames(b: Bytes, path: CString)
    ensures path in Names(Added(b, path))
    ensures Names(Added(b, path)) ==
            if path in Names(b) then Names(b)
            else Names(b) + (if Tail(b) == [] then [] else [Tail(b)]) + [path]
    ensures path !in Names(b) ==> Tail(Added(b, path)) == []
  {
    hide Names;
    hide Tail;
    if path !in Names(b) {
      var c := b + if Tail(b) == [] then [] else [0];
      if Tail(b) == [] {
        assert c == b;
      } else {
        Push(b, 0);
      }
      assert Tail(c) == [] && Names(c) == Names(b) + if Tail(b) == [] then [] else [Tail(b)];
      PushAll(c, path);
      assert [] + path == path;
      Push(c + path, 0);
    }
  }

  /** Adding a name twice is adding it once. */
  lemma AddedTwice(b: Bytes, path: CString)
    ensures Added(Added(b, path), path) == Added(b, path)
  {
    AddedNames(b, path);
  }

  /** The size of a read of at most max bytes; the kernel decides how many it delivers. */
  function ReadSize(wish: nat, max: nat, left: nat): (r: nat)
    requires max > 0
    ensures r <= max && r <= left && (left > 0 ==> r > 0)
  {
    var n := if wish == 0 then 1 else wish;
    var m := if n < max then n else max;
    if m < left then m else left
  }

  const BUF_SIZE: nat := 512

  /** A byte of a C string; the byte at its end is NUL. */
  function CharAt(path: CString, k: nat): byte
    requires k <= |path|
  {
    if k == |path| then 0 else path[k]
  }

  /** What the comparison knows after the bytes b: the length of the match, or -1. */
  ghost predicate Comparing(b: Bytes, path: CString, pathoff: int) {
    && -1 <= pathoff <= |path|
    && path !in Names(b)
    && (if pathoff >= 0 then Tail(b) == path[..pathoff] else Tail(b) != [] && !(Tail(b) <= path))
  }

  /** One byte of the loop of pe_playground_file_add */
  method CompareByte(ghost b: Bytes, path: CString, pathoff: int, c: byte) returns (next: int, found: bool)
    requires Comparing(b, path, pathoff)
    ensures found ==> path in Names(b + [c])
    ensures !found ==> Comparing(b + [c], path, next)
  {
    Push(b, c);
    found := false;
    if pathoff < 0 {
      return if c == 0 then 0 else -1, false;
    }
    if c == CharAt(path, pathoff) {
      if CharAt(path, pathoff) == 0 {
        assert pathoff == |path| && path[..pathoff] == path;
        return pathoff, true;
      }
      assert path[..pathoff] + [c] == path[..pathoff + 1];
      return pathoff + 1, false;
    }
    if c == 0 {
      assert path[..pathoff] != path;
      return 0, false;
    }
    assert (path[..pathoff] + [c])[pathoff] == c;
    return -1, false;
  }

  lemma {:induction false} NamesPrefix(b: Bytes, k: nat)
    requires k <= |b|
    ensures forall n <- Names(b[..k]) :: n in Names(b)
    decreases |b|
  {
    if k == |b| {
      assert b[..k] == b;
    } else {
      NamesPrefix(b[..|b| - 1], k);
      assert b[..|b| - 1][..k] == b[..k];
    }
  }

  lemma Extend(b: Bytes, k: nat)
    requires k < |b|
    ensures b[..k] + [b[k]] == b[..k + 1]
  {
  }

  lemma Joined(b: Bytes, path: Bytes)
    ensures b + path + [0] == b + (path + [0])
  {
  }

  lemma AddedPresent(b: Bytes, path: CString)
    requires path in Names(b)
    ensures Added(b, path) == b
  {
  }

  /** What is appended to a file without the name */
  lemma AddedBehind(b: Bytes, path: CString, pathoff: int)
    requires Comparing(b, path, pathoff)
    ensures path !in Names(b) && Added(b, path) == (if pathoff != 0 then b + [0] else b) + (path + [0])
  {
    hide Names;
    if pathoff != 0 {
      assert Tail(b) != [];
      Joined(b + [0], path);
    } else {
      assert Tail(b) == [] && b + [] == b;
      Joined(b, path);
    }
  }

  /**
   * pe_playground_file_add on the contents of a file: -1 if the name is already there,
   * else 1 if the file was empty and 0 otherwise. wishes are the sizes of the reads.
   */
  method FileAdd(content: Bytes, path: CString, wishes: seq<nat>) returns (ret: int, after: Bytes)
    ensures after == Added(content, path)
    ensures ret == if path in Names(content) then -1 else if content == [] then 1 else 0
  {
    var newfile, pathoff, done, calls := 1, 0, 0, 0;
    assert Comparing(content[..done], path, pathoff);
    hide Comparing;
    hide Names;
    hide Tail;
    hide Added;
    hide ReadSize;
    while done < |content|
      invariant done <= |content| && Comparing(content[..done], path, pathoff)
      invariant newfile == if done == 0 then 1 else 0
    {
      var count := ReadSize(if calls < |wishes| then wishes[calls] else BUF_SIZE, BUF_SIZE, |content| - done);
      calls := calls + 1;
      newfile := 0;
      for i := 0 to count
        invariant Comparing(content[..done + i], path, pathoff)
      {
        var found;
        pathoff, found := CompareByte(content[..done + i], path, pathoff, content[done + i]);
        Extend(content, done + i);
        if found {
          NamesPrefix(content, done + i + 1);
          AddedPresent(content, path);
          return -1, content;
        }
      }
      done := done + count;
    }
    assert content[..done] == content;
    AddedBehind(content, path, pathoff);
    after := content;
    if pathoff != 0 {
      after := after + [0];
    }
    after := after + (path + [0]);
    ret := newfile;
  }

  // ------------------------------------------------------------------ lists of names

  /** The payload of an empty list message, and sizeof(Anoubis_PgFileRecord) */
  const CAPACITY: nat := 7968
  const REC_HEADER: nat := 32

  /** Anoubis_PgFileRecord: the name is stored with its NUL byte, size includes padding. */
  datatype Record = Record(pgid: Cookie, dev: nat, ino: nat, name: Bytes, size: nat)

  /** A list message; start is POLICY_FLAG_START. */
  datatype ListMsg = ListMsg(recs: seq<Record>, start: bool)

  function SizeOf(recs: seq<Record>): nat {
    if recs == [] then 0 else SizeOf(recs[..|recs| - 1]) + recs[|recs| - 1].size
  }

  /** All records in a sequence of messages, in order */
  function AllRecords(msgs: seq<ListMsg>): seq<Record> {
    if msgs == [] then [] else AllRecords(msgs[..|msgs| - 1]) + msgs[|msgs| - 1].recs
  }

  /** The records for these names: the header, the name and at most seven bytes of padding */
  ghost predicate RecordsFor(recs: seq<Record>, names: seq<Bytes>, pgid: Cookie, dev: nat, ino: nat) {
    && |recs| == |names|
    && forall k | 0 <= k < |recs| ::
         && recs[k].pgid == pgid && recs[k].dev == dev && recs[k].ino == ino && recs[k].name == names[k]
         && REC_HEADER + |names[k]| + 1 <= recs[k].size < REC_HEADER + |names[k]| + 1 + 8
  }

  lemma RecordsPush(recs: seq<Record>, names: seq<Bytes>, r: Record, pgid: Cookie, dev: nat, ino: nat)
    requires RecordsFor(recs, names, pgid, dev, ino) && r.pgid == pgid && r.dev == dev && r.ino == ino
    requires REC_HEADER + |r.name| + 1 <= r.size < REC_HEADER + |r.name| + 1 + 8
    ensures RecordsFor(recs + [r], names + [r.name], pgid, dev, ino)
  {
  }

  lemma Behind(before: seq<Record>, all: seq<Record>, r: Record)
    requires |before| <= |all| && all[..|before|] == before
    ensures (all + [r])[..|before|] == before && (all + [r])[|before|..] == all[|before|..] + [r]
  {
  }

  /** (n + 7) & ~7 */
  function RoundUp(n: nat): (r: nat)
    ensures n <= r < n + 8 && r % 8 == 0
  {
    (n + 7) / 8 * 8
  }

  /** A message holds as many bytes of records as fit. */
  predicate MsgOk(m: ListMsg) {
    SizeOf(m.recs) <= CAPACITY
  }

  /** struct amsg_list_context, with the queue that completed messages go to */
  class ListContext {
    var recs: seq<Record>
    /** The bytes left in the payload */
    var room: nat
    var start: bool
    var queue: seq<ListMsg>

    ghost predicate Valid()
      reads this
    {
      && room + SizeOf(recs) == CAPACITY
      && (forall m <- queue :: MsgOk(m))
      && (forall k | 0 <= k < |queue| :: queue[k].start <==> k == 0)
      && (start <==> queue == [])
    }

    ghost function All(): seq<Record>
      reads this
    {
      AllRecords(queue) + recs
    }

    /** amsg_list_init */
    constructor ()
      ensures Valid() && All() == [] && queue == []
    {
      recs, room, start, queue := [], CAPACITY, true, [];
    }

    /** amsg_list_addrecord */
    method AddRecord(r: Record)
      requires Valid() && r.size <= room
      modifies `recs, `room
      ensures Valid() && All() == old(All()) + [r] && queue == old(queue)
    {
      assert (recs + [r])[..|recs|] == recs;
      recs := recs + [r];
      room := room - r.size;
      assert All() == old(All()) + [r];
    }

    /** amsg_list_send followed by the initialisation of the next message */
    method Send()
      requires Valid()
      modifies this
      ensures Valid() && All() == old(All()) && room == CAPACITY && recs == []
      ensures queue == old(queue) + [ListMsg(old(recs), old(start))]
    {
      ghost var before := queue;
      queue := queue + [ListMsg(recs, start)];
      assert queue[..|queue| - 1] == before;
      recs, room, start := [], CAPACITY, false;
      assert All() == AllRecords(before) + old(recs);
    }
  }

  /** The records of a file fit into empty messages, also what is read of an unfinished name. */
  ghost predicate AllFit(b: Bytes) {
    (forall n <- Names(b) :: REC_HEADER + |n| + 1 <= CAPACITY) && REC_HEADER + |Tail(b)| <= CAPACITY
  }

  lemma FitsBefore(b: Bytes, c: byte)
    requires AllFit(b + [c])
    ensures AllFit(b)
  {
    Push(b, c);
    hide Names;
    hide Tail;
    if c == 0 {
      assert (Names(b) + [Tail(b)])[|Names(b)|] == Tail(b);
    }
    forall n | n in Names(b) ensures n in Names(b + [c]) {
    }
  }

  /** A part of a file that fits has only names that fit. */
  lemma {:induction false} FitsSoFar(b: Bytes, k: nat)
    requires k <= |b| && AllFit(b)
    ensures REC_HEADER + |Tail(b[..k])| <= CAPACITY
    decreases |b|
  {
    if k == |b| {
      assert b[..k] == b;
    } else {
      var rest := b[..|b| - 1];
      assert b == rest + [b[|b| - 1]] && rest[..k] == b[..k];
      FitsBefore(rest, b[|b| - 1]);
      hide *;
      FitsSoFar(rest, k);
    }
  }

  /** The search for the NUL byte in the read buffer from position i on */
  method Scan(buf: Bytes, i: nat) returns (slen: nat, complete: bool)
    requires i < |buf|
    ensures 0 < slen && i + slen <= |buf|
    ensures complete ==> buf[i + slen - 1] == 0 && 0 !in buf[i..i + slen - 1]
    ensures !complete ==> i + slen == |buf| && 0 !in buf[i..]
  {
    slen, complete := 0, false;
    while i + slen < |buf|
      invariant i + slen <= |buf| && forall k | i <= k < i + slen :: buf[k] != 0
    {
      if buf[i + slen] == 0 {
        return slen + 1, true;
      }
      slen := slen + 1;
    }
  }

  /** The offset in the record: the bytes of the name behind the header, or zero between records */
  function RecOff(part: Bytes): nat {
    if part == [] then 0 else REC_HEADER + |part|
  }

  /** The state of pe_playground_send_onefile after the bytes c of the file */
  ghost predicate Streaming(ctx: ListContext, c: Bytes, recoff: nat, part: Bytes, before: seq<Record>, pgid: Cookie,
                            dev: nat, ino: nat)
    reads ctx
  {
    && ctx.Valid()
    && part == Tail(c) && recoff == RecOff(part) && recoff <= ctx.room
    && |before| <= |ctx.All()| && ctx.All()[..|before|] == before
    && RecordsFor(ctx.All()[|before|..], Names(c), pgid, dev, ino)
  }

  lemma RoomBound(ctx: ListContext)
    requires ctx.Valid()
    ensures ctx.room <= CAPACITY
  {
  }

  lemma StreamStart(ctx: ListContext, pgid: Cookie, dev: nat, ino: nat)
    requires ctx.Valid()
    ensures Streaming(ctx, [], 0, [], ctx.All(), pgid, dev, ino)
  {
    var all := ctx.All();
    assert all[..|all|] == all && all[|all|..] == [];
  }

  lemma StreamEnd(ctx: ListContext, c: Bytes, recoff: nat, part: Bytes, before: seq<Record>, pgid: Cookie, dev: nat,
                  ino: nat)
    requires Streaming(ctx, c, recoff, part, before, pgid, dev, ino)
    ensures ctx.Valid() && before <= ctx.All() && RecordsFor(ctx.All()[|before|..], Names(c), pgid, dev, ino)
  {
  }

  /** The end of a name: the record is padded if there is room and counted. */
  method FinishRecord(ctx: ListContext, ghost c: Bytes, name: Bytes, ghost before: seq<Record>, pgid: Cookie,
                      dev: nat, ino: nat)
    requires ctx.Valid() && REC_HEADER + |name| + 1 <= ctx.room && name == Tail(c)
    requires |before| <= |ctx.All()| && ctx.All()[..|before|] == before
    requires RecordsFor(ctx.All()[|before|..], Names(c), pgid, dev, ino)
    modifies ctx
    ensures Streaming(ctx, c + [0], 0, [], before, pgid, dev, ino)
    ensures ctx.queue == old(ctx.queue)
  {
    hide RecordsFor;
    hide RoundUp;
    hide Names;
    hide Tail;
    hide AllRecords;
    hide ListContext.All;
    hide ListContext.Valid;
    Push(c, 0);
    var recoff := REC_HEADER + |name| + 1;
    var nrecoff := RoundUp(recoff);
    if nrecoff <= ctx.room {
      recoff := nrecoff;
    }
    var r := Record(pgid, dev, ino, name, recoff);
    RecordsPush(ctx.All()[|before|..], Names(c), r, pgid, dev, ino);
    Behind(before, ctx.All(), r);
    ctx.AddRecord(r);
  }

  /** How a segment of the read buffer continues the file */
  lemma Segment(content: Bytes, pos: nat, seg: Bytes)
    requires pos + |seg| <= |content| && content[pos..pos + |seg|] == seg
    requires seg != [] && 0 !in seg[..|seg| - 1]
    ensures var name := seg[..|seg| - 1];
      if seg[|seg| - 1] == 0 then
        && Tail(content[..pos] + name) == Tail(content[..pos]) + name
        && Names(content[..pos] + name) == Names(content[..pos])
        && content[..pos + |seg|] == content[..pos] + name + [0]
      else
        && Tail(content[..pos + |seg|]) == Tail(content[..pos]) + seg
        && Names(content[..pos + |seg|]) == Names(content[..pos])
    ensures AllFit(content) ==> REC_HEADER + |Tail(content[..pos])| + |seg| <= CAPACITY
  {
    hide *;
    var c, name, end := content[..pos], seg[..|seg| - 1], pos + |seg|;
    SegmentSlices(content, pos, seg);
    if seg[|seg| - 1] == 0 {
      PushAll(c, name);
      Push(c + name, 0);
      if AllFit(content) { LastFits(content, end, Tail(c + name)); }
    } else {
      NoNul(seg);
      PushAll(c, seg);
      if AllFit(content) { FitsSoFar(content, end); }
    }
  }

  lemma LastFits(content: Bytes, end: nat, last: Bytes)
    requires AllFit(content) && end <= |content| && last in Names(content[..end])
    ensures REC_HEADER + |last| + 1 <= CAPACITY
  {
    NamesPrefix(content, end);
    hide Names;
  }

  lemma NoNul(seg: Bytes)
    requires seg != [] && seg[|seg| - 1] != 0 && 0 !in seg[..|seg| - 1]
    ensures 0 !in seg
  {
    assert seg == seg[..|seg| - 1] + [seg[|seg| - 1]];
  }

  lemma SegmentSlices(content: Bytes, pos: nat, seg: Bytes)
    requires pos + |seg| <= |content| && content[pos..pos + |seg|] == seg && seg != []
    ensures var name := seg[..|seg| - 1];
      && content[..pos + |seg|] == content[..pos] + seg == (content[..pos] + name) + [seg[|seg| - 1]]
  {
    assert seg == seg[..|seg| - 1] + [seg[|seg| - 1]];
  }

  /**
   * One round of pe_playground_send_onefile with data in the read buffer: the segment up to
   * the next NUL byte is copied to the record, or the message is full and is sent first. A
   * message that was empty is full only if some name does not fit into any message.
   */
  method CopySegment(ctx: ListContext, ghost content: Bytes, ghost pos: nat, buf: Bytes, i: nat, part: Bytes,
                     ghost before: seq<Record>, pgid: Cookie, dev: nat, ino: nat)
    returns (next: nat, rest: Bytes)
    requires i < |buf| && pos + |buf| - i <= |content| && buf[i..] == content[pos..pos + |buf| - i]
    requires Streaming(ctx, content[..pos], RecOff(part), part, before, pgid, dev, ino)
    modifies ctx
    ensures i <= next <= |buf|
    ensures Streaming(ctx, content[..pos + next - i], RecOff(rest), rest, before, pgid, dev, ino)
    ensures next == i ==> ctx.room == CAPACITY && (AllFit(content) ==> old(ctx.room) != CAPACITY)
  {
    hide AllFit;
    hide RecordsFor;
    hide Names;
    hide Tail;
    hide AllRecords;
    hide ListContext.All;
    hide ListContext.Valid;
    RoomBound(ctx);
    var slen, complete := Scan(buf, i);
    var seg := buf[i..i + slen];
    assert seg == content[pos..pos + slen] by { assert seg == buf[i..][..slen]; }
    assert 0 !in seg[..slen - 1] by {
      assert seg[..slen - 1] == buf[i..i + slen - 1];
      assert complete || seg == buf[i..];
    }
    Segment(content, pos, seg);
    var recoff, headlen := RecOff(part), if part == [] then REC_HEADER else 0;
    if recoff + headlen + slen > ctx.room {
      ctx.Send();
      return i, part;
    }
    next := i + slen;
    if complete {
      var name := seg[..slen - 1];
      FinishRecord(ctx, content[..pos] + name, part + name, before, pgid, dev, ino);
      rest := [];
    } else {
      rest := part + seg;
    }
  }

  lemma {:induction false} InSomeMessage(msgs: seq<ListMsg>, r: Record)
    requires r in AllRecords(msgs) && forall m <- msgs :: MsgOk(m)
    ensures r.size <= CAPACITY
    decreases |msgs|
  {
    var n := |msgs| - 1;
    if r in msgs[n].recs {
      assert msgs[n] in msgs;
      SizeOfOne(msgs[n].recs, r);
    } else {
      InSomeMessage(msgs[..n], r);
    }
  }

  lemma {:induction false} SizeOfOne(recs: seq<Record>, r: Record)
    requires r in recs
    ensures r.size <= SizeOf(recs)
    decreases |recs|
  {
    var n := |recs| - 1;
    if r != recs[n] {
      assert recs == recs[..n] + [recs[n]];
      SizeOfOne(recs[..n], r);
    }
  }

  /** What could be sent fits. */
  lemma SentFits(ctx: ListContext, c: Bytes, part: Bytes, before: seq<Record>, pgid: Cookie, dev: nat, ino: nat)
    requires Streaming(ctx, c, RecOff(part), part, before, pgid, dev, ino)
    ensures AllFit(c)
  {
    hide Names;
    hide Tail;
    hide AllRecords;
    hide SizeOf;
    var all := ctx.All();
    forall n | n in Names(c) ensures REC_HEADER + |n| + 1 <= CAPACITY {
      var k :| 0 <= k < |Names(c)| && Names(c)[k] == n;
      var r := all[|before|..][k];
      assert r in all;
      if r in ctx.recs {
        SizeOfOne(ctx.recs, r);
      } else {
        InSomeMessage(ctx.queue, r);
      }
    }
  }

  function Flag(b: bool): nat {
    if b then 1 else 0
  }

  /**
   * The loop of pe_playground_send_onefile for a number of rounds. If the file is finished
   * every name was sent, in order and as one record of one message, whatever the sizes of the
   * reads were; and it is finished after finitely many rounds exactly if every record fits.
   */
  method SendRounds(ctx: ListContext, content: Bytes, pgid: Cookie, dev: nat, ino: nat, wishes: seq<nat>, rounds: nat)
    returns (finished: bool)
    requires ctx.Valid()
    modifies ctx
    ensures ctx.Valid() && old(ctx.All()) <= ctx.All()
    ensures finished ==> AllFit(content) && RecordsFor(ctx.All()[|old(ctx.All())|..], Names(content), pgid, dev, ino)
    ensures AllFit(content) && rounds >= 2 * |content| + 2 ==> finished
  {
    hide Streaming;
    hide AllFit;
    hide Names;
    hide Tail;
    hide RecordsFor;
    hide AllRecords;
    hide ListContext.All;
    hide ListContext.Valid;
    ghost var before := ctx.All();
    var buf: Bytes, i, done, calls := [], 0, 0, 0;
    var part: Bytes := [];
    StreamStart(ctx, pgid, dev, ino);
    assert content[..0] == [];
    for round := 0 to rounds
      invariant i <= |buf| <= done <= |content| && buf == content[done - |buf|..done]
      invariant Streaming(ctx, content[..done - |buf| + i], RecOff(part), part, before, pgid, dev, ino)
      invariant AllFit(content) && rounds >= 2 * |content| + 2 ==>
                  2 * (|content| - (done - |buf| + i)) + Flag(ctx.room != CAPACITY) < rounds - round
    {
      if i >= |buf| {
        var count := ReadSize(if calls < |wishes| then wishes[calls] else BUF_SIZE, BUF_SIZE, |content| - done);
        calls := calls + 1;
        if count == 0 {
          assert content[..done] == content;
          SentFits(ctx, content, part, before, pgid, dev, ino);
          StreamEnd(ctx, content, RecOff(part), part, before, pgid, dev, ino);
          return true;
        }
        buf, i := content[done..done + count], 0;
        done := done + count;
      }
      ghost var pos := done - |buf| + i;
      assert buf[i..] == content[pos..pos + |buf| - i];
      i, part := CopySegment(ctx, content, pos, buf, i, part, before, pgid, dev, ino);
    }
    StreamEnd(ctx, content[..done - |buf| + i], RecOff(part), part, before, pgid, dev, ino);
    return false;
  }

  /** pe_playground_send_onefile, when the record of every name fits into an empty message. */
  method SendOneFile(ctx: ListContext, content: Bytes, pgid: Cookie, dev: nat, ino: nat, wishes: seq<nat>)
    requires ctx.Valid() && AllFit(content)
    modifies ctx
    ensures ctx.Valid() && old(ctx.All()) <= ctx.All()
    ensures RecordsFor(ctx.All()[|old(ctx.All())|..], Names(content), pgid, dev, ino)
  {
    hide *;
    var finished := SendRounds(ctx, content, pgid, dev, ino, wishes, 2 * |content| + 2);
  }

  /** Names that the kernel can produce are shorter than PATH_MAX: they always fit. */
  lemma KernelNamesFit(content: Bytes)
    requires Tail(content) == [] && forall n <- Names(content) :: |n| < PATH_MAX
    ensures AllFit(content)
  {
  }
}

/**
 * Messages between two daemon processes: a queue of messages, the writer's and the
 * reader's buffers and the pipe between them (amsg.c, aqueue.c).
 */
module Channel {
  import opened Basics

  /** sizeof(struct anoubisd_msg) and MSG_BUF_SIZE */
  const HEADER: nat := 8
  const MSG_BUF_SIZE: nat := 8192

  /** The size field at the start of a message: a signed int, least significant byte first */
  function SizeField(b: Bytes): int
    requires |b| >= 4
  {
    var u := b[0] as int + 0x100 * (b[1] as int) + 0x1_0000 * (b[2] as int) + 0x100_0000 * (b[3] as int);
    if u >= 0x8000_0000 then u - 0x1_0000_0000 else u
  }

  /** What msg_factory and msg_shrink leave: the size field tells the length. */
  predicate IsMsg(m: Bytes) {
    |m| >= HEADER && SizeField(m) == |m|
  }

  type Msg = m: Bytes | IsMsg(m) witness [8, 0, 0, 0, 0, 0, 0, 0]

  function Fits(m: Msg): bool {
    |m| <= MSG_SIZE_LIMIT
  }

  /** The messages that can be sent; send_msg rejects larger ones. */
  function Sendable(q: seq<Msg>): (r: seq<Msg>)
    ensures forall m <- r :: Fits(m)
  {
    if q == [] then [] else (if Fits(q[0]) then [q[0]] else []) + Sendable(q[1..])
  }

  lemma {:induction false} SendableAppend(q: seq<Msg>, m: Msg)
    ensures Sendable(q + [m]) == Sendable(q) + if Fits(m) then [m] else []
  {
    hide IsMsg;
    hide Fits;
    if q == [] {
      assert q + [m] == [m] && [m][1..] == [];
    } else {
      SendableAppend(q[1..], m);
      var first := if Fits(q[0]) then [q[0]] else [];
      var last := if Fits(m) then [m] else [];
      assert (q + [m])[1..] == q[1..] + [m];
      assert first + (Sendable(q[1..]) + last) == first + Sendable(q[1..]) + last;
    }
  }

  function Concat(q: seq<Msg>): Bytes {
    if q == [] then [] else q[0] + Concat(q[1..])
  }

  lemma {:induction false} ConcatAppend(q: seq<Msg>, m: Msg)
    ensures Concat(q + [m]) == Concat(q) + m
  {
    if q == [] {
      assert q + [m] == [m] && [m][1..] == [];
    } else {
      ConcatAppend(q[1..], m);
      assert (q + [m])[1..] == q[1..] + [m];
    }
  }

  /** What a read system call may return */
  datatype ReadResult = Data(data: Bytes) | Again | Eof

  class MsgChannel {
    // The writing process: the queue, its write event, and the message being written.
    var queue: seq<Msg>
    var armed: bool
    var wmsg: Option<Msg>
    var woff: nat

    // The pipe
    var pipe: Bytes
    var closed: bool

    // The reading process: the read buffer with its valid part, and an incomplete message.
    const rbuf: array<byte>
    var rhead: nat
    var rtail: nat
    /** The part of rmsg that has been read, and the size of the whole message */
    var rmsg: Option<Bytes>
    var rsize: nat
    var iseof: bool

    /** All messages passed to enqueue, and those that get_msg has returned */
    ghost var enqueued: seq<Msg>
    ghost var received: seq<Msg>
    /** The messages accepted by send_msg */
    ghost var sent: seq<Msg>

    constructor ()
      ensures Valid() && enqueued == [] && received == [] && fresh(rbuf)
    {
      queue, armed, wmsg, woff := [], false, None, 0;
      pipe, closed := [], false;
      rbuf := new byte[2 * MSG_BUF_SIZE];
      rhead, rtail, rmsg, rsize, iseof := 0, 0, None, 0, false;
      enqueued, received, sent := [], [], [];
    }

    /** The bytes that the reader holds */
    ghost function Held(): Bytes
      reads `rmsg, `rhead, `rtail, rbuf
      requires rhead <= rtail <= rbuf.Length
    {
      (if rmsg.Some? then rmsg.value else []) + rbuf[rhead..rtail]
    }

    /** The bytes of wmsg that are still to be written */
    ghost function Pending(): Bytes
      reads `wmsg, `woff
      requires wmsg.Some? ==> woff <= |wmsg.value|
    {
      if wmsg.Some? then wmsg.value[woff..] else []
    }

    /** The messages on their way */
    ghost function Underway(): seq<Msg>
      reads `received, `sent
      requires received <= sent
    {
      sent[|received|..]
    }

    ghost predicate Shape()
      reads `received, `sent, `wmsg, `woff, `rmsg, `rsize, `rhead, `rtail
    {
      && rbuf.Length == 2 * MSG_BUF_SIZE && rhead <= rtail <= rbuf.Length
      && (wmsg.Some? ==> woff < |wmsg.value|)
      && (rmsg.Some? ==> rhead == rtail && HEADER <= |rmsg.value| <= rsize)
      && received <= sent
    }

    /** The bytes between writer and reader are those of the messages underway. */
    ghost predicate Bytewise()
      reads `received, `sent, `pipe, `wmsg, `woff, `rmsg, `rsize, `rhead, `rtail, rbuf
      requires Shape()
    {
      && (forall m <- sent :: Fits(m))
      && Held() + pipe + Pending() == Concat(Underway())
      && (rmsg.Some? ==> Underway() != [] && rsize == |Underway()[0]|)
    }

    /** Nothing is lost, duplicated or reordered; q is what is still to be sent. */
    ghost predicate Stream(q: seq<Msg>)
      reads `enqueued, `received, `sent, `pipe, `wmsg, `woff, `rmsg, `rsize, `rhead, `rtail, rbuf
      requires Shape()
    {
      Sendable(enqueued) == sent + Sendable(q) && Bytewise()
    }

    /** Between calls of get_msg no complete message waits in rmsg. */
    ghost predicate Incomplete()
      reads `rmsg, `rsize
    {
      rmsg.Some? ==> |rmsg.value| < rsize
    }

    /** A message that waits for the writer keeps the write event armed. */
    ghost predicate Armed()
      reads `queue, `wmsg, `armed
    {
      queue != [] || wmsg.Some? ==> armed
    }

    ghost predicate Valid()
      reads this, rbuf
    {
      Shape() && Stream(queue) && Incomplete() && Armed()
    }

    // ------------------------------------------------------------ the writer

    /** enqueue */
    method Enqueue(m: Msg)
      requires Valid()
      modifies `queue, `armed, `enqueued
      ensures Valid() && enqueued == old(enqueued) + [m] && queue == old(queue) + [m]
    {
      SendableAppend(enqueued, m);
      SendableAppend(queue, m);
      hide Sendable;
      hide Bytewise;
      queue := queue + [m];
      armed := true;
      enqueued := enqueued + [m];
    }

    /** _flush_buf: one write, which takes at most count bytes; no bytes stand for EAGAIN. */
    method FlushBuf(count: nat)
      requires Shape() && Bytewise()
      modifies `wmsg, `woff, `pipe
      ensures Shape() && Bytewise()
      ensures wmsg.Some? ==> wmsg == old(wmsg)
    {
      hide Concat;
      if wmsg.None? { return; }
      ghost var held := Held();
      var rest := wmsg.value[woff..];
      var size := if count < |rest| then count else |rest|;
      MoveBytes(held, pipe, rest, size);
      pipe := pipe + rest[..size];
      woff := woff + size;
      if woff == |wmsg.value| {
        woff := 0;
        wmsg := None;
      }
    }

    /**
     * send_msg: 1 if the message is accepted, 0 if the message before it is still being
     * written, -1 if it is too large. Without a message this only flushes.
     */
    method SendMsg(m: Option<Msg>, count: nat, again: nat) returns (ret: int)
      requires Shape() && Stream(queue) && m == if queue == [] then None else Some(queue[0])
      modifies `wmsg, `woff, `pipe, `sent
      ensures Shape() && Stream(if m.Some? && ret != 0 then queue[1..] else queue)
      ensures ret == 0 ==> wmsg.Some?
      ensures ret < 0 ==> m.Some? && !Fits(m.value)
      ensures ret > 0 && m.None? ==> wmsg.None?
      ensures sent == if m.Some? && ret > 0 then old(sent) + [m.value] else old(sent)
    {
      hide Bytewise;
      if wmsg.Some? {
        FlushBuf(count);
        if wmsg.Some? { return 0; }
      }
      if m.None? { return 1; }
      if |m.value| > MSG_SIZE_LIMIT {
        return -1;
      }
      Accept(m.value);
      hide Sendable;
      FlushBuf(again);
      return 1;
    }

    /** The message becomes the one that is written. */
    method Accept(m: Msg)
      requires Shape() && Bytewise() && wmsg.None? && Fits(m)
      modifies `wmsg, `woff, `sent
      ensures Shape() && Bytewise() && wmsg == Some(m) && sent == old(sent) + [m]
    {
      assert |m| > 0;
      hide Concat;
      hide IsMsg;
      ghost var before, front := Underway(), Held() + pipe;
      ConcatAppend(before, m);
      assert front + [] == front;
      wmsg, woff := Some(m), 0;
      sent := sent + [m];
      assert Underway() == before + [m];
      assert Pending() == m && Held() + pipe == front;
    }

    /** dispatch_write_queue, called when the write event fires; counts are the results of write. */
    method DispatchWriteQueue(counts: seq<nat>) returns (ret: int)
      requires Shape() && Stream(queue) && Incomplete()
      modifies `wmsg, `woff, `pipe, `sent, `queue, `armed
      ensures Valid()
      ensures ret > 0 ==> queue == [] && wmsg.None?
      ensures ret == 0 ==> wmsg.Some? || (old(queue) == queue == [] && old(wmsg).None?)
      ensures ret < 0 ==> exists k: nat :: k < |old(queue)| && !Fits(old(queue)[k]) && queue == old(queue)[k + 1..]
    {
      hide MsgChannel.Stream;
      hide MsgChannel.Shape;
      hide Sendable;
      hide IsMsg;
      armed := false;
      ret := 0;
      var i := 0;
      ghost var k: nat := 0;
      assert queue == old(queue)[0..];
      while queue != [] || wmsg.Some?
        invariant Shape() && Stream(queue)
        invariant k <= |old(queue)| && queue == old(queue)[k..]
        invariant ret >= 0 && (ret == 0 ==> queue == old(queue) && wmsg == old(wmsg))
        decreases |queue|, wmsg.Some?
      {
        var m := if queue != [] then Some(queue[0]) else None;
        ret := SendMsg(m, if i < |counts| then counts[i] else 0, if i + 1 < |counts| then counts[i + 1] else 0);
        i := i + 2;
        if ret == 0 {
          armed := true;
          break;
        }
        if ret < 0 {
          queue := queue[1..];
          assert queue == old(queue)[k + 1..];
          armed := true;
          break;
        }
        if m.Some? {
          queue := queue[1..];
          k := k + 1;
        }
      }
    }

    // ------------------------------------------------------------ the reader

    /** A read system call for at most max bytes; the kernel returns at most count of them. */
    method Read(max: nat, count: nat) returns (r: ReadResult)
      requires max > 0
      modifies `pipe
      ensures r.Data? ==> 0 < |r.data| <= max && old(pipe) == r.data + pipe
      ensures !r.Data? ==> pipe == old(pipe)
      ensures r.Eof? <==> pipe == [] && old(pipe) == [] && closed
    {
      if pipe == [] {
        return if closed then Eof else Again;
      }
      if count == 0 { return Again; }
      var size := if count < |pipe| then count else |pipe|;
      size := if size < max then size else max;
      r := Data(pipe[..size]);
      pipe := pipe[size..];
    }

    /** The memmove of _fill_buf */
    method MoveToStart()
      requires Shape() && Bytewise() && rmsg.None?
      modifies `rhead, `rtail, rbuf
      ensures Shape() && Bytewise() && rhead == 0 && rtail == old(rtail - rhead)
    {
      hide Concat;
      ghost var held := rbuf[rhead..rtail];
      var size := rtail - rhead;
      forall k | 0 <= k < size {
        rbuf[k] := rbuf[rhead + k];
      }
      rhead, rtail := 0, size;
      assert rbuf[0..size] == held;
    }

    /** The part of _fill_buf that reads into an incomplete message */
    method ReadMessage(count: nat) returns (more: bool)
      requires Shape() && Bytewise() && rmsg.Some? && Incomplete()
      modifies `rmsg, `iseof, `pipe
      ensures Shape() && Bytewise() && rmsg.Some?
      ensures !more ==> iseof && Incomplete()
    {
      hide Concat;
      var r := Read(rsize - |rmsg.value|, count);
      match r {
        case Eof =>
          iseof := true;
          more := false;
        case Again => more := true;
        case Data(data) =>
          ghost var none := rbuf[rhead..rtail];
          assert none == [];
          ReadBytes(rmsg.value, data, pipe, Pending());
          assert rmsg.value + [] == rmsg.value && (rmsg.value + data) + [] == rmsg.value + data;
          rmsg := Some(rmsg.value + data);
          more := true;
      }
    }

    method AppendToBuffer(data: Bytes)
      requires rhead <= rtail && rtail + |data| <= rbuf.Length
      modifies `rtail, rbuf
      ensures rtail == old(rtail) + |data| && rbuf[rhead..rtail] == old(rbuf[rhead..rtail]) + data
    {
      forall k | 0 <= k < |data| {
        rbuf[rtail + k] := data[k];
      }
      rtail := rtail + |data|;
      assert forall k | rhead <= k < old(rtail) :: rbuf[k] == old(rbuf[k]);
    }

    /** The bytes that read has stored behind the valid part of the buffer */
    method BufferData(data: Bytes)
      requires Shape() && rmsg.None? && rtail + |data| <= rbuf.Length && (forall m <- sent :: Fits(m))
      requires Held() + (data + pipe) + Pending() == Concat(Underway())
      modifies `rtail, rbuf
      ensures Shape() && Bytewise()
    {
      hide Concat;
      ghost var held := Held();
      ReadBytes(held, data, pipe, Pending());
      AppendToBuffer(data);
      assert Held() == held + data;
    }

    /** The part of _fill_buf that reads into the buffer */
    method ReadBuffer(count: nat) returns (more: bool)
      requires Shape() && Bytewise() && rmsg.None? && rtail < rbuf.Length
      modifies `rtail, `iseof, `pipe, rbuf
      ensures Shape() && Bytewise()
      ensures !more ==> iseof && rtail == old(rtail)
    {
      hide Concat;
      var r := Read(rbuf.Length - rtail, count);
      if r.Data? {
        BufferData(r.data);
      } else if r.Eof? {
        iseof := true;
      }
      more := !r.Eof?;
    }

    /** _fill_buf: one read; false at the end of the file. */
    method FillBuf(count: nat) returns (more: bool)
      requires Shape() && Bytewise() && Incomplete()
      modifies `rhead, `rtail, `rmsg, `iseof, `pipe, rbuf
      ensures Shape() && Bytewise()
      ensures rmsg.Some? <==> old(rmsg).Some?
      ensures !more ==> iseof && Incomplete() && rtail - rhead == old(rtail - rhead)
    {
      if rmsg.Some? {
        more := ReadMessage(count);
        return;
      }
      if rhead != 0 {
        MoveToStart();
      }
      var space := 2 * MSG_BUF_SIZE - rtail;
      if space <= 0 {
        return true;
      }
      more := ReadBuffer(count);
    }
    /** No complete message is buffered. */
    predicate NoComplete()
      reads `rmsg, `rsize, `rhead, `rtail
    {
      if rmsg.Some? then |rmsg.value| < rsize else rtail < rhead + HEADER
    }

    /** The message that was completed in rmsg is returned. */
    method TakeMessage() returns (m: Msg)
      requires Shape() && Bytewise() && rmsg.Some? && |rmsg.value| == rsize
      modifies `rmsg, `rsize, `received
      ensures Shape() && Bytewise() && rmsg.None?
      ensures received == old(received) + [m] && received <= sent
    {
      hide Concat;
      hide IsMsg;
      ghost var u := Underway();
      OnlyMsg(rmsg.value, rbuf[rhead..rtail], pipe, Pending(), u);
      m := rmsg.value;
      rmsg, rsize := None, 0;
      received := received + [m];
      assert Underway() == u[1..];
      assert Held() == rbuf[rhead..rtail];
    }

    /** The size of the message at the start of the buffer; it is never out of range. */
    method BufferedSize() returns (size: nat)
      requires Shape() && Bytewise() && rmsg.None? && rtail - rhead >= HEADER
      ensures Underway() != [] && size == |Underway()[0]|
      ensures rtail - rhead >= size ==> rbuf[rhead..rtail][..size] == Underway()[0]
      ensures rtail - rhead >= size ==> rbuf[rhead..rtail][size..] + (pipe + Pending()) == Concat(Underway()[1..])
    {
      ghost var u := Underway();
      assert Held() + (pipe + Pending()) == Held() + pipe + Pending() && Held() == rbuf[rhead..rtail];
      FirstMsg(Held(), pipe + Pending(), u);
      assert u[0] == sent[|received|] && Fits(u[0]);
      var n := SizeField(rbuf[rhead..rtail]);
      if n > MSG_SIZE_LIMIT || n < HEADER {
        assert false;  // Bad message size
      }
      size := n;
    }

    /** An incomplete message leaves the buffer and continues in rmsg. */
    method StartMessage(size: nat)
      requires Shape() && Bytewise() && rmsg.None? && HEADER <= rtail - rhead < size
      requires Underway() != [] && size == |Underway()[0]|
      modifies `rmsg, `rsize, `rhead
      ensures Shape() && Bytewise() && Incomplete() && rmsg.Some?
    {
      hide Concat;
      ghost var held := Held();
      var data := rbuf[rhead..rtail];
      assert [] + data == data == held;
      rhead := rtail;
      rmsg, rsize := Some(data), size;
      assert rbuf[rhead..rtail] == [] && data + [] == data;
    }

    /** A complete message leaves the buffer. */
    method ReturnMessage(size: nat) returns (m: Msg)
      requires Shape() && Bytewise() && rmsg.None? && rtail - rhead >= size
      requires Underway() != [] && size == |Underway()[0]| && rbuf[rhead..rtail][..size] == Underway()[0]
      requires rbuf[rhead..rtail][size..] + (pipe + Pending()) == Concat(Underway()[1..])
      modifies `rhead, `received
      ensures Shape() && Bytewise() && received == old(received) + [m]
    {
      hide Concat;
      ghost var u, held := Underway(), rbuf[rhead..rtail];
      m := rbuf[rhead..rhead + size];
      assert m == held[..size];
      rhead := rhead + size;
      received := received + [m];
      assert Underway() == u[1..];
      assert rbuf[rhead..rtail] == held[size..] && [] + held[size..] == held[size..];
      assert held[size..] + pipe + Pending() == held[size..] + (pipe + Pending());
    }

    /** The memcpy of get_msg: as much as there is of the first message leaves the buffer. */
    method TakeBuffer() returns (r: Option<Msg>)
      requires Shape() && Bytewise() && rmsg.None? && rtail - rhead >= HEADER
      modifies `rmsg, `rsize, `rhead, `received
      ensures Shape() && Bytewise() && Incomplete()
      ensures r.Some? ==> received == old(received) + [r.value]
      ensures r.None? ==> received == old(received) && rmsg.Some?
    {
      var size := BufferedSize();
      hide Bytewise;
      hide Concat;
      if rtail - rhead < size {
        StartMessage(size);
        return None;
      }
      var m := ReturnMessage(size);
      return Some(m);
    }

    /** get_msg; None stands for NULL. */
    method GetMsg(count: nat) returns (r: Option<Msg>)
      requires Valid()
      modifies `rhead, `rtail, `rmsg, `rsize, `iseof, `pipe, `received, rbuf
      ensures Valid()
      ensures r.Some? ==> received == old(received) + [r.value]
      ensures r.None? ==> received == old(received) && NoComplete()
    {
      hide Bytewise;
      if rmsg.Some? {
        var more := FillBuf(count);
        if !more { return None; }
        if |rmsg.value| == rsize {
          var m := TakeMessage();
          return Some(m);
        }
        return None;
      }
      if rtail - rhead < HEADER {
        var more := FillBuf(count);
        if !more { return None; }
      }
      if rtail - rhead < HEADER {
        return None;
      }
      r := TakeBuffer();
    }

    /** msg_eof: after get_msg has returned NULL this is the end of the file and nothing else. */
    method MsgEof() returns (r: bool)
      requires Valid()
      ensures r <==> iseof && NoComplete()
    {
      if !iseof { return false; }
      if rmsg.Some? {
        return |rmsg.value| != rsize;
      }
      return rtail - rhead < HEADER;
    }

    /** The messages returned so far are the first ones that were enqueued and could be sent, in order. */
    lemma InOrder()
      requires Valid()
      ensures received <= Sendable(enqueued)
      ensures Held() == [] && pipe == [] && Pending() == [] && queue == [] ==> received == Sendable(enqueued)
    {
      if Held() == [] && pipe == [] && Pending() == [] && queue == [] {
        assert Concat(Underway()) == [];
      }
    }

    /** The writer has closed its end of the pipe. */
    method Close()
      requires Valid()
      modifies `closed
      ensures Valid() && closed
    {
      closed := true;
    }
  }

  /** The first bytes of a stream of messages are those of its first message. */
  lemma FirstMsg(held: Bytes, rest: Bytes, u: seq<Msg>)
    requires held + rest == Concat(u) && |held| >= HEADER
    ensures u != [] && SizeField(held) == |u[0]|
    ensures |held| >= |u[0]| ==> held[..|u[0]|] == u[0] && held[|u[0]|..] + rest == Concat(u[1..])
  {
    var all := Concat(u);
    assert u != [] && all == u[0] + Concat(u[1..]);
    assert forall k | 0 <= k < 4 :: held[k] == all[k] == u[0][k];
    if |held| >= |u[0]| {
      assert all[..|u[0]|] == u[0] && all[|u[0]|..] == Concat(u[1..]);
      assert (held + rest)[..|u[0]|] == held[..|u[0]|] && (held + rest)[|u[0]|..] == held[|u[0]|..] + rest;
    }
  }

  /** The reader holds exactly the first message. */
  lemma OnlyMsg(held: Bytes, buffered: Bytes, pipe: Bytes, pending: Bytes, u: seq<Msg>)
    requires buffered == [] && (held + buffered) + pipe + pending == Concat(u)
    requires u != [] && |held| == |u[0]|
    ensures held == u[0] && [] + buffered + pipe + pending == Concat(u[1..])
  {
    assert (held + buffered) + pipe + pending == held + (pipe + pending);
    FirstMsg(held, pipe + pending, u);
    assert held[..|u[0]|] == held && held[|u[0]|..] + (pipe + pending) == [] + buffered + pipe + pending;
  }

  /** Bytes that are read go from the pipe to the reader. */
  lemma ReadBytes(held: Bytes, data: Bytes, pipe: Bytes, pending: Bytes)
    ensures (held + data) + pipe + pending == held + (data + pipe) + pending
  {
  }

  lemma MoveBytes(held: Bytes, pipe: Bytes, rest: Bytes, k: nat)
    requires k <= |rest|
    ensures held + (pipe + rest[..k]) + rest[k..] == held + pipe + rest
  {
  }
}

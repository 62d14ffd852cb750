/**
 * Escalation messages: composed by the policy engine (policy.c), checked when they are
 * received (amsg_verify.c) and converted for client sessions (session.c).
 */
module EventAsk {
  import opened Basics

  /** sizeof(struct anoubisd_msg) and the offset of the payload in struct anoubisd_msg_eventask */
  const MSG_HEADER: nat := 8
  const HEADER: nat := 40

  /** Offset and length in the payload, two fields of 16 bits */
  datatype Range = Range(off: nat, len: nat)

  /** struct anoubisd_msg_eventask */
  datatype Ask = Ask(ruleId: nat, prio: nat, sfsmatch: nat, error: nat, log: nat,
                     csum: Range, path: Range, ctxcsum: Range, ctxpath: Range, ev: Range, payload: Bytes)

  /** The parts of struct anoubisd_reply that go into the message */
  datatype Verdict = Verdict(ask: bool, reply: nat, ruleId: nat, prio: nat, sfsmatch: nat, log: nat,
                             pident: Option<Ident>, ctxident: Option<Ident>)

  function Field16(n: nat): (r: nat)
    ensures r < 0x1_0000 && (n < 0x1_0000 ==> r == n)
  {
    n % 0x1_0000
  }

  // ------------------------------------------------------------------ the payload

  /** A path is sent with its NUL byte. */
  function PathBytes(path: Option<Path>): Bytes {
    if path.None? then [] else path.value + [0]
  }

  function CsumOf(i: Option<Ident>): Bytes {
    if i.None? || i.value.csum.None? then [] else i.value.csum.value
  }

  function PathOf(i: Option<Ident>): Bytes {
    if i.None? then [] else PathBytes(i.value.path)
  }

  function Payload(hdr: Bytes, v: Verdict): Bytes {
    hdr + CsumOf(v.pident) + PathOf(v.pident) + CsumOf(v.ctxident) + PathOf(v.ctxident)
  }

  /** pident_size */
  function IdentSize(i: Option<Ident>): nat {
    |CsumOf(i)| + |PathOf(i)|
  }

  /** do_copy: the data goes to the offset, which is advanced; the range that was written is recorded. */
  method DoCopy(buf: array<byte>, off: nat, data: Bytes) returns (r: Range, next: nat)
    requires off + |data| <= buf.Length
    modifies buf
    ensures next == off + |data| && r == Range(Field16(off), Field16(|data|))
    ensures buf[..next] == old(buf[..off]) + data
  {
    forall k | 0 <= k < |data| {
      buf[off + k] := data[k];
    }
    r, next := Range(Field16(off), Field16(|data|)), off + |data|;
  }

  /** do_copy_ident */
  method DoCopyIdent(buf: array<byte>, off: nat, i: Option<Ident>) returns (cs: Range, path: Range, next: nat)
    requires off + IdentSize(i) <= buf.Length
    modifies buf
    ensures next == off + IdentSize(i) && buf[..next] == old(buf[..off]) + CsumOf(i) + PathOf(i)
    ensures cs == Range(Field16(off), Field16(|CsumOf(i)|))
    ensures path == Range(Field16(off + |CsumOf(i)|), Field16(|PathOf(i)|))
  {
    if i.None? {
      cs, path, next := Range(Field16(off), 0), Range(Field16(off), 0), off;
      return;
    }
    cs, next := DoCopy(buf, off, CsumOf(i));
    path, next := DoCopy(buf, next, PathBytes(i.value.path));
  }

  /** The message that fill_eventask_message composes; None stands for NULL. */
  function Filled(hdr: Bytes, v: Verdict): Option<Ask> {
    if |Payload(hdr, v)| + HEADER + MSG_HEADER > MSG_SIZE_LIMIT then None
    else
      var a := |hdr|;
      var b := a + |CsumOf(v.pident)|;
      var c := b + |PathOf(v.pident)|;
      var d := c + |CsumOf(v.ctxident)|;
      Some(Ask(v.ruleId, v.prio, v.sfsmatch, if v.ask then 0 else v.reply, v.log,
               Range(Field16(a), Field16(|CsumOf(v.pident)|)), Range(Field16(b), Field16(|PathOf(v.pident)|)),
               Range(Field16(c), Field16(|CsumOf(v.ctxident)|)), Range(Field16(d), Field16(|PathOf(v.ctxident)|)),
               Range(0, Field16(a)), Payload(hdr, v)))
  }

  /** fill_eventask_message */
  method Fill(hdr: Bytes, v: Verdict) returns (r: Option<Ask>)
    ensures r == Filled(hdr, v)
  {
    hide CsumOf;
    hide PathOf;
    hide Field16;
    var extra := |hdr| + IdentSize(v.pident) + IdentSize(v.ctxident);
    assert extra == |Payload(hdr, v)|;
    if extra + HEADER + MSG_HEADER > MSG_SIZE_LIMIT { return None; }
    var buf := new byte[extra](_ => 0);
    var off := 0;
    var ev, csum, path, ctxcsum, ctxpath;
    ev, off := DoCopy(buf, off, hdr);
    csum, path, off := DoCopyIdent(buf, off, v.pident);
    ctxcsum, ctxpath, off := DoCopyIdent(buf, off, v.ctxident);
    assert buf[..] == buf[..off] == Payload(hdr, v);
    return Some(Ask(v.ruleId, v.prio, v.sfsmatch, if v.ask then 0 else v.reply, v.log,
                    csum, path, ctxcsum, ctxpath, ev, buf[..]));
  }

  // ------------------------------------------------------------------ the size check

  function Ranges(m: Ask): (r: seq<Range>)
    ensures |r| == 5
  {
    [m.csum, m.path, m.ctxcsum, m.ctxpath, m.ev]
  }

  predicate IsSize(n: int) {
    0 <= n <= SIZE_LIMIT
  }

  /** Two ranges that share a byte; empty ranges share nothing. */
  predicate Overlap(a: Range, b: Range) {
    a.len != 0 && b.len != 0 && b.off < a.off + a.len && a.off < b.off + b.len
  }

  predicate Inside(r: Range, size: nat) {
    r.len == 0 || r.off + r.len <= size
  }

  function Part(b: Bytes, r: Range): Bytes
    requires Inside(r, |b|)
  {
    if r.len == 0 then [] else b[r.off..r.off + r.len]
  }

  function End(rs: seq<Range>): nat {
    if rs == [] then 0
    else
      var n := |rs| - 1;
      var e := End(rs[..n]);
      if rs[n].len != 0 && rs[n].off + rs[n].len > e then rs[n].off + rs[n].len else e
  }

  /** A message is accepted exactly if this holds; check is eventdev_hdr_size. */
  ghost predicate Acceptable(m: Ask, check: Bytes -> int) {
    && (forall r <- Ranges(m) :: IsSize(r.off) && IsSize(r.len) && Inside(r, |m.payload|))
    && (forall i, j | 0 <= i < j < 5 :: !Overlap(Ranges(m)[i], Ranges(m)[j]))
    && IsSize(HEADER + End(Ranges(m)))
    && (m.path.len != 0 ==> m.path.len < SIZE_LIMIT && 0 in Part(m.payload, m.path))
    && (m.ctxpath.len != 0 ==> m.ctxpath.len < SIZE_LIMIT && 0 in Part(m.payload, m.ctxpath))
    && (m.ev.len != 0 ==> IsSize(check(Part(m.payload, m.ev))))
  }

  lemma {:induction false} EndBounds(rs: seq<Range>, size: nat)
    ensures End(rs) <= size <==> forall r <- rs :: Inside(r, size)
  {
    if rs != [] {
      var n := |rs| - 1;
      EndBounds(rs[..n], size);
      assert End(rs) <= size <==> End(rs[..n]) <= size && Inside(rs[n], size);
      assert forall r :: r in rs <==> r in rs[..n] || r == rs[n] by {
        assert rs == rs[..n] + [rs[n]];
      }
    }
  }

  /** CHECK_STRING */
  method HasNul(b: Bytes) returns (r: bool)
    ensures r <==> 1 <= |b| < SIZE_LIMIT && 0 in b
  {
    if |b| < 1 || |b| >= SIZE_LIMIT { return false; }
    var i := |b| - 1;
    while i >= 0 && b[i] != 0
      invariant -1 <= i < |b| && forall k | i < k < |b| :: b[k] != 0
    {
      i := i - 1;
    }
    return i >= 0;
  }

  /** The loops of anoubisd_msg_eventask_size that look for overlaps; the result is the end of the last range. */
  method CheckOverlaps(rs: seq<Range>) returns (total: Option<nat>)
    ensures total.None? <==> exists i, j | 0 <= i < j < |rs| :: Overlap(rs[i], rs[j])
    ensures total.Some? ==> total.value == End(rs)
  {
    var t: nat := 0;
    for i := 0 to |rs|
      invariant t == End(rs[..i])
      invariant forall a, b | 0 <= a < b < i :: !Overlap(rs[a], rs[b])
    {
      assert rs[..i + 1][..i] == rs[..i];
      if rs[i].len == 0 { continue; }
      var s1, e1 := rs[i].off, rs[i].off + rs[i].len;
      if e1 > t {
        t := e1;
      }
      for j := 0 to i
        invariant forall a | 0 <= a < j :: !Overlap(rs[a], rs[i])
      {
        if rs[j].len == 0 { continue; }
        var s2, e2 := rs[j].off, rs[j].off + rs[j].len;
        if s2 < e1 && s1 < e2 {
          assert Overlap(rs[j], rs[i]);
          return None;
        }
      }
    }
    assert rs[..|rs|] == rs;
    return Some(t);
  }

  /** ADDOFFSET for all ranges */
  method CheckSizes(rs: seq<Range>) returns (ok: bool)
    ensures ok <==> forall r <- rs :: IsSize(r.off) && IsSize(r.len)
  {
    for i := 0 to |rs|
      invariant forall k | 0 <= k < i :: IsSize(rs[k].off) && IsSize(rs[k].len)
    {
      if !IsSize(rs[i].off) || !IsSize(rs[i].len) {
        assert rs[i] in rs;
        return false;
      }
    }
    return true;
  }

  /** anoubisd_msg_eventask_size: the size without padding, or -1 */
  method EventAskSize(m: Ask, check: Bytes -> int) returns (r: int)
    ensures r >= 0 <==> Acceptable(m, check)
    ensures r >= 0 ==> r == HEADER + End(Ranges(m))
  {
    hide End;
    hide Overlap;
    var offs := Ranges(m);
    var ok := CheckSizes(offs);
    if !ok { return -1; }
    var total := CheckOverlaps(offs);
    if total.None? { return -1; }
    EndBounds(offs, |m.payload|);
    if total.value > |m.payload| { return -1; }
    assert offs[1] == m.path && offs[3] == m.ctxpath && offs[4] == m.ev;
    assert Inside(m.path, |m.payload|) && Inside(m.ctxpath, |m.payload|) && Inside(m.ev, |m.payload|);
    if !IsSize(HEADER + total.value) { return -1; }
    if m.path.len != 0 {
      ok := HasNul(m.payload[m.path.off..m.path.off + m.path.len]);
      if !ok { return -1; }
    }
    if m.ctxpath.len != 0 {
      ok := HasNul(m.payload[m.ctxpath.off..m.ctxpath.off + m.ctxpath.len]);
      if !ok { return -1; }
    }
    if m.ev.len != 0 {
      var size := check(m.payload[m.ev.off..m.ev.off + m.ev.len]);
      if !IsSize(size) { return -1; }
    }
    return HEADER + total.value;
  }

  // ------------------------------------------------------------------ accepted as composed

  /** The message is small enough for the receiver. */
  predicate Small(hdr: Bytes, v: Verdict) {
    HEADER + |Payload(hdr, v)| <= SIZE_LIMIT
  }

  /** The five parts lie behind each other and fill the payload. */
  lemma FilledParts(hdr: Bytes, v: Verdict)
    requires Small(hdr, v) && hdr != []
    ensures Filled(hdr, v).Some?
    ensures var m := Filled(hdr, v).value;
      && (forall r <- Ranges(m) :: Inside(r, |m.payload|) && IsSize(r.off) && IsSize(r.len))
      && m.ev == Range(0, |hdr|)
      && m.csum == Range(|hdr|, |CsumOf(v.pident)|)
      && m.path == Range(m.csum.off + m.csum.len, |PathOf(v.pident)|)
      && m.ctxcsum == Range(m.path.off + m.path.len, |CsumOf(v.ctxident)|)
      && m.ctxpath == Range(m.ctxcsum.off + m.ctxcsum.len, |PathOf(v.ctxident)|)
      && |m.payload| == m.ctxpath.off + m.ctxpath.len
  {
    hide CsumOf;
    hide PathOf;
  }

  lemma FilledContents(hdr: Bytes, v: Verdict)
    requires Small(hdr, v) && hdr != []
    ensures var m := Filled(hdr, v).value;
      && (forall r <- Ranges(m) :: Inside(r, |m.payload|))
      && Part(m.payload, m.ev) == hdr
      && Part(m.payload, m.csum) == CsumOf(v.pident) && Part(m.payload, m.path) == PathOf(v.pident)
      && Part(m.payload, m.ctxcsum) == CsumOf(v.ctxident) && Part(m.payload, m.ctxpath) == PathOf(v.ctxident)
  {
    FilledParts(hdr, v);
    hide CsumOf;
    hide PathOf;
    var p := Payload(hdr, v);
    var a, b, c, d := CsumOf(v.pident), PathOf(v.pident), CsumOf(v.ctxident), PathOf(v.ctxident);
    FiveParts(hdr, a, b, c, d);
    var m := Filled(hdr, v).value;
    assert Ranges(m)[0] == m.csum && Ranges(m)[1] == m.path && Ranges(m)[2] == m.ctxcsum && Ranges(m)[3] == m.ctxpath;
    assert Ranges(m)[4] == m.ev;
  }

  lemma FiveParts(h: Bytes, a: Bytes, b: Bytes, c: Bytes, d: Bytes)
    ensures var p := h + a + b + c + d;
      var i := |h|; var j := i + |a|; var k := j + |b|; var l := k + |c|;
      p[..i] == h && p[i..j] == a && p[j..k] == b && p[k..l] == c && p[l..] == d
  {
  }

  /** Every message that fits is accepted with exactly its size: there is no padding. */
  lemma FilledIsAccepted(hdr: Bytes, v: Verdict, check: Bytes -> int)
    requires Small(hdr, v) && hdr != [] && IsSize(check(hdr))
    ensures Filled(hdr, v).Some? && Acceptable(Filled(hdr, v).value, check)
    ensures HEADER + End(Ranges(Filled(hdr, v).value)) == HEADER + |Payload(hdr, v)|
  {
    FilledParts(hdr, v);
    FilledContents(hdr, v);
    hide Filled;
    hide Payload;
    var m := Filled(hdr, v).value;
    EndBounds(Ranges(m), |m.payload|);
    EndOfParts(m);
  }

  lemma EndOfParts(m: Ask)
    requires m.ev.off == 0 && m.ev.len > 0 && m.csum.off == m.ev.len
    requires m.path.off == m.csum.off + m.csum.len && m.ctxcsum.off == m.path.off + m.path.len
    requires m.ctxpath.off == m.ctxcsum.off + m.ctxcsum.len
    ensures End(Ranges(m)) == m.ctxpath.off + m.ctxpath.len
    ensures forall i, j | 0 <= i < j < 5 :: !Overlap(Ranges(m)[i], Ranges(m)[j])
  {
    var rs := Ranges(m);
    assert rs[..5][..4] == rs[..4] && rs[..4][..3] == rs[..3] && rs[..3][..2] == rs[..2] && rs[..2][..1] == rs[..1];
    assert rs[..1][..0] == [] && rs[..5] == rs;
    assert End(rs[..1]) == if m.csum.len != 0 then m.csum.off + m.csum.len else 0;
    assert End(rs[..2]) == if m.path.len != 0 then m.path.off + m.path.len else End(rs[..1]);
    assert End(rs[..3]) == if m.ctxcsum.len != 0 then m.ctxcsum.off + m.ctxcsum.len else End(rs[..2]);
    assert End(rs[..4]) == if m.ctxpath.len != 0 then m.ctxpath.off + m.ctxpath.len else End(rs[..3]);
  }

  // ------------------------------------------------------------------ disjoint ranges

  function Cells(off: nat, len: nat): (r: set<nat>)
    ensures forall k :: k in r <==> off <= k < off + len
  {
    if len == 0 then {} else Cells(off, len - 1) + {off + len - 1}
  }

  lemma {:induction false} CellsCard(off: nat, len: nat)
    ensures |Cells(off, len)| == len
  {
    if len > 0 {
      CellsCard(off, len - 1);
    }
  }

  function Sum(rs: seq<Range>): nat {
    if rs == [] then 0 else Sum(rs[..|rs| - 1]) + rs[|rs| - 1].len
  }

  /** The bytes in any of the ranges */
  function Covered(rs: seq<Range>): set<nat> {
    if rs == [] then {} else Covered(rs[..|rs| - 1]) + Cells(rs[|rs| - 1].off, rs[|rs| - 1].len)
  }

  lemma {:induction false} CoveredMember(rs: seq<Range>, k: nat)
    ensures k in Covered(rs) <==> exists r <- rs :: r.off <= k < r.off + r.len
  {
    if rs != [] {
      var n := |rs| - 1;
      CoveredMember(rs[..n], k);
      assert rs == rs[..n] + [rs[n]];
    }
  }

  lemma {:induction false} SubsetCard(a: set<nat>, b: set<nat>)
    requires a <= b
    ensures |a| <= |b|
  {
    if a != {} {
      var x :| x in a;
      SubsetCard(a - {x}, b - {x});
    }
  }

  /** Ranges that share no byte have no more bytes together than the payload. */
  lemma {:induction false} DisjointSum(rs: seq<Range>)
    requires forall i, j | 0 <= i < j < |rs| :: !Overlap(rs[i], rs[j])
    ensures |Covered(rs)| == Sum(rs)
  {
    if rs != [] {
      var n := |rs| - 1;
      DisjointSum(rs[..n]);
      CellsCard(rs[n].off, rs[n].len);
      forall k | k in Covered(rs[..n]) ensures k !in Cells(rs[n].off, rs[n].len) {
        CoveredMember(rs[..n], k);
        var r :| r in rs[..n] && r.off <= k < r.off + r.len;
        var i :| 0 <= i < n && rs[i] == r;
        assert !Overlap(rs[i], rs[n]);
      }
      assert Covered(rs[..n]) !! Cells(rs[n].off, rs[n].len);
    }
  }

  lemma SumFits(rs: seq<Range>, size: nat)
    requires forall i, j | 0 <= i < j < |rs| :: !Overlap(rs[i], rs[j])
    requires End(rs) <= size
    ensures Sum(rs) <= size
  {
    DisjointSum(rs);
    EndBounds(rs, size);
    CellsCard(0, size);
    forall k | k in Covered(rs) ensures k in Cells(0, size) {
      CoveredMember(rs, k);
    }
    SubsetCard(Covered(rs), Cells(0, size));
  }

  // ------------------------------------------------------------------ for the client

  /** Where struct eventdev_hdr and struct anoubis_event_common keep their fields, and their sizes */
  datatype Layout = Layout(hdrSize: nat, token: Bytes -> nat, pid: Bytes -> nat, uid: Bytes -> nat,
                           source: Bytes -> nat, commonSize: nat, task: Bytes -> nat)

  /** The fields of Anoubis_NotifyMessage that tell where an event comes from */
  datatype Origin = Origin(kind: nat, token: nat, pid: nat, uid: nat, subsystem: nat, task: nat)

  /** The origin of a kernel event; a short event has no task cookie. */
  function OriginOf(kind: nat, event: Bytes, lay: Layout): Origin
    requires lay.hdrSize <= |event|
  {
    var hdr, body := event[..lay.hdrSize], event[lay.hdrSize..];
    Origin(kind, lay.token(hdr), lay.pid(hdr), lay.uid(hdr), lay.source(hdr),
           if |body| >= lay.commonSize then lay.task(body) else 0)
  }

  /** Anoubis_NotifyMessage with the ranges of its payload */
  datatype Notify = Notify(origin: Origin, ruleId: nat, prio: nat, sfsmatch: nat, error: nat, log: nat,
                           ev: Range, csum: Range, path: Range, ctxcsum: Range, ctxpath: Range, payload: Bytes)

  /** The client message carries the same data; the event goes without its header. */
  ghost predicate Carries(n: Notify, event: Bytes, csum: Bytes, path: Bytes, ctxcsum: Bytes, ctxpath: Bytes) {
    && Inside(n.ev, |n.payload|) && Part(n.payload, n.ev) == event
    && Inside(n.csum, |n.payload|) && Part(n.payload, n.csum) == csum
    && Inside(n.path, |n.payload|) && Part(n.payload, n.path) == path
    && Inside(n.ctxcsum, |n.payload|) && Part(n.payload, n.ctxcsum) == ctxcsum
    && Inside(n.ctxpath, |n.payload|) && Part(n.payload, n.ctxpath) == ctxpath
  }

  /** The calls of do_copy one after the other */
  method CopyParts(e: Bytes, a: Bytes, b: Bytes, c: Bytes, d: Bytes) returns (payload: Bytes, ranges: seq<Range>)
    ensures payload == e + a + b + c + d
    ensures ranges == [Range(0, Field16(|e|)), Range(Field16(|e|), Field16(|a|)),
                       Range(Field16(|e| + |a|), Field16(|b|)), Range(Field16(|e| + |a| + |b|), Field16(|c|)),
                       Range(Field16(|e| + |a| + |b| + |c|), Field16(|d|))]
  {
    assert Field16(0) == 0;
    hide Field16;
    var buf := new byte[|e| + |a| + |b| + |c| + |d|](_ => 0);
    var r0, off := DoCopy(buf, 0, e);
    assert buf[..off] == e;
    var r1, r2, r3, r4;
    r1, off := DoCopy(buf, off, a);
    r2, off := DoCopy(buf, off, b);
    r3, off := DoCopy(buf, off, c);
    r4, off := DoCopy(buf, off, d);
    payload, ranges := buf[..], [r0, r1, r2, r3, r4];
    assert buf[..off] == buf[..];
  }

  /**
   * eventask_to_notify for an accepted message: the length of the event is the msg_size field
   * of its header, which the size check returns.
   */
  method ToNotify(kind: nat, m: Ask, check: Bytes -> int, lay: Layout) returns (n: Notify)
    requires Acceptable(m, check) && AllInside(m)
    requires lay.hdrSize <= check(Part(m.payload, m.ev)) <= m.ev.len
    ensures var raw := Part(m.payload, m.ev); n.origin == OriginOf(kind, raw[..check(raw)], lay)
    ensures n.ruleId == m.ruleId && n.prio == m.prio && n.sfsmatch == m.sfsmatch && n.error == m.error && n.log == m.log
    ensures var raw := Part(m.payload, m.ev);
      Carries(n, raw[lay.hdrSize..check(raw)], Part(m.payload, m.csum), Part(m.payload, m.path),
              Part(m.payload, m.ctxcsum), Part(m.payload, m.ctxpath))
  {
    PartsAreSmall(m, check);
    hide Acceptable;
    hide Carries;
    hide Field16;
    var raw := Part(m.payload, m.ev);
    var hdr, ev := raw[..lay.hdrSize], raw[lay.hdrSize..check(raw)];
    assert raw[..check(raw)][..lay.hdrSize] == hdr && raw[..check(raw)][lay.hdrSize..] == ev;
    var task := 0;
    if |ev| >= lay.commonSize {
      task := lay.task(ev);
    }
    var origin := Origin(kind, lay.token(hdr), lay.pid(hdr), lay.uid(hdr), lay.source(hdr), task);
    var cs, p := Part(m.payload, m.csum), Part(m.payload, m.path);
    var ccs, cp := Part(m.payload, m.ctxcsum), Part(m.payload, m.ctxpath);
    var payload, ranges := CopyParts(ev, cs, p, ccs, cp);
    n := Notify(origin, m.ruleId, m.prio, m.sfsmatch, m.error, m.log,
                ranges[0], ranges[1], ranges[2], ranges[3], ranges[4], payload);
    CopiedParts(n, ev, cs, p, ccs, cp);
  }

  predicate AllInside(m: Ask) {
    && Inside(m.csum, |m.payload|) && Inside(m.path, |m.payload|) && Inside(m.ctxcsum, |m.payload|)
    && Inside(m.ctxpath, |m.payload|) && Inside(m.ev, |m.payload|)
  }

  /** The parts of an accepted message are inside the payload and together no longer than the size limit. */
  lemma PartsAreSmall(m: Ask, check: Bytes -> int)
    requires Acceptable(m, check)
    ensures AllInside(m)
    ensures m.csum.len + m.path.len + m.ctxcsum.len + m.ctxpath.len + m.ev.len <= SIZE_LIMIT - HEADER
  {
    var rs := Ranges(m);
    assert rs[0] == m.csum && rs[1] == m.path && rs[2] == m.ctxcsum && rs[3] == m.ctxpath && rs[4] == m.ev;
    assert m.csum in rs && m.path in rs && m.ctxcsum in rs && m.ctxpath in rs && m.ev in rs;
    SumFits(rs, End(rs));
    SumOfFive(m);
  }

  lemma SumOfFive(m: Ask)
    ensures Sum(Ranges(m)) == m.csum.len + m.path.len + m.ctxcsum.len + m.ctxpath.len + m.ev.len
  {
    var rs := Ranges(m);
    assert rs[..4][..3] == rs[..3] && rs[..3][..2] == rs[..2] && rs[..2][..1] == rs[..1] && rs[..1][..0] == [];
    assert Sum(rs[..1]) == m.csum.len;
    assert Sum(rs[..2]) == m.csum.len + m.path.len;
    assert Sum(rs[..3]) == m.csum.len + m.path.len + m.ctxcsum.len;
  }

  /** No part is so long that its length wraps. */
  predicate PartsFit16(hdr: Bytes, v: Verdict) {
    && |hdr| < 0x1_0000 && |CsumOf(v.pident)| < 0x1_0000 && |PathOf(v.pident)| < 0x1_0000
    && |CsumOf(v.ctxident)| < 0x1_0000 && |PathOf(v.ctxident)| < 0x1_0000
  }

  /** The lengths that a composed message states add up to its payload, whatever its offsets are. */
  lemma FilledLengths(hdr: Bytes, v: Verdict)
    requires Filled(hdr, v).Some? && PartsFit16(hdr, v)
    ensures var m := Filled(hdr, v).value;
      m.csum.len + m.path.len + m.ctxcsum.len + m.ctxpath.len + m.ev.len == |Payload(hdr, v)|
  {
    hide CsumOf;
    hide PathOf;
  }

  /**
   * The receiver accepts a composed message exactly if it is within the size limit: a larger
   * one is never accepted with wrapped offsets, as long as each of its parts fits a length field.
   */
  lemma AcceptedExactly(hdr: Bytes, v: Verdict, check: Bytes -> int)
    requires hdr != [] && IsSize(check(hdr)) && Filled(hdr, v).Some? && PartsFit16(hdr, v)
    ensures Acceptable(Filled(hdr, v).value, check) <==> Small(hdr, v)
  {
    if Small(hdr, v) {
      FilledIsAccepted(hdr, v, check);
    }
    if Acceptable(Filled(hdr, v).value, check) {
      PartsAreSmall(Filled(hdr, v).value, check);
      FilledLengths(hdr, v);
    }
    hide *;
  }

  lemma CopiedParts(n: Notify, e: Bytes, a: Bytes, b: Bytes, c: Bytes, d: Bytes)
    requires n.payload == e + a + b + c + d && |n.payload| < 0x1_0000
    requires n.ev == Range(0, Field16(|e|)) && n.csum == Range(Field16(|e|), Field16(|a|))
    requires n.path == Range(Field16(|e| + |a|), Field16(|b|))
             && n.ctxcsum == Range(Field16(|e| + |a| + |b|), Field16(|c|))
    requires n.ctxpath == Range(Field16(|e| + |a| + |b| + |c|), Field16(|d|))
    ensures Carries(n, e, a, b, c, d)
  {
    FiveParts(e, a, b, c, d);
    assert Field16(|e|) == |e| && Field16(|a|) == |a| && Field16(|b|) == |b| && Field16(|c|) == |c|
           && Field16(|d|) == |d|;
    assert Field16(|e| + |a|) == |e| + |a| && Field16(|e| + |a| + |b|) == |e| + |a| + |b|;
    assert Field16(|e| + |a| + |b| + |c|) == |e| + |a| + |b| + |c|;
    hide Field16;
  }

  /** What the receiver knows about a composed message */
  lemma FilledFacts(hdr: Bytes, v: Verdict, check: Bytes -> int)
    requires hdr != [] && check(hdr) == |hdr| && Small(hdr, v)
    ensures Filled(hdr, v).Some?
    ensures var m := Filled(hdr, v).value;
      && Acceptable(m, check) && AllInside(m) && m.ev.len == |hdr|
      && Part(m.payload, m.ev) == hdr
      && Part(m.payload, m.csum) == CsumOf(v.pident) && Part(m.payload, m.path) == PathOf(v.pident)
      && Part(m.payload, m.ctxcsum) == CsumOf(v.ctxident) && Part(m.payload, m.ctxpath) == PathOf(v.ctxident)
      && m.ruleId == v.ruleId && m.prio == v.prio && m.sfsmatch == v.sfsmatch
      && m.error == (if v.ask then 0 else v.reply) && m.log == v.log
  {
    assert |hdr| <= |Payload(hdr, v)|;
    FilledIsAccepted(hdr, v, check);
    FilledContents(hdr, v);
    FilledParts(hdr, v);
    PartsAreSmall(Filled(hdr, v).value, check);
    hide Acceptable;
    hide CsumOf;
    hide PathOf;
    hide Payload;
    hide Ranges;
    hide Part;
  }

  /** From the policy engine over the receiver's size check to the client message; None if the message is dropped. */
  method Escalate(kind: nat, hdr: Bytes, v: Verdict, check: Bytes -> int, lay: Layout) returns (n: Option<Notify>)
    requires hdr != [] && check(hdr) == |hdr| && lay.hdrSize <= |hdr| && Small(hdr, v)
    ensures n.Some? && n.value.origin == OriginOf(kind, hdr, lay)
    ensures Carries(n.value, hdr[lay.hdrSize..], CsumOf(v.pident), PathOf(v.pident), CsumOf(v.ctxident),
            PathOf(v.ctxident))
    ensures n.value.ruleId == v.ruleId && n.value.prio == v.prio && n.value.sfsmatch == v.sfsmatch
            && n.value.error == (if v.ask then 0 else v.reply) && n.value.log == v.log
  {
    hide *;
    FilledFacts(hdr, v, check);
    var m := Fill(hdr, v);
    var size := EventAskSize(m.value, check);
    if size < 0 {
      return None;
    }
    var notify := ToNotify(kind, m.value, check, lay);
    assert hdr[lay.hdrSize..|hdr|] == hdr[lay.hdrSize..] && hdr[..|hdr|] == hdr;
    return Some(notify);
  }
}

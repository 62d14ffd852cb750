/** Size checks of checksum requests from the session engine (amsg_verify.c). */
module CsumVerify {
  import opened Basics

  /** Room for the checksum that ends every protocol message */
  const CSUM_LEN: int := 4

  const P_CSMULTIREQUEST: int := 0x3110
  const OP_ADDSUM: int := 0x0005
  const OP_ADDSIG: int := 0x0008

  /** Sizes of the fixed parts of the messages */
  const MULTI_HEADER: nat := 16
  const RECORD_HEADER: nat := 8
  const REQUEST_HEADER: nat := 18
  const ADD_HEADER: nat := 20

  /** Fields are in network byte order. */
  function U16(b: Bytes, p: nat): (r: int)
    requires p + 2 <= |b|
    ensures 0 <= r < 0x1_0000
  {
    0x100 * (b[p] as int) + b[p + 1] as int
  }

  function U32(b: Bytes, p: nat): (r: int)
    requires p + 4 <= |b|
    ensures 0 <= r < 0x1_0000_0000
  {
    0x1_0000 * U16(b, p) + U16(b, p + 2)
  }

  /** A field of 32 bits assigned to an int */
  function Int32(b: Bytes, p: nat): (r: int)
    requires p + 4 <= |b|
  {
    if U32(b, p) >= 0x8000_0000 then U32(b, p) - 0x1_0000_0000 else U32(b, p)
  }

  predicate IsSize(v: int) {
    0 <= v <= SIZE_LIMIT
  }

  // ------------------------------------------------------------------ what is accepted

  /** A NUL byte ends a string in b[from..til]. */
  predicate HasNul(b: Bytes, from: nat, til: nat)
    requires til <= |b|
  {
    exists k :: from <= k < til && b[k] == 0
  }

  /** The length of the string at a position, with its NUL byte */
  function StringSize(b: Bytes, from: nat, til: nat): (r: nat)
    requires from <= til <= |b| && HasNul(b, from, til)
    ensures 0 < r <= til - from && b[from + r - 1] == 0 && forall k | from <= k < from + r - 1 :: b[k] != 0
    decreases til - from
  {
    if b[from] == 0 then 1 else 1 + StringSize(b, from + 1, til)
  }

  /** A record of n bytes holds its checksum data and its path. */
  predicate RecordOk(b: Bytes, p: nat, n: int)
    requires p <= |b| && n <= |b| - p
  {
    && n >= RECORD_HEADER
    && var from := p + RECORD_HEADER + U16(b, p + 6);
       from < p + n && p + n - from < SIZE_LIMIT && HasNul(b, from, p + n)
  }

  /** The size of a good record: its header, the checksum data and the path with its NUL byte */
  function RecordLen(b: Bytes, p: nat, n: int): int
    requires p <= |b| && n <= |b| - p && RecordOk(b, p, n)
  {
    var cslen := U16(b, p + 6);
    RECORD_HEADER + cslen + StringSize(b, p + RECORD_HEADER + cslen, p + n)
  }

  /** The records from p on fill the payload up to a record of length zero; the result is the end of that record. */
  function RecordsEnd(b: Bytes, p: nat, end: nat): (r: Option<nat>)
    requires p <= end <= |b|
    ensures r.Some? ==> p < r.value <= end
    decreases end - p
  {
    if end - p < RECORD_HEADER then None
    else
      var n := Int32(b, p);
      if n == 0 then Some(p + RECORD_HEADER)
      else if n > end - p || !RecordOk(b, p, n) then None
      else RecordsEnd(b, p + n, end)
  }

  /** The end of a request for several checksums */
  function MultiEnd(b: Bytes, end: nat): Option<nat>
    requires end <= |b|
  {
    if end < MULTI_HEADER then None
    else
      var idlen, recoff := U16(b, 12), U16(b, 14);
      if recoff < idlen || end - MULTI_HEADER < recoff then None else RecordsEnd(b, MULTI_HEADER + recoff, end)
  }

  /** The end of a request for one checksum: header, key id, checksum data and path */
  function SingleEnd(b: Bytes, end: nat): Option<nat>
    requires end <= |b|
  {
    if end < REQUEST_HEADER then None
    else
      var add := Int32(b, 4) == OP_ADDSUM || Int32(b, 4) == OP_ADDSIG;
      if add && (end < ADD_HEADER || U16(b, 18) < CS_LEN) then None
      else
        var from := (if add then ADD_HEADER + U16(b, 18) else REQUEST_HEADER) + U16(b, 16);
        if from >= end || end - from >= SIZE_LIMIT || !HasNul(b, from, end) then None
        else Some(from + StringSize(b, from, end))
  }

  /** The accepted size of a request, or -1 */
  function AcceptedSize(b: Bytes): int {
    if |b| < CSUM_LEN + 4 then -1
    else
      var end := |b| - CSUM_LEN;
      var e := if Int32(b, 0) == P_CSMULTIREQUEST then MultiEnd(b, end) else SingleEnd(b, end);
      if e.None? || e.value + CSUM_LEN > SIZE_LIMIT then -1 else e.value + CSUM_LEN
  }

  // ------------------------------------------------------------------ tiling

  /** An acceptable record starts at p, and the next one at q. */
  ghost predicate RecordAt(b: Bytes, end: nat, p: nat, q: nat)
    requires end <= |b|
  {
    p + RECORD_HEADER <= end
    && var n := Int32(b, p);
       n != 0 && n <= end - p && RecordOk(b, p, n) && q == p + n
  }

  /** Offsets of consecutive records, the last of which has length zero. */
  ghost predicate Tiling(b: Bytes, start: nat, end: nat, offs: seq<nat>)
    requires end <= |b|
  {
    && offs != [] && offs[0] == start
    && (forall k | 0 <= k < |offs| - 1 :: RecordAt(b, end, offs[k], offs[k + 1]))
    && offs[|offs| - 1] + RECORD_HEADER <= end && Int32(b, offs[|offs| - 1]) == 0
  }

  /** Records are accepted exactly if they tile the payload up to the record of length zero. */
  lemma {:induction false} AcceptedTiles(b: Bytes, p: nat, end: nat, fin: nat)
    requires p <= end <= |b|
    ensures RecordsEnd(b, p, end) == Some(fin) <==>
              exists offs :: Tiling(b, p, end, offs) && fin == offs[|offs| - 1] + RECORD_HEADER
    decreases end - p
  {
    if RecordsEnd(b, p, end) == Some(fin) {
      var offs := TilingOf(b, p, end);
    }
    if offs :| Tiling(b, p, end, offs) && fin == offs[|offs| - 1] + RECORD_HEADER {
      TilingEnd(b, p, end, offs);
    }
  }

  lemma {:induction false} TilingOf(b: Bytes, p: nat, end: nat) returns (offs: seq<nat>)
    requires p <= end <= |b| && RecordsEnd(b, p, end).Some?
    ensures Tiling(b, p, end, offs) && RecordsEnd(b, p, end) == Some(offs[|offs| - 1] + RECORD_HEADER)
    decreases end - p
  {
    var n := Int32(b, p);
    if n == 0 {
      offs := [p];
    } else {
      var rest := TilingOf(b, p + n, end);
      assert RecordAt(b, end, p, rest[0]);
      hide RecordAt;
      offs := [p] + rest;
      forall k | 0 <= k < |offs| - 1 ensures RecordAt(b, end, offs[k], offs[k + 1]) {
        assert k > 0 ==> offs[k] == rest[k - 1];
      }
    }
  }

  lemma {:induction false} TilingEnd(b: Bytes, p: nat, end: nat, offs: seq<nat>)
    requires p <= end <= |b| && Tiling(b, p, end, offs)
    ensures RecordsEnd(b, p, end) == Some(offs[|offs| - 1] + RECORD_HEADER)
    decreases |offs|
  {
    if |offs| > 1 {
      assert RecordAt(b, end, offs[0], offs[1]);
      assert Tiling(b, offs[1], end, offs[1..]) by {
        hide RecordAt;
        assert forall k | 0 <= k < |offs| - 1 :: offs[1..][k] == offs[k + 1];
      }
      TilingEnd(b, offs[1], end, offs[1..]);
    }
  }

  // ------------------------------------------------------------------ the checks as they run

  /** SHIFT_STRING: skip a string; None stands for return -1. */
  method ShiftString(b: Bytes, pos: nat, left: int, size: int) returns (n: Option<int>)
    requires 0 <= size && pos + left <= |b|
    ensures n.None? <==> left < 1 || left >= SIZE_LIMIT || !HasNul(b, pos, pos + left)
                         || !IsSize(size + StringSize(b, pos, pos + left))
    ensures n.Some? ==> n.value == StringSize(b, pos, pos + left)
  {
    if left < 1 || left >= SIZE_LIMIT { return None; }
    var i := 0;
    while i < left && b[pos + i] != 0
      invariant 0 <= i <= left && forall k | pos <= k < pos + i :: b[k] != 0
    {
      i := i + 1;
    }
    if i >= left { return None; }
    assert b[pos + i] == 0;
    i := i + 1;
    ghost var s := StringSize(b, pos, pos + left);
    assert s == i;
    if !IsSize(i) || !IsSize(size + i) { return None; }
    return Some(i);
  }

  /** amsg_csmulti_request_record_size: the size of the record at pos if it is at most len bytes long, or -1 */
  method RecordSize(b: Bytes, pos: nat, len: int) returns (r: int)
    requires pos <= |b| && pos + len <= |b|
    ensures r >= 0 ==> RecordOk(b, pos, len) && r <= len && r == RecordLen(b, pos, len)
    ensures len <= SIZE_LIMIT && RecordOk(b, pos, len) ==> r >= 0
  {
    var left, size, p := len, 0, pos;
    if RECORD_HEADER > left { return -1; }
    // SHIFT_FIELD
    left, p, size := left - RECORD_HEADER, p + RECORD_HEADER, size + RECORD_HEADER;
    // SHIFT_CNT
    var cslen := U16(b, pos + 6);
    if left < cslen { return -1; }
    left, p := left - cslen, p + cslen;
    if !IsSize(cslen) || !IsSize(size + cslen) { return -1; }
    size := size + cslen;
    var n := ShiftString(b, p, left, size);
    if n.None? { return -1; }
    size := size + n.value;
    return if IsSize(size) then size else -1;
  }

  /** The record loop of amsg_sfs_checksumop_size: left bytes from pos on, size bytes before */
  method Records(b: Bytes, start: nat, end: nat, before: int) returns (r: Option<nat>)
    requires start <= end <= |b| && 0 <= before <= SIZE_LIMIT && before == start + CSUM_LEN
    ensures r == if RecordsEnd(b, start, end).Some? && RecordsEnd(b, start, end).value + CSUM_LEN <= SIZE_LIMIT
                 then RecordsEnd(b, start, end) else None
  {
    var pos, left, size := start, end - start, before;
    while true
      invariant start <= pos <= end && left == end - pos && size == pos + CSUM_LEN && IsSize(size)
      invariant RecordsEnd(b, start, end) == RecordsEnd(b, pos, end)
      decreases left
    {
      if RECORD_HEADER > left { return None; }
      var reclen := Int32(b, pos);
      if reclen == 0 { break; }
      if reclen > left { return None; }
      var reallen := RecordSize(b, pos, reclen);
      if reallen < 0 || reallen > reclen {
        LongRecord(b, pos, end);
        return None;
      }
      // SHIFT_CNT
      if reclen < 0 || left < reclen || !IsSize(reclen) || !IsSize(size + reclen) {
        LongRecord(b, pos, end);
        return None;
      }
      pos, left, size := pos + reclen, left - reclen, size + reclen;
    }
    if left < RECORD_HEADER || !IsSize(size + RECORD_HEADER) { return None; }
    return Some(pos + RECORD_HEADER);
  }

  /** The records end behind their first record. */
  lemma LongRecord(b: Bytes, pos: nat, end: nat)
    requires pos <= end <= |b|
    ensures RecordsEnd(b, pos, end).Some? && Int32(b, pos) != 0 ==> RecordsEnd(b, pos, end).value > pos + Int32(b, pos)
  {
  }

  /** The branch for a request for several checksums */
  method MultiSize(b: Bytes, end: nat) returns (r: int)
    requires end == |b| - CSUM_LEN
    ensures r == if MultiEnd(b, end).Some? && MultiEnd(b, end).value + CSUM_LEN <= SIZE_LIMIT
                 then MultiEnd(b, end).value + CSUM_LEN else -1
  {
    var left, size := end, CSUM_LEN;
    if MULTI_HEADER > left { return -1; }
    var recoff, idlen := U16(b, 14), U16(b, 12);
    // SHIFT_FIELD
    left, size := left - MULTI_HEADER, size + MULTI_HEADER;
    if recoff < idlen { return -1; }
    // SHIFT_CNT
    if left < recoff { return -1; }
    if !IsSize(recoff) || !IsSize(size + recoff) { return -1; }
    size := size + recoff;
    var e := Records(b, MULTI_HEADER + recoff, end, size);
    if e.None? { return -1; }
    return e.value + CSUM_LEN;
  }

  /** The branch for a request for one checksum */
  method SingleSize(b: Bytes, end: nat) returns (r: int)
    requires end == |b| - CSUM_LEN
    ensures r == if SingleEnd(b, end).Some? && SingleEnd(b, end).value + CSUM_LEN <= SIZE_LIMIT
                 then SingleEnd(b, end).value + CSUM_LEN else -1
  {
    var pos, left, size, cslen := 0, end, CSUM_LEN, 0;
    if REQUEST_HEADER > left { return -1; }
    var op := Int32(b, 4);
    if op == OP_ADDSUM || op == OP_ADDSIG {
      if ADD_HEADER > left { return -1; }
      cslen := U16(b, 18);
      if cslen < CS_LEN { return -1; }
      pos, left, size := ADD_HEADER, left - ADD_HEADER, size + ADD_HEADER;
    } else {
      pos, left, size := REQUEST_HEADER, left - REQUEST_HEADER, size + REQUEST_HEADER;
    }
    var idlen := U16(b, 16);
    if left < idlen || !IsSize(idlen) || !IsSize(size + idlen) { return -1; }
    pos, left, size := pos + idlen, left - idlen, size + idlen;
    if left < cslen || !IsSize(cslen) || !IsSize(size + cslen) { return -1; }
    pos, left, size := pos + cslen, left - cslen, size + cslen;
    var n := ShiftString(b, pos, left, size);
    if n.None? { return -1; }
    return size + n.value;
  }

  /** amsg_sfs_checksumop_size: every byte string is either rejected or has exactly this size. */
  method ChecksumopSize(b: Bytes) returns (r: int)
    ensures r == AcceptedSize(b)
    ensures r >= 0 ==> CSUM_LEN < r <= |b| && r <= SIZE_LIMIT
  {
    // POP_CNT
    if |b| < CSUM_LEN { return -1; }
    var end := |b| - CSUM_LEN;
    if 4 > end { return -1; }
    if Int32(b, 0) == P_CSMULTIREQUEST {
      r := MultiSize(b, end);
    } else {
      r := SingleSize(b, end);
    }
  }

  /** A request for several checksums is accepted exactly if its records tile the payload and it is not too large. */
  lemma MultiAccepted(b: Bytes)
    requires |b| >= CSUM_LEN + MULTI_HEADER && Int32(b, 0) == P_CSMULTIREQUEST
    ensures var end := |b| - CSUM_LEN; var start := MULTI_HEADER + U16(b, 14);
      AcceptedSize(b) >= 0 <==>
        && U16(b, 12) <= U16(b, 14) && start <= end
        && exists offs :: Tiling(b, start, end, offs) && offs[|offs| - 1] + RECORD_HEADER + CSUM_LEN <= SIZE_LIMIT
  {
    var end, start := |b| - CSUM_LEN, MULTI_HEADER + U16(b, 14);
    hide RecordOk;
    if start <= end {
      if RecordsEnd(b, start, end).Some? {
        var offs := TilingOf(b, start, end);
        assert Tiling(b, start, end, offs);
      }
      if offs :| Tiling(b, start, end, offs) && offs[|offs| - 1] + RECORD_HEADER + CSUM_LEN <= SIZE_LIMIT {
        TilingEnd(b, start, end, offs);
      }
    }
  }

  /** Whether a request for one checksum brings checksum data */
  predicate Adds(b: Bytes)
    requires |b| >= 8
  {
    Int32(b, 4) == OP_ADDSUM || Int32(b, 4) == OP_ADDSIG
  }

  function HeaderOf(b: Bytes): nat
    requires |b| >= 8
  {
    if Adds(b) then ADD_HEADER else REQUEST_HEADER
  }

  /** A request for one checksum begins with a header, a key id, checksum data and a path with its NUL byte. */
  predicate Parts(b: Bytes, id: Bytes, sum: Bytes, path: Bytes)
    requires |b| >= CSUM_LEN + REQUEST_HEADER
  {
    var h := HeaderOf(b);
    && h <= |b| - CSUM_LEN
    && |id| == U16(b, 16)
    && (if Adds(b) then CS_LEN <= |sum| == U16(b, 18) else sum == [])
    && 0 !in path
    && b[..h] + id + sum + (path + [0]) <= b[..|b| - CSUM_LEN]
  }

  /** The size of the parts is within the limit, and so is all that is left behind the checksum data. */
  predicate PartsFit(b: Bytes, id: Bytes, sum: Bytes, path: Bytes, size: nat)
    requires |b| >= CSUM_LEN + REQUEST_HEADER
  {
    && size == HeaderOf(b) + |id| + |sum| + |path| + 1 + CSUM_LEN
    && size <= SIZE_LIMIT && |b| - (size - |path| - 1) < SIZE_LIMIT
  }

  /**
   * A request for one checksum is accepted exactly if its four parts lie behind each other in front of the
   * checksum of the message, and the accepted size is theirs; what follows the path is not looked at.
   */
  lemma SingleAccepted(b: Bytes, size: nat)
    requires |b| >= CSUM_LEN + REQUEST_HEADER && Int32(b, 0) != P_CSMULTIREQUEST
    ensures AcceptedSize(b) == size <==>
            exists id, sum, path :: Parts(b, id, sum, path) && PartsFit(b, id, sum, path, size)
  {
    if AcceptedSize(b) == size {
      var id, sum, path := PartsOf(b);
      assert Parts(b, id, sum, path) && PartsFit(b, id, sum, path, size);
    }
    hide Parts;
    hide PartsFit;
    hide AcceptedSize;
    if id, sum, path :| Parts(b, id, sum, path) && PartsFit(b, id, sum, path, size) {
      PartsAccepted(b, id, sum, path, size);
    }
  }

  lemma PartsOf(b: Bytes) returns (id: Bytes, sum: Bytes, path: Bytes)
    requires |b| >= CSUM_LEN + REQUEST_HEADER && Int32(b, 0) != P_CSMULTIREQUEST && AcceptedSize(b) >= 0
    ensures Parts(b, id, sum, path) && PartsFit(b, id, sum, path, AcceptedSize(b))
  {
    hide Int32;
    hide U16;
    var end, h := |b| - CSUM_LEN, HeaderOf(b);
    var i := h + U16(b, 16);
    var f := if Adds(b) then i + U16(b, 18) else i;
    var n := StringSize(b, f, end);
    id, sum, path := b[h..i], b[i..f], b[f..f + n - 1];
    Joined(b, h, i, f, f + n - 1);
    hide StringSize;
  }

  lemma Joined(b: Bytes, h: nat, i: nat, f: nat, t: nat)
    requires h <= i <= f <= t < |b| && b[t] == 0
    ensures b[..h] + b[h..i] + b[i..f] + (b[f..t] + [0]) == b[..t + 1]
  {
    assert b[..h] + b[h..i] == b[..i];
    assert b[..i] + b[i..f] == b[..f];
    assert b[f..t] + [0] == b[f..t + 1];
    assert b[..f] + b[f..t + 1] == b[..t + 1];
  }

  lemma PartsAccepted(b: Bytes, id: Bytes, sum: Bytes, path: Bytes, size: nat)
    requires |b| >= CSUM_LEN + REQUEST_HEADER && Int32(b, 0) != P_CSMULTIREQUEST
    requires Parts(b, id, sum, path) && PartsFit(b, id, sum, path, size)
    ensures AcceptedSize(b) == size
  {
    hide Int32;
    hide U16;
    PathIs(b, b[..HeaderOf(b)] + id + sum, path, |b| - CSUM_LEN);
    hide HasNul;
  }

  lemma PathIs(b: Bytes, front: Bytes, path: Bytes, end: nat)
    requires end <= |b| && 0 !in path && front + (path + [0]) <= b[..end]
    ensures |front| + |path| < end && HasNul(b, |front|, end) && StringSize(b, |front|, end) == |path| + 1
  {
    var whole := front + (path + [0]);
    assert whole[|front| + |path|] == 0 && b[|front| + |path|] == 0;
    forall k | |front| <= k < |front| + |path| ensures b[k] != 0 {
      assert b[k] == whole[k] == path[k - |front|];
    }
  }
}

/** The checksum cache of the policy engine (pe_sfscache.c). */
module SfsCache {
  import opened Basics

  /** SFSHASH_NRENTRY and SFSHASH_MAX */
  const SLOTS: nat := 8192
  const MAX_ENTRIES: nat := 4 * SLOTS

  /** Whose checksum: that of a user, or that of a key given by a string of hex digits. */
  datatype Who = ByUid(uid: Uid) | ByKey(key: Bytes)

  // ------------------------------------------------------------------ hex strings

  /** tolower in the C locale */
  function ToLower(c: byte): byte {
    if 65 <= c <= 90 then c + 32 else c
  }

  function Lower(s: Bytes): (r: Bytes)
    ensures |r| == |s| && forall k | 0 <= k < |s| :: r[k] == ToLower(s[k])
  {
    seq(|s|, k requires 0 <= k < |s| => ToLower(s[k]))
  }

  /** chartohex */
  function HexValue(c: byte): int {
    if 48 <= c <= 57 then c as int - 48
    else if 65 <= c <= 70 then c as int - 55
    else if 97 <= c <= 102 then c as int - 87
    else -1
  }

  function HexDigit(n: byte): byte
    requires n < 16
  {
    if n < 10 then 48 + n else 87 + n
  }

  /** abuf_convert_tohexstr */
  function Hex(keyid: Bytes): (r: Bytes)
    ensures |r| == 2 * |keyid|
  {
    if keyid == [] then []
    else [HexDigit(keyid[0] / 16), HexDigit(keyid[0] % 16)] + Hex(keyid[1..])
  }

  /** The byte for two hex digits, or -1 */
  function Pair(a: byte, b: byte): (r: int)
    ensures -1 <= r < 256
  {
    if HexValue(a) < 0 || HexValue(b) < 0 then -1 else 16 * HexValue(a) + HexValue(b)
  }

  /** The decoding of a key in sfshash_readsum; None if it is not a string of pairs of hex digits. */
  function Decode(key: Bytes): (r: Option<Bytes>)
    ensures r.Some? ==> |key| == 2 * |r.value|
  {
    if key == [] then Some([])
    else if |key| == 1 || Pair(key[0], key[1]) < 0 then None
    else Prepend([Pair(key[0], key[1]) as byte], Decode(key[2..]))
  }

  function Prepend(front: Bytes, rest: Option<Bytes>): (r: Option<Bytes>)
    ensures front == [] ==> r == rest
    ensures rest == Some([]) ==> r == Some(front)
  {
    if rest.None? then None
    else
      assert front == [] ==> front + rest.value == rest.value;
      assert rest.value == [] ==> front + rest.value == front;
      Some(front + rest.value)
  }

  /** The loop that decodes a key. */
  method DecodeKey(key: Bytes) returns (r: Option<Bytes>)
    ensures r == Decode(key)
  {
    if |key| % 2 == 1 {
      return None;
    }
    var len := |key| / 2;
    assert key[2 * 0..] == key;
    var id: Bytes := [];
    for i := 0 to len
      invariant Decode(key) == Prepend(id, Decode(key[2 * i..]))
    {
      var c := Pair(key[2 * i], key[2 * i + 1]);
      assert key[2 * i..][2..] == key[2 * (i + 1)..];
      if c < 0 {
        return None;
      }
      ghost var rest := Decode(key[2 * (i + 1)..]);
      assert rest.Some? ==> id + ([c as byte] + rest.value) == (id + [c as byte]) + rest.value;
      id := id + [c as byte];
    }
    return Some(id);
  }

  /** A spelling decodes to a key id exactly if it is the canonical spelling up to case. */
  lemma {:induction false} DecodeLower(key: Bytes, keyid: Bytes)
    ensures Decode(key) == Some(keyid) <==> Lower(key) == Hex(keyid)
  {
    if |key| != 2 * |keyid| {
      assert |Lower(key)| != |Hex(keyid)|;
    } else if key != [] {
      DecodeLower(key[2..], keyid[1..]);
      PairLower(key[0], key[1], keyid[0]);
      LowerPair(key);
      assert Decode(key) == Some(keyid)
             <==> Pair(key[0], key[1]) == keyid[0] as int && Decode(key[2..]) == Some(keyid[1..]) by {
        assert keyid == [keyid[0]] + keyid[1..];
      }
      SamePair(ToLower(key[0]), ToLower(key[1]), Lower(key[2..]), HexDigit(keyid[0] / 16), HexDigit(keyid[0] % 16),
          Hex(keyid[1..]));
    }
  }

  lemma {:induction false} LowerHex(keyid: Bytes)
    ensures Lower(Hex(keyid)) == Hex(keyid)
  {
    if keyid != [] {
      LowerHex(keyid[1..]);
      var h := Hex(keyid);
      assert h[2..] == Hex(keyid[1..]);
      assert h == h[..2] + h[2..];
      forall k | 0 <= k < |h| ensures ToLower(h[k]) == h[k] {
        if k >= 2 {
          assert h[k] == h[2..][k - 2] == Lower(h[2..])[k - 2];
        }
      }
    }
  }

  /** Encoding and decoding a key id is the identity. */
  lemma DecodeHex(keyid: Bytes)
    ensures Decode(Hex(keyid)) == Some(keyid)
  {
    LowerHex(keyid);
    DecodeLower(Hex(keyid), keyid);
  }

  lemma LowerPair(key: Bytes)
    requires |key| >= 2
    ensures Lower(key) == [ToLower(key[0]), ToLower(key[1])] + Lower(key[2..])
  {
  }

  lemma SamePair(a: byte, b: byte, s: Bytes, c: byte, d: byte, t: Bytes)
    ensures [a, b] + s == [c, d] + t <==> a == c && b == d && s == t
  {
    var x, y := [a, b] + s, [c, d] + t;
    assert x[0] == a && x[1] == b && x[2..] == s && y[0] == c && y[1] == d && y[2..] == t;
  }

  lemma PairLower(a: byte, b: byte, v: byte)
    ensures Pair(a, b) == v as int <==> ToLower(a) == HexDigit(v / 16) && ToLower(b) == HexDigit(v % 16)
  {
    DigitLower(a, v / 16);
    DigitLower(b, v % 16);
  }

  lemma DigitLower(a: byte, d: byte)
    requires d < 16
    ensures HexValue(a) == d as int <==> ToLower(a) == HexDigit(d)
  {
  }

  // ------------------------------------------------------------------ hash function

  /** A char is signed: the conversion to unsigned long extends the sign. */
  function Widen(c: byte): bv64 {
    if c < 128 then c as bv64 else (c as bv64) | 0xFFFF_FFFF_FFFF_FF00
  }

  function Mix(h: bv64, c: byte): (r: bv64)
    ensures r <= 0x1FFF
  {
    var x := (h << 1) ^ Widen(ToLower(c));
    (x ^ (x >> 13)) & 0x1FFF
  }

  function HashBytes(h: bv64, s: Bytes): (r: bv64)
    requires h <= 0x1FFF
    ensures r <= 0x1FFF
  {
    if s == [] then h else Mix(HashBytes(h, s[..|s| - 1]), s[|s| - 1])
  }

  function UidBits(uid: Uid): (r: bv64)
    ensures r <= 0x1FFF
  {
    ((uid % SLOTS) as bv64) & 0x1FFF
  }

  function HashOf(path: Path, who: Who): (r: bv64)
    ensures r <= 0x1FFF
  {
    match who
    case ByUid(uid) => HashBytes(UidBits(uid), path)
    case ByKey(key) => HashBytes(HashBytes(UidBits(NO_UID), path), key)
  }

  function SlotOf(path: Path, who: Who): (r: nat)
    ensures r < SLOTS
  {
    var h := HashOf(path, who);
    h as nat
  }

  /** sfshash_fn */
  method HashFn(path: Path, who: Who) returns (slot: nat)
    ensures slot == SlotOf(path, who)
  {
    var h := match who case ByUid(uid) => UidBits(uid) case ByKey(_) => UidBits(NO_UID);
    var start := h;
    for i := 0 to |path|
      invariant h == HashBytes(start, path[..i])
    {
      assert path[..i + 1][..i] == path[..i];
      h := Mix(h, path[i]);
    }
    assert path[..|path|] == path;
    if who.ByKey? {
      start := h;
      for i := 0 to |who.key|
        invariant h == HashBytes(start, who.key[..i])
      {
        assert who.key[..i + 1][..i] == who.key[..i];
        h := Mix(h, who.key[i]);
      }
      assert who.key[..|who.key|] == who.key;
    }
    slot := h as nat;
  }

  lemma MixIgnoresCase(h: bv64, a: byte, b: byte)
    requires ToLower(a) == ToLower(b)
    ensures Mix(h, a) == Mix(h, b)
  {
  }

  lemma {:induction false} HashIgnoresCase(h: bv64, a: Bytes, b: Bytes)
    requires h <= 0x1FFF && Lower(a) == Lower(b)
    ensures HashBytes(h, a) == HashBytes(h, b)
  {
    hide Mix;
    hide ToLower;
    if a != [] {
      var n := |a| - 1;
      assert |Lower(a)| == |Lower(b)| && ToLower(a[n]) == Lower(a)[n] == Lower(b)[n] == ToLower(b[n]);
      forall k | 0 <= k < n ensures Lower(a[..n])[k] == Lower(b[..n])[k] {
        assert Lower(a)[k] == Lower(b)[k];
      }
      assert Lower(a[..n]) == Lower(b[..n]);
      HashIgnoresCase(h, a[..n], b[..n]);
      MixIgnoresCase(HashBytes(h, a[..n]), a[n], b[n]);
    }
  }

  // ------------------------------------------------------------------ the cache as a value

  /** A cached answer; None is a negative entry. */
  datatype Entry = Entry(path: Path, who: Who, value: Option<Bytes>)

  /** The entries in the order of their last use, oldest first. */
  type Cache = seq<Entry>

  /** User ids are compared as numbers, keys with strcasecmp. */
  predicate SameWho(a: Who, b: Who) {
    match a
    case ByUid(u) => b == ByUid(u)
    case ByKey(k) => b.ByKey? && Lower(k) == Lower(b.key)
  }

  predicate Matches(e: Entry, path: Path, who: Who) {
    e.path == path && SameWho(e.who, who)
  }

  /** Entries that match the same request live in the same slot. */
  lemma SameSlot(path: Path, a: Who, b: Who)
    requires SameWho(a, b)
    ensures SlotOf(path, a) == SlotOf(path, b)
  {
    if a.ByKey? {
      HashIgnoresCase(HashBytes(UidBits(NO_UID), path), a.key, b.key);
    }
  }

  /** No two entries match the same request, and the cache is not too large. */
  ghost predicate CacheOk(c: Cache) {
    && |c| <= MAX_ENTRIES
    && forall j, k | 0 <= j < k < |c| :: !Matches(c[j], c[k].path, c[k].who)
  }

  function Locate(c: Cache, path: Path, who: Who): (r: Option<nat>)
    ensures r.Some? ==> r.value < |c| && Matches(c[r.value], path, who)
                        && forall k | 0 <= k < r.value :: !Matches(c[k], path, who)
    ensures r.None? ==> forall k | 0 <= k < |c| :: !Matches(c[k], path, who)
  {
    if c == [] then None
    else
      var n := |c| - 1;
      var f := Locate(c[..n], path, who);
      if f.Some? then f else if Matches(c[n], path, who) then Some(n) else None
  }

  function Drop(c: Cache, k: nat): Cache
    requires k < |c|
  {
    c[..k] + c[k + 1..]
  }

  /** sfshash_touch */
  function Touch(c: Cache, k: nat): Cache
    requires k < |c|
  {
    Drop(c, k) + [c[k]]
  }

  /** What is left when the oldest elements are evicted */
  function Newest<T>(s: seq<T>): seq<T> {
    if |s| > MAX_ENTRIES then s[|s| - MAX_ENTRIES..] else s
  }

  /** sfshash_insert_entry: the oldest entries give way. */
  function Add(c: Cache, e: Entry): Cache {
    Newest(c + [e])
  }

  /** sfshash_invalidate_uid and sfshash_invalidate_key */
  function Invalidate(c: Cache, path: Path, who: Who): Cache {
    match Locate(c, path, who)
    case None => c
    case Some(k) => Drop(c, k)
  }

  /** What sfs_checksumop_chroot answers for a file. */
  datatype DiskAnswer = Found(data: Bytes) | NotFound | Failed

  datatype Answer = Sum(sum: Bytes) | Missing | Error

  /** The answer that an entry stands for */
  function Cached(e: Entry): Answer {
    match e.value case None => Missing case Some(s) => Sum(s)
  }

  /** sfshash_readsum, given the answer for the path and user or decoded key. */
  function ReadSum(who: Who, disk: DiskAnswer): Answer {
    if who.ByKey? && Decode(who.key).None? then Missing
    else if who.ByKey? && who.key == [] then Error
    else
      match disk
      case Failed => Error
      case NotFound => Missing
      case Found(data) => if |data| < CS_LEN then Missing else Sum(data[..CS_LEN])
  }

  /** The answer that the bytes stored for a request call for; None if nothing is stored. */
  predicate AnswerOf(stored: Option<Bytes>, r: Answer) {
    if stored.Some? && |stored.value| >= CS_LEN then r == Sum(stored.value[..CS_LEN]) else r == Missing
  }

  /** The answer to a request that is not cached: a key must be the spelling of some key id, and not empty. */
  ghost predicate Reads(who: Who, disk: DiskAnswer, r: Answer) {
    if who.ByKey? && forall id :: Hex(id) != Lower(who.key) then r == Missing
    else if who == ByKey([]) || disk.Failed? then r == Error
    else AnswerOf(if disk.Found? then Some(disk.data) else None, r)
  }

  lemma ReadsExactly(who: Who, disk: DiskAnswer, r: Answer)
    ensures r == ReadSum(who, disk) <==> Reads(who, disk, r)
  {
    if who.ByKey? {
      forall id ensures Decode(who.key) == Some(id) <==> Hex(id) == Lower(who.key) {
        DecodeLower(who.key, id);
      }
    }
    hide Decode;
    hide Hex;
  }

  /** sfshash_get_uid and sfshash_get_key */
  function Fetch(c: Cache, path: Path, who: Who, disk: DiskAnswer): (Answer, Cache) {
    match Locate(c, path, who)
    case Some(k) =>
      (Cached(c[k]), Touch(c, k))
    case None =>
      match ReadSum(who, disk)
      case Sum(s) => (Sum(s), Add(c, Entry(path, who, Some(s))))
      case Missing => (Missing, Add(c, Entry(path, who, None)))
      case Error => (Error, c)
  }

  /** A cached request is answered from the entry that matches it. */
  lemma CachedAnswer(c: Cache, path: Path, who: Who)
    requires CacheOk(c)
    ensures (forall e <- c :: !Matches(e, path, who)) <==> Locate(c, path, who).None?
    ensures forall e <- c | Matches(e, path, who) :: Locate(c, path, who).Some? && c[Locate(c, path, who).value] == e
  {
    hide Locate;
    hide CacheOk;
    hide Matches;
    forall k | 0 <= k < |c| && Matches(c[k], path, who) ensures Locate(c, path, who) == Some(k) {
      OnlyMatch(c, path, who, k);
    }
  }

  lemma DropOk(c: Cache, k: nat)
    requires CacheOk(c) && k < |c|
    ensures CacheOk(Drop(c, k))
    ensures forall j | 0 <= j < |Drop(c, k)| :: Drop(c, k)[j] in c && !Matches(Drop(c, k)[j], c[k].path, c[k].who)
  {
    var d := Drop(c, k);
    forall j | 0 <= j < |d| ensures !Matches(d[j], c[k].path, c[k].who) {
      if j >= k {
        assert d[j] == c[j + 1] && !Matches(c[k], c[j + 1].path, c[j + 1].who);
      }
    }
  }

  lemma SizeOk(c: Cache)
    requires CacheOk(c)
    ensures |c| <= MAX_ENTRIES
  {
  }

  lemma TouchOk(c: Cache, k: nat)
    requires CacheOk(c) && k < |c|
    ensures CacheOk(Touch(c, k))
  {
    DropOk(c, k);
  }

  lemma AddOk(c: Cache, e: Entry)
    requires CacheOk(c) && Locate(c, e.path, e.who).None?
    ensures CacheOk(Add(c, e))
  {
  }

  /** Lookup, insertion and invalidation keep the cache in order. */
  lemma FetchOk(c: Cache, path: Path, who: Who, disk: DiskAnswer)
    requires CacheOk(c)
    ensures CacheOk(Fetch(c, path, who, disk).1)
  {
    match Locate(c, path, who) {
      case Some(k) => DropOk(c, k);
      case None =>
    }
  }

  /** An invalidation removes exactly the entries that match the request. */
  lemma InvalidateExact(c: Cache, path: Path, who: Who)
    requires CacheOk(c)
    ensures CacheOk(Invalidate(c, path, who))
    ensures forall e :: e in Invalidate(c, path, who) <==> e in c && !Matches(e, path, who)
  {
    match Locate(c, path, who) {
      case None =>
      case Some(k) =>
        DropOk(c, k);
        var d := Drop(c, k);
        assert c[k].path == path && SameWho(c[k].who, who);
        forall e ensures e in d <==> e in c && !Matches(e, path, who) {
          if e in c && !Matches(e, path, who) {
            var j :| 0 <= j < |c| && c[j] == e;
            assert e == d[if j < k then j else j - 1];
          }
        }
    }
  }

  /**
   * The lowercase key that the master sends after a change on disk reaches exactly the
   * entries whose key, in whatever spelling, was decoded to the changed key id.
   */
  lemma InvalidateAllSpellings(key: Bytes, keyid: Bytes)
    ensures SameWho(ByKey(key), ByKey(Hex(keyid))) <==> Decode(key) == Some(keyid)
  {
    DecodeLower(key, keyid);
    LowerHex(keyid);
  }

  /** A request that was answered is the most recently used one: its entry is the last to be evicted. */
  lemma FetchIsNewest(c: Cache, path: Path, who: Who, disk: DiskAnswer)
    requires CacheOk(c) && Fetch(c, path, who, disk).0 != Error
    ensures var (a, d) := Fetch(c, path, who, disk);
      d != [] && Matches(d[|d| - 1], path, who) && a == Cached(d[|d| - 1])
  {
  }

  /** The answer to a repeated request comes from the cache, whatever the disk says. */
  lemma FetchAgain(c: Cache, path: Path, who: Who, disk: DiskAnswer, disk': DiskAnswer)
    requires CacheOk(c) && Fetch(c, path, who, disk).0 != Error
    ensures Fetch(Fetch(c, path, who, disk).1, path, who, disk').0 == Fetch(c, path, who, disk).0
  {
    FetchOk(c, path, who, disk);
    FetchIsNewest(c, path, who, disk);
    hide Fetch;
    var d := Fetch(c, path, who, disk).1;
    NewestFound(d, path, who, disk');
  }

  lemma NewestFound(d: Cache, path: Path, who: Who, disk: DiskAnswer)
    requires CacheOk(d) && d != [] && Matches(d[|d| - 1], path, who)
    ensures Fetch(d, path, who, disk).0 == Cached(d[|d| - 1])
  {
    var n := |d| - 1;
    forall k | 0 <= k < n ensures !Matches(d[k], path, who) {
      assert !Matches(d[k], d[n].path, d[n].who);
    }
    assert Locate(d, path, who) == Some(n);
  }

  /** Evicted is the entry that was not used for the longest time, and only when the cache is full. */
  lemma EvictsOldest(c: Cache, path: Path, who: Who, disk: DiskAnswer)
    requires CacheOk(c) && Locate(c, path, who).None? && ReadSum(who, disk) != Error
    ensures var d := Fetch(c, path, who, disk).1;
      d[..|d| - 1] == if |c| == MAX_ENTRIES then c[1..] else c
  {
  }

  // ------------------------------------------------------------------ the hash table

  /** struct sfshash_entry */
  class HashEntry {
    const path: Path
    const who: Who
    const value: Option<Bytes>
    const slot: nat

    constructor (path: Path, who: Who, value: Option<Bytes>, slot: nat)
      ensures this.path == path && this.who == who && this.value == value && this.slot == slot
    {
      this.path, this.who, this.value, this.slot := path, who, value, slot;
    }
  }

  function ValueOf(e: HashEntry): Entry {
    Entry(e.path, e.who, e.value)
  }

  function Values(s: seq<HashEntry>): (r: Cache)
    ensures |r| == |s| && forall k | 0 <= k < |s| :: r[k] == ValueOf(s[k])
  {
    seq(|s|, k requires 0 <= k < |s| => ValueOf(s[k]))
  }

  ghost predicate Distinct(s: seq<HashEntry>) {
    forall j, k | 0 <= j < k < |s| :: s[j] != s[k]
  }

  lemma ValuesTouch(s: seq<HashEntry>, k: nat)
    requires k < |s|
    ensures Values(s[..k] + s[k + 1..] + [s[k]]) == Touch(Values(s), k)
  {
  }

  lemma ValuesInit(s: seq<HashEntry>)
    requires s != []
    ensures Values(s[..|s| - 1] + s[|s| - 1 + 1..]) == Values(s)[..|s| - 1]
  {
  }

  lemma TouchInit(c: Cache, k: nat)
    requires k < |c|
    ensures |Touch(c, k)| == |c| && Touch(c, k)[..|c| - 1] == Drop(c, k)
  {
  }

  lemma ValuesAdd(s: seq<HashEntry>, e: HashEntry)
    ensures Values(Newest(s + [e])) == Add(Values(s), ValueOf(e))
  {
    assert Values(s + [e]) == Values(s) + [ValueOf(e)];
  }

  /** TAILQ_REMOVE */
  method Unlink(s: seq<HashEntry>, e: HashEntry) returns (r: seq<HashEntry>, ghost at: nat)
    requires e in s && Distinct(s)
    ensures at < |s| && s[at] == e && r == s[..at] + s[at + 1..]
    ensures Distinct(r) && forall x :: x in r <==> x in s && x != e
  {
    var k := 0;
    while s[k] != e
      invariant k < |s| && e !in s[..k]
      decreases |s| - k
    {
      k := k + 1;
    }
    r, at := s[..k] + s[k + 1..], k;
    forall x | x in s && x != e ensures x in r {
      var j :| 0 <= j < |s| && s[j] == x;
      assert x == if j < k then r[j] else r[j - 1];
    }
  }

  class SfsHash {
    /** The slots, most recently used entry first */
    const tab: array<seq<HashEntry>>
    /** All entries, least recently used first */
    var lru: seq<HashEntry>
    var entries: int

    /** The structure without the bound on the number of entries */
    ghost predicate Linked()
      reads this, tab
    {
      && tab.Length == SLOTS
      && entries == |lru|
      && Distinct(lru)
      && (forall e <- lru :: e.slot == SlotOf(e.path, e.who) && e in tab[e.slot])
      && (forall i | 0 <= i < SLOTS :: Distinct(tab[i]) && forall e <- tab[i] :: e in lru && e.slot == i)
    }

    ghost predicate Valid()
      reads this, tab
    {
      Linked() && CacheOk(Values(lru))
    }

    /** The table seen as a list of entries in order of use */
    ghost function Contents(): Cache
      reads this
    {
      Values(lru)
    }

    /** sfshash_init */
    constructor ()
      ensures Valid() && Contents() == [] && fresh(tab)
    {
      tab := new seq<HashEntry>[SLOTS](_ => []);
      lru, entries := [], 0;
    }

    /** sfshash_remove_entry */
    method RemoveEntry(e: HashEntry, ghost k: nat)
      requires Linked() && k < |lru| && lru[k] == e
      modifies this, tab
      ensures Linked() && lru == old(lru)[..k] + old(lru)[k + 1..] && entries == |lru|
    {
      var chain, at := Unlink(tab[e.slot], e);
      var rest, pos := Unlink(lru, e);
      tab[e.slot] := chain;
      lru := rest;
      entries := entries - 1;
    }

    /** sfshash_touch */
    method TouchEntry(e: HashEntry, ghost k: nat)
      requires Linked() && k < |lru| && lru[k] == e
      modifies this, tab
      ensures Linked() && lru == old(lru)[..k] + old(lru)[k + 1..] + [e]
    {
      var chain, at := Unlink(tab[e.slot], e);
      tab[e.slot] := [e] + chain;
      var rest, pos := Unlink(lru, e);
      lru := rest + [e];
    }

    /** sfshash_insert_common and sfshash_insert_entry */
    method InsertEntry(path: Path, who: Who, value: Option<Bytes>)
      requires Valid() && Locate(Contents(), path, who).None?
      modifies this, tab
      ensures Valid() && Contents() == Add(old(Contents()), Entry(path, who, value))
    {
      hide Linked;
      hide CacheOk;
      hide Matches;
      hide Locate;
      hide SlotOf;
      hide Values;
      hide Add;
      hide Newest;
      assert |lru| <= MAX_ENTRIES by { SizeOk(Contents()); }
      AddOk(Contents(), Entry(path, who, value));
      var slot := HashFn(path, who);
      var e := new HashEntry(path, who, value, slot);
      LinkEntry(e);
      Evict();
      ValuesAdd(old(lru), e);
    }

    /** The loop that keeps the number of entries bounded */
    method Evict()
      requires Linked()
      modifies this, tab
      ensures Linked() && lru == Newest(old(lru))
    {
      assert entries == |lru|;
      hide Linked;
      ghost var all := lru;
      while entries > MAX_ENTRIES
        invariant Linked() && entries == |lru| <= |all| && lru == all[|all| - |lru|..]
        invariant |lru| >= MAX_ENTRIES || lru == all
      {
        RemoveEntry(lru[0], 0);
      }
    }

    /** The insertion at the head of the slot and the end of the list */
    method LinkEntry(e: HashEntry)
      requires Linked() && e !in lru && e.slot == SlotOf(e.path, e.who)
      modifies this, tab
      ensures Linked() && lru == old(lru) + [e] && entries == |lru|
    {
      assert forall i | 0 <= i < SLOTS :: e !in tab[i];
      tab[e.slot] := [e] + tab[e.slot];
      lru := lru + [e];
      entries := entries + 1;
    }

    /** sfshash_find_uid and sfshash_find_key without the touch */
    method SearchSlot(path: Path, who: Who) returns (r: HashEntry?, ghost k: nat)
      requires Valid()
      ensures Locate(Contents(), path, who) == if r == null then None else Some(k)
      ensures r != null ==> k < |lru| && lru[k] == r
    {
      hide Locate;
      hide SlotOf;
      hide CacheOk;
      var slot := HashFn(path, who);
      for i := 0 to |tab[slot]|
        invariant forall j | 0 <= j < i :: !Matches(ValueOf(tab[slot][j]), path, who)
      {
        var e := tab[slot][i];
        if SameWho(e.who, who) && path == e.path {
          k :| 0 <= k < |lru| && lru[k] == e;
          OnlyMatch(Contents(), path, who, k);
          return e, k;
        }
      }
      r, k := null, 0;
      forall j | 0 <= j < |lru| ensures !Matches(Contents()[j], path, who) {
        if lru[j].path == path && SameWho(lru[j].who, who) {
          SameSlot(path, lru[j].who, who);
          assert lru[j] in tab[slot];
        }
      }
    }

    /** sfshash_find_uid and sfshash_find_key */
    method FindEntry(path: Path, who: Who) returns (r: HashEntry?)
      requires Valid()
      modifies this, tab
      ensures Valid()
      ensures match Locate(old(Contents()), path, who)
              case None => r == null && Contents() == old(Contents())
              case Some(k) => r != null && ValueOf(r) == old(Contents())[k] && Contents() == Touch(old(Contents()), k)
                              && lru != [] && r == lru[|lru| - 1]
    {
      hide Linked;
      hide CacheOk;
      hide Locate;
      hide Touch;
      hide Values;
      ghost var k;
      r, k := SearchSlot(path, who);
      if r != null {
        TouchOk(Contents(), k);
        ValuesTouch(lru, k);
        TouchEntry(r, k);
      }
    }

    /** sfshash_get_uid and sfshash_get_key; disk is what the SFS tree holds for the request. */
    method Get(path: Path, who: Who, disk: DiskAnswer) returns (r: Answer)
      requires Valid()
      modifies this, tab
      ensures Valid() && (r, Contents()) == Fetch(old(Contents()), path, who, disk)
      ensures (forall e <- old(Contents()) :: !Matches(e, path, who)) ==> Reads(who, disk, r)
      ensures forall e <- old(Contents()) | Matches(e, path, who) ::
                r == if e.value.None? then Missing else Sum(e.value.value)
    {
      CachedAnswer(Contents(), path, who);
      hide Reads;
      hide Matches;
      var e := FindEntry(path, who);
      if e != null {
        return Cached(ValueOf(e));
      }
      r := ReadChecksum(who, disk);
      match r {
        case Sum(s) => InsertEntry(path, who, Some(s));
        case Missing => InsertEntry(path, who, None);
        case Error =>
      }
    }

    /** sfshash_invalidate_uid and sfshash_invalidate_key */
    method InvalidateEntry(path: Path, who: Who)
      requires Valid()
      modifies this, tab
      ensures Valid() && Contents() == Invalidate(old(Contents()), path, who)
    {
      hide Linked;
      hide CacheOk;
      hide Locate;
      hide Values;
      hide Touch;
      ghost var before := Contents();
      InvalidateExact(before, path, who);
      var e := FindEntry(path, who);
      if e != null {
        ValuesInit(lru);
        TouchInit(before, Locate(before, path, who).value);
        RemoveEntry(e, |lru| - 1);
      }
    }

    /** sfshash_flush */
    method Flush()
      requires Valid()
      modifies this, tab
      ensures Valid() && Contents() == []
    {
      while lru != []
        invariant Valid()
        decreases |lru|
      {
        DropOk(Contents(), 0);
        RemoveEntry(lru[0], 0);
      }
    }
  }

  lemma OnlyMatch(c: Cache, path: Path, who: Who, k: nat)
    requires CacheOk(c) && k < |c| && Matches(c[k], path, who)
    ensures Locate(c, path, who) == Some(k)
  {
    var f := Locate(c, path, who).value;
    assert f < k ==> !Matches(c[f], c[k].path, c[k].who);
  }

  /** sfshash_readsum */
  method ReadChecksum(who: Who, disk: DiskAnswer) returns (r: Answer)
    ensures r == ReadSum(who, disk)
    ensures Reads(who, disk, r)
  {
    ReadsExactly(who, disk, ReadSum(who, disk));
    hide Reads;
    if who.ByKey? {
      var id := DecodeKey(who.key);
      if id.None? { return Missing; }
      if id.value == [] { return Error; }
    }
    match disk {
      case Failed => return Error;
      case NotFound => return Missing;
      case Found(data) =>
        if |data| < CS_LEN { return Missing; }
        return Sum(data[..CS_LEN]);
    }
  }
}

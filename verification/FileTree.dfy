/** The ordered tree of files touched by an upgrade (pe_filetree.c). The tree is a sorted list. */
module FileTree {
  import opened Basics

  // ------------------------------------------------------------------ order of paths

  /** A char is signed: the conversion to unsigned long extends the sign. */
  function Widen(c: byte): bv64 {
    if c < 128 then c as bv64 else (c as bv64) | 0xFFFF_FFFF_FFFF_FF00
  }

  function Mix(h: bv64, c: byte): (r: bv64)
    ensures r <= 0xFF_FFFF
  {
    var x := (h << 1) ^ Widen(c);
    (x ^ (x >> 24)) & 0xFF_FFFF
  }

  /** hash_fn */
  function HashOf(path: Path): (r: bv64)
    ensures r <= 0xFF_FFFF
  {
    if path == [] then 0 else Mix(HashOf(path[..|path| - 1]), path[|path| - 1])
  }

  lemma HashPush(path: Path, c: byte)
    ensures HashOf(path + [c]) == Mix(HashOf(path), c)
  {
    assert (path + [c])[..|path|] == path;
  }

  /** The loop of hash_fn */
  method HashPath(path: Path) returns (h: bv64)
    ensures h == HashOf(path)
  {
    h := 0;
    for i := 0 to |path|
      invariant h == HashOf(path[..i])
    {
      assert path[..i + 1][..i] == path[..i];
      h := Mix(h, path[i]);
    }
    assert path[..|path|] == path;
  }

  /** strcmp compares unsigned bytes; only the sign of the result counts. */
  function StrCmp(a: Path, b: Path): int {
    if a == [] then (if b == [] then 0 else -1)
    else if b == [] then 1
    else if a[0] != b[0] then a[0] as int - b[0] as int
    else StrCmp(a[1..], b[1..])
  }

  /** The idx field of a node */
  function Index(path: Path): (r: nat)
    ensures r < 0x100_0000
  {
    ToIndex(HashOf(path))
  }

  function ToIndex(h: bv64): (r: nat)
    requires h <= 0xFF_FFFF
    ensures r < 0x100_0000
  {
    (h as bv24) as nat
  }

  method HashIndex(path: Path) returns (i: nat)
    ensures i == Index(path)
  {
    var h := HashPath(path);
    i := ToIndex(h);
  }

  /** A difference of two unsigned longs, returned as an int of 32 bits */
  function Truncated(d: int): int {
    var low := d % 0x1_0000_0000;
    if low >= 0x8000_0000 then low - 0x1_0000_0000 else low
  }

  /** hashcmp */
  function Compare(a: Path, b: Path): int {
    if Index(a) == Index(b) then StrCmp(a, b) else Truncated(Index(a) - Index(b))
  }

  /** Below 2^24 no difference is truncated. */
  lemma NotTruncated(a: nat, b: nat)
    requires a < 0x100_0000 && b < 0x100_0000
    ensures Truncated(a - b) == a - b
  {
  }

  lemma {:induction false} StrCmpOrder(a: Path, b: Path)
    ensures StrCmp(a, b) == 0 <==> a == b
    ensures StrCmp(a, b) < 0 <==> StrCmp(b, a) > 0
  {
    if a != [] && b != [] && a[0] == b[0] {
      StrCmpOrder(a[1..], b[1..]);
      assert a == [a[0]] + a[1..] && b == [b[0]] + b[1..];
    }
  }

  lemma {:induction false} StrCmpTransitive(a: Path, b: Path, c: Path)
    requires StrCmp(a, b) < 0 && StrCmp(b, c) < 0
    ensures StrCmp(a, c) < 0
  {
    if a != [] && b != [] && c != [] && a[0] == b[0] == c[0] {
      StrCmpTransitive(a[1..], b[1..], c[1..]);
    }
  }

  /** hashcmp is a strict total order on path names. */
  lemma CompareOrder(a: Path, b: Path)
    ensures Compare(a, b) == 0 <==> a == b
    ensures Compare(a, b) < 0 <==> Compare(b, a) > 0
  {
    hide Index;
    hide StrCmp;
    hide Truncated;
    StrCmpOrder(a, b);
    NotTruncated(Index(a), Index(b));
    NotTruncated(Index(b), Index(a));
  }

  lemma CompareTransitive(a: Path, b: Path, c: Path)
    requires Compare(a, b) < 0 && Compare(b, c) < 0
    ensures Compare(a, c) < 0
  {
    hide Index;
    hide StrCmp;
    hide Truncated;
    NotTruncated(Index(a), Index(b));
    NotTruncated(Index(b), Index(c));
    NotTruncated(Index(a), Index(c));
    if Index(a) == Index(b) == Index(c) {
      StrCmpTransitive(a, b, c);
    }
  }

  // ------------------------------------------------------------------ the tree

  /** struct pe_filetree_node: cookie 0 marks a file modified by an upgrade parent. */
  datatype Node = Node(path: Path, cookie: Cookie)

  type Tree = seq<Node>

  ghost predicate Sorted(t: Tree) {
    forall j, k | 0 <= j < k < |t| :: Compare(t[j].path, t[k].path) < 0
  }

  function Paths(t: Tree): (r: seq<Path>)
    ensures |r| == |t| && forall k | 0 <= k < |t| :: r[k] == t[k].path
  {
    seq(|t|, k requires 0 <= k < |t| => t[k].path)
  }

  /** The cookie stored for a path */
  function CookieOf(t: Tree, path: Path): (r: Option<Cookie>)
    ensures r.Some? <==> exists k :: 0 <= k < |t| && t[k].path == path
  {
    if t == [] then None
    else if t[0].path == path then Some(t[0].cookie)
    else
      var r := CookieOf(t[1..], path);
      assert forall k | 1 <= k < |t| :: t[k] == t[1..][k - 1];
      r
  }

  /** The number of nodes before the path */
  function Position(t: Tree, path: Path): (r: nat)
    ensures r <= |t|
  {
    if t == [] || Compare(t[0].path, path) >= 0 then 0 else 1 + Position(t[1..], path)
  }

  /** pe_filetree_insert */
  function Insert(t: Tree, path: Path, cookie: Cookie): Tree {
    var k := Position(t, path);
    if k < |t| && t[k].path == path then (if cookie == 0 then t[k := Node(path, 0)] else t)
    else t[..k] + [Node(path, cookie)] + t[k..]
  }

  lemma {:induction false} PositionSplits(t: Tree, path: Path)
    requires Sorted(t)
    ensures var k := Position(t, path);
      && (forall j | 0 <= j < k :: Compare(t[j].path, path) < 0)
      && (forall j | k <= j < |t| :: Compare(path, t[j].path) < 0 || (j == k && t[j].path == path))
  {
    hide Compare;
    if t != [] && Compare(t[0].path, path) < 0 {
      PositionSplits(t[1..], path);
    } else if t != [] {
      CompareOrder(path, t[0].path);
      CompareOrder(t[0].path, path);
      forall j | 0 < j < |t| ensures Compare(path, t[j].path) < 0 {
        if path != t[0].path {
          CompareTransitive(path, t[0].path, t[j].path);
        }
      }
    }
  }

  lemma SpliceSorted(t: Tree, k: nat, n: Node)
    requires Sorted(t) && k <= |t|
    requires forall j | 0 <= j < k :: Compare(t[j].path, n.path) < 0
    requires forall j | k <= j < |t| :: Compare(n.path, t[j].path) < 0
    ensures Sorted(t[..k] + [n] + t[k..])
  {
    hide Compare;
    var u := t[..k] + [n] + t[k..];
    forall a, b | 0 <= a < b < |u| ensures Compare(u[a].path, u[b].path) < 0 {
      if a != k && b != k {
        var x, y := if a < k then a else a - 1, if b < k then b else b - 1;
        assert u[a] == t[x] && u[b] == t[y];
      }
    }
  }

  /** Insertion keeps the order, so that a path occurs once. */
  lemma InsertSorted(t: Tree, path: Path, cookie: Cookie)
    requires Sorted(t)
    ensures Sorted(Insert(t, path, cookie))
  {
    PositionSplits(t, path);
    hide Compare;
    hide Position;
    var k := Position(t, path);
    if k == |t| || t[k].path != path {
      SpliceSorted(t, k, Node(path, cookie));
    }
  }

  /** A path is inserted at most once; a cookie 0 wins over the cookie of an existing node. */
  lemma InsertCookie(t: Tree, path: Path, cookie: Cookie, other: Path)
    requires Sorted(t)
    ensures CookieOf(Insert(t, path, cookie), other)
         == if other != path then CookieOf(t, other)
            else if cookie == 0 || CookieOf(t, path).None? then Some(cookie)
            else CookieOf(t, path)
  {
    var k := Position(t, path);
    var u := Insert(t, path, cookie);
    InsertSorted(t, path, cookie);
    PositionSplits(t, path);
    hide CookieOf;
    hide Compare;
    hide Position;
    hide Sorted;
    if other == path {
      SortedCookie(u, k);
      if k < |t| && t[k].path == path {
        SortedCookie(t, k);
      } else if x: nat :| x < |t| && t[x].path == path {
        CompareOrder(path, path);
      }
    } else {
      OtherCookie(t, k, u, path, other);
    }
  }

  lemma OtherCookie(t: Tree, k: nat, u: Tree, path: Path, other: Path)
    requires Sorted(t) && Sorted(u) && k <= |t| && other != path
    requires || (k < |t| && t[k].path == path && |u| == |t| && u[k].path == path && u == t[k := u[k]])
             || (|u| == |t| + 1 && u[k].path == path && u == t[..k] + [u[k]] + t[k..])
    ensures CookieOf(u, other) == CookieOf(t, other)
  {
    hide CookieOf;
    hide Sorted;
    if x: nat :| x < |t| && t[x].path == other {
      SortedCookie(t, x);
      SortedCookie(u, if |u| > |t| && x >= k then x + 1 else x);
    } else if y: nat :| y < |u| && u[y].path == other {
      assert t[if |u| > |t| && y >= k then y - 1 else y].path == other;
    }
  }

  /** In a sorted tree the cookie of a path is that of its only node. */
  lemma {:induction false} SortedCookie(t: Tree, k: nat)
    requires Sorted(t) && k < |t|
    ensures CookieOf(t, t[k].path) == Some(t[k].cookie)
  {
    if k > 0 {
      CompareOrder(t[0].path, t[k].path);
      SortedCookie(t[1..], k - 1);
    }
  }
}

/**
 * The prefix hash that selects candidate rules for a path (pe_prefixhash.c,
 * pe_build_prefixhash in pe.c).
 */
module PrefixHash {
  import opened Basics
  import opened Policy
  import opened PathRules
  import FileTree

  const MASK: nat := 0xFF_FFFF

  /** The size of the table for a requested size */
  function TableSize(n: nat): (r: nat)
    ensures 10 <= r <= MASK + 1
  {
    var m := if n > MASK then MASK + 1 else n;
    if m < 10 then 10 else m
  }

  /** hash_fn modulo the size of the table; it is the hash function of the file tree. */
  function SlotOf(size: nat, s: Path): (r: nat)
    requires size > 0
    ensures r < size
  {
    FileTree.Index(s) % size
  }

  /** The slot of a rule; a rule without a prefix is filed under the empty string. */
  function RuleSlot(size: nat, prefix: Option<Path>): (r: nat)
    requires size > 0
    ensures r < size
  {
    SlotOf(size, if prefix.None? then [] else prefix.value)
  }

  /** The strings that are looked up for a path: "", the path, its first byte, and all that end before a slash. */
  predicate LookedUp(path: Option<Path>, s: Path) {
    || s == []
    || (path.Some? && (s == path.value || (path.value != [] && s == path.value[..1])
                       || (s <= path.value && |s| < |path.value| && path.value[|s|] == SLASH)))
  }

  ghost predicate SlotUsed(size: nat, path: Option<Path>, slot: nat)
    requires size > 0
  {
    exists s :: LookedUp(path, s) && slot == SlotOf(size, s)
  }

  /** A hash entry: a rule with its number in the block */
  datatype Ent = Ent(idx: nat, rule: PathRule)

  /** The candidates: all entries in slots that are looked up, in the order of the block. */
  ghost function Selected(all: seq<Ent>, size: nat, path: Option<Path>): (r: seq<Ent>)
    requires size > 0
    ensures forall e :: e in r <==> e in all && SlotUsed(size, path, RuleSlot(size, PrefixOf(e.rule)))
  {
    if all == [] then []
    else
      var first := if SlotUsed(size, path, RuleSlot(size, PrefixOf(all[0].rule))) then [all[0]] else [];
      first + Selected(all[1..], size, path)
  }

  ghost predicate Ascending(s: seq<Ent>) {
    forall j, k | 0 <= j < k < |s| :: s[j].idx < s[k].idx
  }

  // ------------------------------------------------------------------ completeness

  /** The prefixes that the hash serves: none, empty, "/", or without a trailing slash */
  predicate Served(prefix: Option<Path>) {
    prefix.None? || prefix.value == [] || prefix.value == [SLASH] || prefix.value[|prefix.value| - 1] != SLASH
  }

  /** A rule whose prefix applies to a path is in a slot that is looked up. */
  lemma Complete(size: nat, prefix: Option<Path>, path: Option<Path>)
    requires size > 0 && Served(prefix)
    requires path.Some? ==> Absolute(path.value)
    requires prefix.Some? ==> path.Some? && Under(prefix.value, path.value)
    ensures SlotUsed(size, path, RuleSlot(size, prefix))
  {
    var s: Path := if prefix.None? then [] else prefix.value;
    if prefix.Some? && s != [] && s != [SLASH] {
      assert Trim(s) == s;
    }
    assert LookedUp(path, s);
  }

  /** For any prefix that applies to a path: it is looked up for the path exactly in these cases. */
  lemma LookedUpExactly(prefix: Path, path: Path)
    requires Absolute(path) && Under(prefix, path)
    ensures LookedUp(Some(path), prefix) <==>
              Served(Some(prefix)) || prefix == path || (prefix < path && path[|prefix|] == SLASH)
  {
    if Served(Some(prefix)) && prefix != [] && prefix != [SLASH] {
      assert Trim(prefix) == prefix;
    }
  }

  /** In the largest table strings share a slot only if they share the hash value. */
  lemma LargestTable(a: Path, b: Path)
    ensures SlotOf(MASK + 1, a) == SlotOf(MASK + 1, b) <==> FileTree.Index(a) == FileTree.Index(b)
  {
    hide FileTree.Index;
    assert SlotOf(MASK + 1, a) == FileTree.Index(a) && SlotOf(MASK + 1, b) == FileTree.Index(b);
  }

  lemma SharedSlot(size: nat, a: Path, b: Path)
    requires size > 0 && FileTree.Index(a) == FileTree.Index(b)
    ensures SlotOf(size, a) == SlotOf(size, b)
  {
  }

  ghost predicate FoundIn(size: nat, prefix: Path, path: Path)
    requires size > 0
  {
    SlotUsed(size, Some(path), RuleSlot(size, Some(prefix)))
  }

  ghost predicate SharesHash(prefix: Path, path: Path) {
    exists s :: LookedUp(Some(path), s) && FileTree.Index(s) == FileTree.Index(prefix)
  }

  /** A prefix is found in tables of every size exactly if its hash value is that of a string that is looked up. */
  lemma FoundExactly(prefix: Path, path: Path)
    ensures (forall size | 10 <= size <= MASK + 1 :: FoundIn(size, prefix, path)) <==> SharesHash(prefix, path)
  {
    hide LookedUp;
    hide SlotOf;
    hide FileTree.Index;
    if forall size | 10 <= size <= MASK + 1 :: FoundIn(size, prefix, path) {
      assert FoundIn(MASK + 1, prefix, path);
      var s :| LookedUp(Some(path), s) && RuleSlot(MASK + 1, Some(prefix)) == SlotOf(MASK + 1, s);
      LargestTable(prefix, s);
    }
    if SharesHash(prefix, path) {
      var s :| LookedUp(Some(path), s) && FileTree.Index(s) == FileTree.Index(prefix);
      forall size | 10 <= size <= MASK + 1 ensures FoundIn(size, prefix, path) {
        SharedSlot(size, prefix, s);
      }
    }
  }

  lemma {:induction false} SelectedAscending(all: seq<Ent>, size: nat, path: Option<Path>)
    requires size > 0 && Ascending(all)
    ensures Ascending(Selected(all, size, path))
  {
    if all != [] {
      SelectedAscending(all[1..], size, path);
      forall e | e in Selected(all[1..], size, path) ensures all[0].idx < e.idx {
        assert e in all[1..];
      }
    }
  }

  /** A sorted list of entries is determined by its members. */
  lemma {:induction false} SameMembers(a: seq<Ent>, b: seq<Ent>)
    requires Ascending(a) && Ascending(b) && forall e :: e in a <==> e in b
    ensures a == b
  {
    assert (a == [] || a[0] in b) && (b == [] || b[0] in a);
    if a != [] {
      var x, y := |a| - 1, |b| - 1;
      LastIsMax(a, b);
      LastIsMax(b, a);
      forall e ensures e in a[..x] <==> e in b[..y] {
        if e in a[..x] { assert e in a && e.idx < a[x].idx; }
        if e in b[..y] { assert e in b && e.idx < b[y].idx; }
      }
      SameMembers(a[..x], b[..y]);
      assert a == a[..x] + [a[x]] && b == b[..y] + [b[y]];
    }
  }

  lemma LastIsMax(a: seq<Ent>, b: seq<Ent>)
    requires Ascending(a) && Ascending(b) && a != [] && b != [] && forall e :: e in a <==> e in b
    ensures a[|a| - 1] == b[|b| - 1]
  {
    var e := a[|a| - 1];
    assert e in b && b[|b| - 1] in a;
    var k :| 0 <= k < |b| && b[k] == e;
    var j :| 0 <= j < |a| && a[j] == b[|b| - 1];
  }

  // ------------------------------------------------------------------ the table

  /** The loop that fills entries for one slot keeps this. */
  ghost predicate Covers(found: seq<Ent>, all: seq<Ent>, size: nat, slots: set<nat>)
    requires size > 0
  {
    forall e :: e in found <==> e in all && RuleSlot(size, PrefixOf(e.rule)) in slots
  }

  class HashTable {
    const tabsize: nat
    const tab: array<seq<Ent>>
    /** All entries in the order of insertion */
    ghost var all: seq<Ent>

    ghost predicate Valid()
      reads this, tab
    {
      && tabsize > 0 && tab.Length == tabsize
      && Ascending(all)
      && forall i, e | 0 <= i < tabsize :: e in tab[i] <==> e in all && RuleSlot(tabsize, PrefixOf(e.rule)) == i
    }

    /** pe_prefixhash_create */
    constructor (size: nat)
      ensures Valid() && all == [] && tabsize == TableSize(size) && fresh(tab)
    {
      var n := TableSize(size);
      tabsize := n;
      tab := new seq<Ent>[n](_ => []);
      all := [];
    }

    /** pe_prefixhash_add: the entry goes to the end of its slot. */
    method Add(prefix: Option<Path>, rule: PathRule, idx: nat)
      requires Valid() && prefix == PrefixOf(rule) && forall e <- all :: e.idx < idx
      modifies this, tab
      ensures Valid() && all == old(all) + [Ent(idx, rule)]
    {
      var slot := Hash(tabsize, if prefix.None? then [] else prefix.value);
      tab[slot] := tab[slot] + [Ent(idx, rule)];
      all := all + [Ent(idx, rule)];
    }

    /** addslot */
    method AddSlot(found: seq<Ent>, s: Path, ghost slots: set<nat>) returns (r: seq<Ent>)
      requires Valid() && Covers(found, all, tabsize, slots)
      ensures Covers(r, all, tabsize, slots + {SlotOf(tabsize, s)})
    {
      var hv := Hash(tabsize, s);
      var list := tab[hv];
      r := found;
      for k := 0 to |list|
        invariant r == found + list[..k]
      {
        r := r + [list[k]];
      }
    }

    /** The slots for the whole path, its first byte and every string that ends before a slash */
    method CollectPath(str: Path, found: seq<Ent>) returns (entries: seq<Ent>, ghost strings: set<Path>)
      requires Valid() && str != [] && Covers(found, all, tabsize, SlotsOf(tabsize, {[]}))
      ensures Covers(entries, all, tabsize, SlotsOf(tabsize, strings))
      ensures forall s :: s in strings <==> LookedUp(Some(str), s)
    {
      hide Covers;
      hide SlotOf;
      hide SlotsOf;
      entries := AddSlot(found, str, SlotsOf(tabsize, {[]}));
      strings := {[], str};
      SlotsAdd(tabsize, {[]}, str);
      entries := AddSlot(entries, str[..1], SlotsOf(tabsize, strings));
      SlotsAdd(tabsize, strings, str[..1]);
      strings := strings + {str[..1]};
      var len := |str|;
      while len > 0
        invariant len <= |str| && Covers(entries, all, tabsize, SlotsOf(tabsize, strings))
        invariant forall s :: s in strings <==>
                    s in {[], str, str[..1]} || (s <= str && len < |s| < |str| && str[|s|] == SLASH)
      {
        assert forall s: Path | s <= str && |s| == len :: s == str[..len];
        if len < |str| && str[len] == SLASH {
          entries := AddSlot(entries, str[..len], SlotsOf(tabsize, strings));
          SlotsAdd(tabsize, strings, str[..len]);
          strings := strings + {str[..len]};
        }
        len := len - 1;
      }
    }

    /** The part of pe_prefixhash_getrules that collects entries from the slots */
    method Collect(path: Option<Path>) returns (entries: seq<Ent>, ghost slots: set<nat>)
      requires Valid() && (path.Some? ==> path.value != [])
      ensures Covers(entries, all, tabsize, slots)
      ensures forall n :: n in slots <==> SlotUsed(tabsize, path, n)
    {
      assert Covers([], all, tabsize, {}) by { CoversNone(all, tabsize); }
      hide Covers;
      hide SlotOf;
      entries := AddSlot([], [], {});
      ghost var strings := {[]};
      assert {} + {SlotOf(tabsize, [])} == SlotsOf(tabsize, strings);
      if path.Some? {
        entries, strings := CollectPath(path.value, entries);
      }
      slots := SlotsOf(tabsize, strings);
    }

    /** pe_prefixhash_getrules; None is -EINVAL. */
    method GetRules(path: Option<Path>) returns (r: Option<seq<Ent>>)
      requires Valid()
      ensures r.None? <==> path.Some? && (path.value == [] || path.value[0] != SLASH)
      ensures r.Some? ==> r.value == Selected(all, tabsize, path)
    {
      if path.Some? && (path.value == [] || path.value[0] != SLASH) {
        return None;
      }
      var entries, slots := Collect(path);
      var sorted := Sort(entries);
      var kept := KillDuplicates(sorted);
      SelectedAscending(all, tabsize, path);
      SameMembers(kept, Selected(all, tabsize, path));
      r := Some(kept);
    }
  }

  ghost function SlotsOf(size: nat, strings: set<Path>): set<nat>
    requires size > 0
  {
    set s <- strings :: SlotOf(size, s)
  }

  lemma SlotsAdd(size: nat, strings: set<Path>, s: Path)
    requires size > 0
    ensures SlotsOf(size, strings + {s}) == SlotsOf(size, strings) + {SlotOf(size, s)}
    ensures SlotsOf(size, {[], s}) == SlotsOf(size, {[]}) + {SlotOf(size, s)}
  {
    hide SlotOf;
  }

  lemma CoversNone(all: seq<Ent>, size: nat)
    requires size > 0
    ensures Covers([], all, size, {})
  {
  }

  /** hash_fn modulo the table size */
  method Hash(size: nat, s: Path) returns (slot: nat)
    requires size > 0
    ensures slot == SlotOf(size, s)
  {
    var h := FileTree.HashIndex(s);
    slot := h % size;
  }

  /** The last loops of pe_prefixhash_getrules: of entries with the same number only the first is kept. */
  method KillDuplicates(s: seq<Ent>) returns (r: seq<Ent>)
    requires forall j, k | 0 <= j < k < |s| :: s[j].idx <= s[k].idx
    requires forall x, y | x in s && y in s && x.idx == y.idx :: x == y
    ensures Ascending(r) && forall e :: e in r <==> e in s
  {
    r := [];
    for i := 0 to |s|
      invariant Ascending(r) && forall e :: e in r <==> e in s[..i]
      invariant forall e <- r :: i > 0 && e.idx <= s[i - 1].idx
    {
      if i > 0 && s[i - 1].idx == s[i].idx { continue; }
      r := r + [s[i]];
    }
  }

  /** entryarr_qsort with cmp_entries */
  function Sort(s: seq<Ent>): (r: seq<Ent>)
    ensures Ordered(r)
    ensures forall e :: e in r <==> e in s
  {
    if s == [] then [] else Place(s[0], Sort(s[1..]))
  }

  ghost predicate Ordered(s: seq<Ent>) {
    forall j, k | 0 <= j < k < |s| :: s[j].idx <= s[k].idx
  }

  function Place(e: Ent, s: seq<Ent>): (r: seq<Ent>)
    requires Ordered(s)
    ensures Ordered(r)
    ensures forall x :: x in r <==> x == e || x in s
  {
    if s == [] || e.idx <= s[0].idx then [e] + s
    else
      var rest := Place(e, s[1..]);
      assert forall x <- s[1..] :: x in s && s[0].idx <= x.idx;
      assert forall x <- rest :: s[0].idx <= x.idx;
      [s[0]] + rest
  }
}

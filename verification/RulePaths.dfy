/**
 * The paths in rules: the parser of the policy language normalizes them (parse.y), so
 * every prefix that the policy engine files in a hash is one that the hash serves.
 */
module RulePaths {
  import opened Basics
  import opened PathRules
  import opened PrefixHash
  import Policy
  import opened Processes
  import opened RuleLookup
  import Contexts

  const DOT: byte := 46

  // ------------------------------------------------------------------ components

  /** The number of bytes before the first slash */
  function CompLen(s: Path): (r: nat)
    ensures r <= |s| && SLASH !in s[..r] && (r < |s| ==> s[r] == SLASH)
  {
    if s == [] || s[0] == SLASH then 0
    else
      var r := 1 + CompLen(s[1..]);
      assert s[..r] == [s[0]] + s[1..][..r - 1];
      r
  }

  /** The strings behind the slashes of a path that is empty or absolute */
  function Components(s: Path): seq<Path>
    requires s != [] ==> s[0] == SLASH
    decreases |s|
  {
    if s == [] then []
    else
      var n := CompLen(s[1..]);
      [s[1..][..n]] + Components(s[1..][n..])
  }

  /** The first component of an absolute path */
  function First(s: Path): Path
    requires s != [] && s[0] == SLASH
  {
    s[1..][..CompLen(s[1..])]
  }

  /** The bytes after the slash tell the special components apart. */
  lemma FirstBytes(s: Path)
    requires s != [] && s[0] == SLASH
    ensures |First(s)| < |s|
    ensures First(s) == [] <==> |s| == 1 || s[1] == SLASH
    ensures First(s) == [DOT] <==> |s| > 1 && s[1] == DOT && (|s| == 2 || s[2] == SLASH)
    ensures First(s) == [DOT, DOT] <==> |s| > 2 && s[1] == DOT && s[2] == DOT && (|s| == 3 || s[3] == SLASH)
  {
    var r := s[1..];
    assert r != [] ==> r[0] == s[1] && r[1..] == s[2..];
    assert |s| > 2 ==> s[2..][0] == s[2] && s[2..][1..] == s[3..];
    assert |s| > 3 ==> s[3..][0] == s[3];
  }

  predicate IsName(c: Path) {
    c != [] && SLASH !in c && 0 !in c && c != [DOT] && c != [DOT, DOT]
  }

  /** One step into a directory: an empty string and "." stay, ".." goes back. */
  function Enter(dirs: seq<Path>, c: Path): seq<Path> {
    if c == [] || c == [DOT] then dirs
    else if c == [DOT, DOT] then (if dirs == [] then [] else dirs[..|dirs| - 1])
    else dirs + [c]
  }

  function Walk(dirs: seq<Path>, comps: seq<Path>): seq<Path>
    decreases |comps|
  {
    if comps == [] then dirs else Walk(Enter(dirs, comps[0]), comps[1..])
  }

  /** A slash before every name */
  function Render(dirs: seq<Path>): Path {
    if dirs == [] then [] else Render(dirs[..|dirs| - 1]) + [SLASH] + dirs[|dirs| - 1]
  }

  function OrRoot(s: Path): Path {
    if s == [] then [SLASH] else s
  }

  /** What normalize_path makes of an absolute path: the directories that its components lead to */
  function Normalized(path: Path): Path
    requires Absolute(path)
  {
    OrRoot(Render(Walk([], Components(path))))
  }

  ghost predicate Names(dirs: seq<Path>) {
    forall k | 0 <= k < |dirs| :: IsName(dirs[k])
  }

  lemma RenderPush(dirs: seq<Path>, c: Path)
    ensures Render(dirs + [c]) == Render(dirs) + [SLASH] + c
  {
    assert (dirs + [c])[..|dirs|] == dirs;
  }

  lemma {:induction false} WalkNames(dirs: seq<Path>, comps: seq<Path>)
    requires Names(dirs) && forall k | 0 <= k < |comps| :: SLASH !in comps[k] && 0 !in comps[k]
    ensures Names(Walk(dirs, comps))
    decreases |comps|
  {
    if comps != [] {
      assert SLASH !in comps[0] && 0 !in comps[0];
      WalkNames(Enter(dirs, comps[0]), comps[1..]);
    }
  }

  lemma {:induction false} ComponentsAreStrings(s: CString)
    requires s != [] ==> s[0] == SLASH
    ensures forall k | 0 <= k < |Components(s)| :: SLASH !in Components(s)[k] && 0 !in Components(s)[k]
    decreases |s|
  {
    if s != [] {
      ComponentsAreStrings(s[1..][CompLen(s[1..])..]);
    }
  }

  lemma RenderEnds(dirs: seq<Path>)
    requires Names(dirs)
    ensures dirs != [] ==> Absolute(Render(dirs)) && Render(dirs)[|Render(dirs)| - 1] != SLASH
    ensures (dirs == [] <==> Render(dirs) == []) && 0 !in Render(dirs)
  {
    if dirs != [] {
      var c := dirs[|dirs| - 1];
      assert IsName(c) && c[|c| - 1] in c;
      RenderEnds(dirs[..|dirs| - 1]);
    }
  }

  /** The parser only produces prefixes that the hash serves. */
  lemma ParsedIsServed(path: CString)
    requires Absolute(path)
    ensures Names(Walk([], Components(path))) && 0 !in Normalized(path)
    ensures Absolute(Normalized(path)) && Served(Some(Normalized(path)))
  {
    ComponentsAreStrings(path);
    WalkNames([], Components(path));
    RenderEnds(Walk([], Components(path)));
  }

  lemma {:induction false} CompLenIs(c: Path, rest: Path)
    requires SLASH !in c && (rest != [] ==> rest[0] == SLASH)
    ensures CompLen(c + rest) == |c|
  {
    if c == [] {
      assert c + rest == rest;
    } else {
      CompLenIs(c[1..], rest);
      assert (c + rest)[1..] == c[1..] + rest && c[0] in c;
    }
  }

  /** The first component of a path */
  lemma ComponentsCons(c: Path, rest: Path)
    requires SLASH !in c && (rest != [] ==> rest[0] == SLASH)
    ensures Components([SLASH] + c + rest) == [c] + Components(rest)
  {
    hide CompLen;
    CompLenIs(c, rest);
    var s := [SLASH] + c + rest;
    assert s[1..] == c + rest;
    assert (c + rest)[..|c|] == c && (c + rest)[|c|..] == rest;
  }

  lemma Uncons(s: Path) returns (c: Path, rest: Path)
    requires Absolute(s)
    ensures s == [SLASH] + c + rest && SLASH !in c && (rest != [] ==> rest[0] == SLASH) && |rest| < |s|
  {
    var n := CompLen(s[1..]);
    c, rest := s[1..][..n], s[1..][n..];
  }

  lemma Grouped(c: Path, rest: Path, d: Path)
    ensures [SLASH] + c + rest + [SLASH] + d == [SLASH] + c + (rest + [SLASH] + d)
  {
  }

  lemma {:induction false} ComponentsAppend(s: Path, d: Path)
    requires (s != [] ==> s[0] == SLASH) && SLASH !in d
    ensures Components(s + [SLASH] + d) == Components(s) + [d]
    decreases |s|
  {
    hide Components;
    if s == [] {
      ComponentsCons(d, []);
      assert s + [SLASH] + d == [SLASH] + d + [];
      NoComponents();
    } else {
      var c, rest := Uncons(s);
      ComponentsCons(c, rest);
      ComponentsAppend(rest, d);
      Grouped(c, rest, d);
      ComponentsCons(c, rest + [SLASH] + d);
      assert [c] + (Components(rest) + [d]) == [c] + Components(rest) + [d];
    }
  }

  lemma NoComponents()
    ensures Components([]) == []
  {
  }

  lemma {:induction false} ComponentsRender(dirs: seq<Path>)
    requires Names(dirs)
    ensures (Render(dirs) != [] ==> Render(dirs)[0] == SLASH) && Components(Render(dirs)) == dirs
  {
    hide Components;
    if dirs == [] {
      NoComponents();
    } else {
      var n := |dirs| - 1;
      ComponentsRender(dirs[..n]);
      RenderEnds(dirs);
      assert IsName(dirs[n]);
      hide IsName;
      ComponentsAppend(Render(dirs[..n]), dirs[n]);
    }
  }

  lemma {:induction false} WalkAll(dirs: seq<Path>, names: seq<Path>)
    requires Names(names)
    ensures Walk(dirs, names) == dirs + names
    decreases |names|
  {
    if names != [] {
      assert IsName(names[0]);
      WalkAll(dirs + [names[0]], names[1..]);
    }
  }

  /** Normalization is idempotent: a normal path stays as it is. */
  lemma NormalizedTwice(path: CString)
    requires Absolute(path)
    ensures Absolute(Normalized(path)) && Normalized(Normalized(path)) == Normalized(path)
  {
    ParsedIsServed(path);
    ComponentsAreStrings(path);
    WalkNames([], Components(path));
    var dirs := Walk([], Components(path));
    RenderEnds(dirs);
    if dirs == [] {
      ComponentsCons([], []);
      NoComponents();
      var empty: Path, none: seq<Path> := [], [];
      assert [SLASH] + empty + empty == [SLASH] && Components([SLASH]) == [empty] + none;
      assert ([empty] + none)[1..] == none && ([empty] + none)[0] == empty;
      assert Walk(Enter(none, empty), none) == none;
      assert Walk(none, [empty] + none) == Walk(Enter(none, empty), none);
      assert Normalized([SLASH]) == OrRoot(Render(none));
    } else {
      ComponentsRender(dirs);
      WalkAll([], dirs);
      assert [] + dirs == dirs;
    }
  }

  lemma {:induction false} WalkAppend(dirs: seq<Path>, comps: seq<Path>, d: Path)
    ensures Walk(dirs, comps + [d]) == Enter(Walk(dirs, comps), d)
    decreases |comps|
  {
    if comps == [] {
      assert [] + [d] == [d];
      assert Walk(Enter(dirs, d), []) == Enter(dirs, d);
    } else {
      WalkAppend(Enter(dirs, comps[0]), comps[1..], d);
      assert (comps + [d])[1..] == comps[1..] + [d];
    }
  }

  lemma SlashAt(p: Path, a: Path)
    requires SLASH !in a
    ensures var s := p + [SLASH] + a;
      s[|p|] == SLASH && s[..|p|] == p && forall k | |p| < k < |s| :: s[k] != SLASH
  {
    var s := p + [SLASH] + a;
    forall k | |p| < k < |s| ensures s[k] != SLASH {
      assert s[k] == a[k - |p| - 1];
    }
  }

  /** A path has one last slash. */
  lemma LastSlash(p: Path, a: Path, q: Path, b: Path)
    requires SLASH !in a && SLASH !in b && p + [SLASH] + a == q + [SLASH] + b
    ensures p == q
  {
    SlashAt(p, a);
    SlashAt(q, b);
  }

  /** The directories behind a path */
  function Dirs(path: Path): seq<Path>
    requires path == [] || Absolute(path)
  {
    Walk([], Components(path))
  }

  lemma DirsAppend(path: CString, c: CString)
    requires (path == [] || Absolute(path)) && SLASH !in c
    ensures Absolute(path + [SLASH] + c) && Dirs(path + [SLASH] + c) == Enter(Dirs(path), c) && Names(Dirs(path))
    ensures path == [] ==> Dirs(path) == []
  {
    ComponentsAppend(path, c);
    WalkAppend([], Components(path), c);
    ComponentsAreStrings(path);
    WalkNames([], Components(path));
  }

  /** The parent of a rendered path */
  lemma Parent(dirs: seq<Path>, p: Path, name: Path)
    requires Names(dirs) && dirs != [] && Render(dirs) == p + [SLASH] + name && SLASH !in name
    ensures p == Render(dirs[..|dirs| - 1])
  {
    var n := |dirs| - 1;
    RenderPush(dirs[..n], dirs[n]);
    assert dirs == dirs[..n] + [dirs[n]] && IsName(dirs[n]);
    hide Render;
    LastSlash(p, name, Render(dirs[..n]), dirs[n]);
  }

  /**
   * Normalization component by component: an empty one and "." change nothing, ".." takes away the last name
   * and stops at the root, and any other one is added behind a slash. Before the first one there is the root.
   */
  lemma NormalizedSteps(path: CString, c: CString)
    requires (path == [] || Absolute(path)) && SLASH !in c
    ensures var before := if path == [] then [SLASH] else Normalized(path);
      var after := Normalized(path + [SLASH] + c);
      && (c == [] || c == [DOT] ==> after == before)
      && (IsName(c) ==> after == (if before == [SLASH] then [] else before) + [SLASH] + c)
      && (c == [DOT, DOT] ==>
            if before == [SLASH] then after == [SLASH]
            else forall p, name | before == p + [SLASH] + name && SLASH !in name :: after == OrRoot(p))
  {
    var dirs := Dirs(path);
    DirsAppend(path, c);
    RenderEnds(dirs);
    RenderPush(dirs, c);
    assert Render([]) == [];
    hide Render;
    hide Walk;
    hide Components;
    if c == [DOT, DOT] && dirs != [] {
      forall p, name | Render(dirs) == p + [SLASH] + name && SLASH !in name ensures p == Render(dirs[..|dirs| - 1]) {
        Parent(dirs, p, name);
      }
    }
    hide Names;
  }

  // ------------------------------------------------------------------ normalize_path

  /** What the loop knows: target is the result for the whole path, rest is still to be read. */
  ghost predicate Walking(out: Path, rest: Path, dirs: seq<Path>, target: seq<Path>) {
    var n := CompLen(rest);
    Names(dirs) && out + rest[..n] == Render(dirs) && Walk(dirs, Components(rest[n..])) == target
  }

  lemma WalkingByte(out: Path, rest: Path, dirs: seq<Path>, target: seq<Path>)
    requires Walking(out, rest, dirs, target) && rest != [] && rest[0] != SLASH
    ensures Walking(out + [rest[0]], rest[1..], dirs, target)
  {
    var n := CompLen(rest);
    assert out + [rest[0]] + rest[1..][..n - 1] == out + rest[..n];
    assert rest[1..][n - 1..] == rest[n..];
  }

  /** A path that begins with a slash: its first component and the rest */
  lemma FirstPart(rest: Path)
    requires rest != [] && rest[0] == SLASH && 0 !in rest
    ensures CompLen(rest) == 0
    ensures var c := First(rest);
      && SLASH !in c && 0 !in c && 1 + |c| <= |rest|
      && (|rest| > 1 + |c| ==> rest[1 + |c|] == SLASH)
      && Components(rest) == [c] + Components(rest[1 + |c|..])
  {
    hide CompLen;
    hide Components;
    var n := CompLen(rest[1..]);
    var c, tail := First(rest), rest[1 + n..];
    assert rest == [SLASH] + c + tail;
    forall k | 0 <= k < n ensures c[k] != 0 {
      assert c[k] == rest[1 + k] && rest[1 + k] in rest;
    }
    ComponentsCons(c, tail);
  }

  /** A slash between components */
  lemma AtSlash(out: Path, rest: Path, dirs: seq<Path>, target: seq<Path>)
    requires Walking(out, rest, dirs, target) && rest != [] && rest[0] == SLASH && 0 !in rest
    ensures out == Render(dirs) && Names(dirs)
    ensures var c := First(rest);
      && SLASH !in c && 0 !in c && 1 + |c| <= |rest|
      && (|rest| > 1 + |c| ==> rest[1 + |c|] == SLASH)
      && Walk(Enter(dirs, c), Components(rest[1 + |c|..])) == target
  {
    hide CompLen;
    hide Components;
    hide First;
    hide Enter;
    hide Render;
    hide IsName;
    FirstPart(rest);
    var c := First(rest);
    var tail := Components(rest[1 + |c|..]);
    assert out + rest[..0] == out && rest[0..] == rest;
    assert ([c] + tail)[1..] == tail;
  }

  /** The component behind the slash is not a name: it is skipped with the slash. */
  lemma SkipComponent(out: Path, rest: Path, dirs: seq<Path>, target: seq<Path>)
    requires Walking(out, rest, dirs, target) && rest != [] && rest[0] == SLASH && 0 !in rest && !IsName(First(rest))
    ensures var c := First(rest);
      out == Render(dirs) && Names(dirs) && Walking(Render(Enter(dirs, c)), rest[1 + |c|..], Enter(dirs, c), target)
  {
    AtSlash(out, rest, dirs, target);
    hide Components;
    hide Walk;
    hide First;
    var c := First(rest);
    var tail := rest[1 + |c|..];
    assert CompLen(tail) == 0 && tail[0..] == tail;
    hide Render;
    assert Render(Enter(dirs, c)) + tail[..0] == Render(Enter(dirs, c));
  }

  /** The component is a name: the slash is copied. */
  lemma CopySlash(out: Path, rest: Path, dirs: seq<Path>, target: seq<Path>)
    requires Walking(out, rest, dirs, target) && rest != [] && rest[0] == SLASH && 0 !in rest && IsName(First(rest))
    ensures Walking(out + [SLASH], rest[1..], dirs + [First(rest)], target)
  {
    AtSlash(out, rest, dirs, target);
    hide Components;
    hide Walk;
    var n := CompLen(rest[1..]);
    var c := First(rest);
    RenderPush(dirs, c);
    assert rest[1..][n..] == rest[1 + |c|..];
    hide CompLen;
    hide Render;
    assert Names(dirs + [c]);
    assert Enter(dirs, c) == dirs + [c];
  }

  /** Where ".." leads: the last name with its slash is taken back. */
  lemma RenderBack(dirs: seq<Path>, k: nat)
    requires Names(dirs) && k < |Render(dirs)| && Render(dirs)[k] == SLASH
    requires SLASH !in Render(dirs)[k + 1..]
    ensures Render(dirs)[..k] == Render(Enter(dirs, [DOT, DOT]))
  {
    var n := |dirs| - 1;
    var front, name := Render(dirs[..n]), dirs[n];
    assert Render(dirs) == front + [SLASH] + name && IsName(name);
    assert forall j | |front| < j < |Render(dirs)| :: Render(dirs)[j] == name[j - |front| - 1];
    assert forall j | k < j < |Render(dirs)| :: Render(dirs)[j] == Render(dirs)[k + 1..][j - k - 1];
    assert Render(dirs)[|front|] == SLASH;
    assert k == |front|;
  }

  /** The C string at the start of an array */
  ghost predicate HoldsString(a: array<byte>, s: Path)
    reads a
  {
    0 !in s && |s| < a.Length && a[..|s|] == s && a[|s|] == 0
  }

  /** The inner loop for "..": back to the slash before the last name */
  method Back(a: array<byte>, dst: nat, ghost dirs: seq<Path>) returns (r: nat)
    requires dst <= a.Length && a[..dst] == Render(dirs) && Names(dirs)
    ensures r <= dst && a[..r] == Render(Enter(dirs, [DOT, DOT]))
  {
    RenderEnds(dirs);
    r := dst;
    while r != 0
      invariant r <= dst && SLASH !in a[r..dst]
    {
      r := r - 1;
      if a[r] == SLASH {
        assert Render(dirs)[r + 1..] == a[r + 1..dst];
        RenderBack(dirs, r);
        assert a[..dst][..r] == a[..r];
        return;
      }
    }
    assert a[0..dst] == a[..dst];
  }

  /** The bytes from src on are still to be read; the string ends in a NUL byte. */
  ghost predicate Unread(a: array<byte>, src: nat, path: CString)
    reads a
  {
    src <= |path| < a.Length && a[src..|path|] == path[src..] && a[|path|] == 0
  }

  lemma UnreadBytes(a: array<byte>, src: nat, path: CString)
    requires Unread(a, src, path)
    ensures 0 !in path[src..] && |path[src..]| == |path| - src
    ensures (a[src] == 0 <==> path[src..] == []) && (path[src..] != [] ==> a[src] == path[src..][0])
    ensures |path[src..]| > 0 ==> a[src + 1] == if |path[src..]| > 1 then path[src..][1] else 0
    ensures |path[src..]| > 1 ==> a[src + 2] == if |path[src..]| > 2 then path[src..][2] else 0
    ensures |path[src..]| > 2 ==> a[src + 3] == if |path[src..]| > 3 then path[src..][3] else 0
  {
    assert forall k: nat | k < |path[src..]| :: a[src..|path|][k] == a[src + k];
  }

  lemma UnreadLater(a: array<byte>, src: nat, path: CString, k: nat)
    requires Unread(a, src, path) && src + k <= |path|
    ensures Unread(a, src + k, path) && path[src + k..] == path[src..][k..]
  {
    assert a[src + k..|path|] == a[src..|path|][k..];
  }

  /** path[dst++] = path[src++] */
  method CopyByte(a: array<byte>, src: nat, dst: nat, c: byte, ghost path: CString)
    requires Unread(a, src, path) && dst <= src < |path|
    modifies a
    ensures Unread(a, src + 1, path) && a[..dst + 1] == old(a[..dst]) + [c] && path[src + 1..] == path[src..][1..]
  {
    a[dst] := c;
    assert a[src + 1..|path|] == old(a[src..|path|])[1..];
  }

  lemma CompressStarts(a: array<byte>, path: CString) returns (target: seq<Path>)
    requires HoldsString(a, path) && Absolute(path)
    ensures |path| < a.Length && Unread(a, 0, path) && target == Walk([], Components(path))
    ensures Walking(a[..0], path[0..], [], target)
  {
    target := Walk([], Components(path));
    assert a[..|path|] == path && a[0..|path|] == path && path[0..] == path && a[..0] == [];
  }

  /** The loop of normalize_path; the result is the length of the string so far. */
  method Compress(a: array<byte>, ghost path: CString) returns (dst: nat)
    requires HoldsString(a, path) && Absolute(path)
    modifies a
    ensures dst <= |path| && |path| < a.Length && a[..dst] == Render(Walk([], Components(path)))
  {
    hide *;
    var src: nat := 0;
    dst := 0;
    ghost var target := CompressStarts(a, path);
    ghost var dirs: seq<Path> := [];
    while a[src] != 0
      invariant dst <= src <= |path| < a.Length && Unread(a, src, path)
      invariant Walking(a[..dst], path[src..], dirs, target)
      decreases |path| - src
    {
      ghost var rest := path[src..];
      UnreadBytes(a, src, path);
      if a[src] != SLASH {
        WalkingByte(a[..dst], rest, dirs, target);
        CopyByte(a, src, dst, a[src], path);
        dst, src := dst + 1, src + 1;
        continue;
      }
      FirstBytes(rest);
      ghost var c := First(rest);
      AtSlash(a[..dst], rest, dirs, target);
      NotAName(c);
      if a[src + 1] == SLASH || a[src + 1] == 0 {
        SkipComponent(a[..dst], rest, dirs, target);
        UnreadLater(a, src, path, 1);
        src := src + 1;
        dirs := Enter(dirs, c);
      } else if a[src + 1] == DOT && (a[src + 2] == SLASH || a[src + 2] == 0) {
        SkipComponent(a[..dst], rest, dirs, target);
        UnreadLater(a, src, path, 2);
        src := src + 2;
        dirs := Enter(dirs, c);
      } else if a[src + 1] == DOT && a[src + 2] == DOT && (a[src + 3] == SLASH || a[src + 3] == 0) {
        SkipComponent(a[..dst], rest, dirs, target);
        UnreadLater(a, src, path, 3);
        src := src + 3;
        dst := Back(a, dst, dirs);
        dirs := Enter(dirs, c);
      } else {
        CopySlash(a[..dst], rest, dirs, target);
        CopyByte(a, src, dst, SLASH, path);
        dst, src := dst + 1, src + 1;
        dirs := dirs + [c];
      }
    }
    UnreadBytes(a, src, path);
    WalkingEnds(a[..dst], path[src..], dirs, target);
  }

  lemma NotAName(c: Path)
    requires SLASH !in c && 0 !in c
    ensures IsName(c) <==> c != [] && c != [DOT] && c != [DOT, DOT]
    ensures forall dirs :: (c == [] || c == [DOT]) ==> Enter(dirs, c) == dirs
  {
  }

  lemma WalkingEnds(out: Path, rest: Path, dirs: seq<Path>, target: seq<Path>)
    requires Walking(out, rest, dirs, target) && rest == []
    ensures out == Render(target)
  {
    assert out + rest[..0] == out;
  }

  /** normalize_path: the string in the array is replaced in place; false if it is not absolute. */
  method NormalizePath(a: array<byte>, ghost path: CString) returns (ok: bool)
    requires HoldsString(a, path)
    modifies a
    ensures ok <==> Absolute(path)
    ensures ok ==> HoldsString(a, Normalized(path))
  {
    hide Render;
    hide Components;
    hide Walk;
    hide IsName;
    hide Served;
    if a[0] != SLASH { return false; }
    var dst := Compress(a, path);
    ParsedIsServed(path);
    RenderEnds(Walk([], Components(path)));
    if dst != 0 && a[dst - 1] == SLASH {
      dst := dst - 1;
    }
    if dst == 0 {
      a[dst] := SLASH;
      dst := dst + 1;
    }
    a[dst] := 0;
    return true;
  }

  // ------------------------------------------------------------------ rules as parsed

  /** The prefix of a rule is absent or comes from the parser. */
  ghost predicate Parsed(r: Policy.PathRule) {
    PrefixOf(r).Some? ==> exists path: CString :: Absolute(path) && PrefixOf(r).value == Normalized(path)
  }

  ghost predicate ParsedBlock(block: Option<seq<Policy.PathRule>>) {
    block.Some? ==> forall r <- block.value :: Parsed(r)
  }

  lemma ParsedBlockIsServed(block: Option<seq<Policy.PathRule>>)
    requires ParsedBlock(block)
    ensures BlockServed(block)
  {
    if block.Some? {
      forall r | r in block.value ensures Served(PrefixOf(r)) {
        if PrefixOf(r).Some? {
          var path: CString :| Absolute(path) && PrefixOf(r).value == Normalized(path);
          ParsedIsServed(path);
        }
      }
    }
  }

  /** Whatever prefixes are written in a policy, the verdict does not depend on the hash. */
  lemma ParsedVerdictHashIsScan(p: Option<Proc>, db: Policy.Db, ev: FileEvent, env: Contexts.Env)
    requires forall i: Prio :: ParsedBlock(SfsBlock(db, ev.uid, i)) && ParsedBlock(SbBlock(p, db, ev.uid, i))
    ensures RuleLookup.Verdict(p, db, ev, env, Hashed) == RuleLookup.Verdict(p, db, ev, env, Full)
  {
    hide *;
    forall i: Prio ensures BlockServed(SfsBlock(db, ev.uid, i)) && BlockServed(SbBlock(p, db, ev.uid, i)) {
      ParsedBlockIsServed(SfsBlock(db, ev.uid, i));
      ParsedBlockIsServed(SbBlock(p, db, ev.uid, i));
    }
    VerdictHashIsScan(p, db, ev, env);
  }
}

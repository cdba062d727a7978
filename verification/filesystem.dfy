/** The filesystem as the ingestion code uses it: a finite tree of
    directories and files addressed by normalised absolute paths, a working
    directory, and the `os`/`shutil` calls the code makes on it
    (`makedirs`, `shutil.move`, `shutil.rmtree`, `shutil.copyfile`,
    `os.remove`, writing a file, `os.chdir`). Path strings are turned into
    paths the way `os.path.abspath` does, lexically. */
module FileSystem {
  import opened Results
  import opened Strings

  newtype byte = x: int | 0 <= x < 256

  type Bytes = seq<byte>

  datatype Node = Dir | File(data: Bytes)

  /** A normalised absolute path, as its components below the root. */
  type Path = seq<string>

  datatype FS = FS(nodes: map<Path, Node>, cwd: Path)

  function Parent(p: Path): Path
    requires |p| > 0
  {
    p[..|p| - 1]
  }

  /** Every node hangs under a directory, up to the root directory. */
  predicate Valid(fs: FS) {
    [] in fs.nodes && fs.nodes[[]] == Dir &&
    forall p :: p in fs.nodes && |p| > 0 ==> Parent(p) in fs.nodes && fs.nodes[Parent(p)] == Dir
  }

  predicate IsDir(fs: FS, p: Path) {
    p in fs.nodes && fs.nodes[p] == Dir
  }

  predicate IsFile(fs: FS, p: Path) {
    p in fs.nodes && fs.nodes[p].File?
  }

  /** `q` is `p` or lies below it. */
  predicate Under(p: Path, q: Path) {
    p <= q
  }

  /** `q` lies strictly below `p`. */
  predicate Below(p: Path, q: Path) {
    p < q
  }

  // ------------------------------------------------------------ path strings

  /** A path component that normalisation keeps as it is. */
  predicate PlainName(n: string) {
    n != "" && n != "." && n != ".." && '/' !in n
  }

  /** Appends components to `base` as `os.path.normpath` does: empty and `.`
      components vanish and `..` climbs one level, never above the root. */
  function Normalize(base: Path, parts: seq<string>): Path
    decreases |parts|
  {
    if |parts| == 0 then base
    else
      var n := parts[0];
      var next :=
        if n == "" || n == "." then base
        else if n == ".." then (if |base| == 0 then base else base[..|base| - 1])
        else base + [n];
      Normalize(next, parts[1..])
  }

  /** `os.path.abspath(s)` when the working directory is `cwd`. */
  function Resolve(cwd: Path, s: string): Path {
    Normalize(if |s| > 0 && s[0] == '/' then [] else cwd, SplitOn(s, '/'))
  }

  /** The string `os.path.abspath` returns for a path. */
  function PathText(p: Path): string {
    "/" + JoinWith("/", p)
  }

  /** `os.path.join(a, b)` */
  function Join(a: string, b: string): string {
    if |b| > 0 && b[0] == '/' then b
    else if |a| == 0 || a[|a| - 1] == '/' then a + b
    else a + "/" + b
  }

  lemma {:induction false} NormalizeAppend(base: Path, xs: seq<string>, ys: seq<string>)
    ensures Normalize(base, xs + ys) == Normalize(Normalize(base, xs), ys)
    decreases |xs|
  {
    if |xs| == 0 {
      assert xs + ys == ys;
    } else {
      assert (xs + ys)[0] == xs[0];
      assert (xs + ys)[1..] == xs[1..] + ys;
      var n := xs[0];
      var next :=
        if n == "" || n == "." then base
        else if n == ".." then (if |base| == 0 then base else base[..|base| - 1])
        else base + [n];
      NormalizeAppend(next, xs[1..], ys);
    }
  }

  lemma {:induction false} SplitOnConcat(a: string, b: string, c: char)
    ensures SplitOn(a + [c] + b, c) == SplitOn(a, c) + SplitOn(b, c)
    decreases |a|
  {
    if |a| == 0 {
      assert a + [c] + b == [c] + b;
      SplitOnCons(c, b, c);
    } else {
      var a' := a[1..];
      var u := a' + [c] + b;
      SplitOnConcat(a', b, c);
      ConsConcat(a, b, c);
      SplitOnCons(a[0], u, c);
      SplitOnCons(a[0], a', c);
    }
  }

  lemma ConsConcat(a: string, b: string, c: char)
    requires |a| > 0
    ensures a + [c] + b == [a[0]] + (a[1..] + [c] + b)
    ensures a == [a[0]] + a[1..]
  {
  }

  /** One step of the split. */
  lemma SplitOnCons(x: char, t: string, c: char)
    ensures SplitOn([x] + t, c) ==
      if x == c then [""] + SplitOn(t, c)
      else [[x] + SplitOn(t, c)[0]] + SplitOn(t, c)[1..]
  {
    assert ([x] + t)[1..] == t;
  }

  /** Appending text without the separator extends the last part only. */
  lemma {:induction false} SplitOnSuffix(d: string, t: string, c: char)
    requires c !in t
    ensures var s := SplitOn(d, c);
      SplitOn(d + t, c) == s[..|s| - 1] + [s[|s| - 1] + t]
    decreases |d|
  {
    if |d| == 0 {
      assert d + t == t;
      assert "" + t == t;
      SplitOnNone(t, c);
    } else {
      var d' := d[1..];
      SplitOnSuffix(d', t, c);
      assert d + t == [d[0]] + (d' + t);
      assert d == [d[0]] + d';
      SplitOnCons(d[0], d' + t, c);
      SplitOnCons(d[0], d', c);
      LastPartStep(d[0], SplitOn(d', c), SplitOn(d' + t, c), t, c);
    }
  }

  /** The inductive step of `SplitOnSuffix`, on the parts alone. */
  lemma LastPartStep(x: char, s': seq<string>, r': seq<string>, t: string, c: char)
    requires |s'| >= 1 && r' == s'[..|s'| - 1] + [s'[|s'| - 1] + t]
    ensures var s := if x == c then [""] + s' else [[x] + s'[0]] + s'[1..];
      var r := if x == c then [""] + r' else [[x] + r'[0]] + r'[1..];
      r == s[..|s| - 1] + [s[|s| - 1] + t]
  {
    if x != c {
      if |s'| == 1 {
        assert r' == [s'[0] + t];
        assert [x] + (s'[0] + t) == ([x] + s'[0]) + t;
      } else {
        assert r'[0] == s'[0];
        assert r'[1..] == s'[1..|s'| - 1] + [s'[|s'| - 1] + t];
      }
    }
  }

  /** The root a string starts from: `/` or the working directory. */
  function Start(cwd: Path, s: string): Path {
    if |s| > 0 && s[0] == '/' then [] else cwd
  }

  /** Components appended after a separator extend the resolved path. */
  lemma ResolveConcat(cwd: Path, a: string, b: string)
    requires |a| > 0
    ensures Resolve(cwd, a + ['/'] + b) == Normalize(Resolve(cwd, a), SplitOn(b, '/'))
  {
    assert (a + ['/'] + b)[0] == a[0];
    assert Start(cwd, a + ['/'] + b) == Start(cwd, a);
    SplitOnConcat(a, b, '/');
    NormalizeAppend(Start(cwd, a), SplitOn(a, '/'), SplitOn(b, '/'));
  }

  /** Text without a separator appended to a path string lengthens its last
      component, which then names a directory entry of its own. */
  lemma ResolveSuffix(cwd: Path, d: string, t: string)
    requires '/' !in t && |t| >= 3
    ensures var s := SplitOn(d, '/');
      Resolve(cwd, d + t) == Normalize(Start(cwd, d), s[..|s| - 1]) + [s[|s| - 1] + t]
  {
    var s := SplitOn(d, '/');
    SplitOnSuffix(d, t, '/');
    var x := s[|s| - 1] + t;
    assert '/' !in x;
    assert |x| >= 3;
    assert Start(cwd, d + t) == Start(cwd, d) by {
      if |d| == 0 {
        assert d + t == t;
        assert t[0] in t;
      } else {
        assert (d + t)[0] == d[0];
      }
    }
    NormalizeAppend(Start(cwd, d), s[..|s| - 1], [x]);
  }

  /** Trailing separators do not change the path a string names, as long as
      something is left. */
  lemma {:induction false} StripSlashesResolve(cwd: Path, s: string)
    requires RStripChar(s, '/') != ""
    ensures Resolve(cwd, RStripChar(s, '/')) == Resolve(cwd, s)
    decreases |s|
  {
    if |s| > 0 && s[|s| - 1] == '/' {
      var s' := s[..|s| - 1];
      StripSlashesResolve(cwd, s');
      assert s == s' + "/";
      TrailingSlash(cwd, s');
    }
  }

  /** Joining a plain name to a directory string adds one component. */
  lemma JoinResolve(cwd: Path, a: string, n: string)
    requires PlainName(n)
    ensures Resolve(cwd, Join(a, n)) == Resolve(cwd, a) + [n]
  {
    SplitOnNone(n, '/');
    assert n[0] != '/' by { assert n[0] in n; }
    assert Normalize(Resolve(cwd, a), [n]) == Resolve(cwd, a) + [n];
    if |a| == 0 {
      assert Join(a, n) == n;
      assert Resolve(cwd, n) == Normalize(cwd, [n]);
      assert Resolve(cwd, a) == Normalize(cwd, [""]);
    } else if a == "/" {
      JoinResolveRoot(cwd, n);
    } else if a[|a| - 1] == '/' {
      JoinResolveSlash(cwd, a, n);
    } else {
      assert Join(a, n) == a + ['/'] + n;
      ResolveConcat(cwd, a, n);
    }
  }

  lemma JoinResolveRoot(cwd: Path, n: string)
    requires n != "" && n[0] != '/' && SplitOn(n, '/') == [n]
    ensures Resolve(cwd, Join("/", n)) == Normalize(Resolve(cwd, "/"), [n])
  {
    var a := "/";
    assert Join(a, n) == ['/'] + n;
    assert SplitOn(['/'] + n, '/') == [""] + SplitOn(n, '/');
    assert a == ['/'] + "";
    SplitOnConcat("", "", '/');
    assert SplitOn("", '/') == [""];
    assert SplitOn(a, '/') == ["", ""];
    assert Resolve(cwd, a) == Normalize([], ["", ""]);
  }

  lemma JoinResolveSlash(cwd: Path, a: string, n: string)
    requires |a| > 1 && a[|a| - 1] == '/'
    requires n != "" && n[0] != '/' && SplitOn(n, '/') == [n]
    ensures Resolve(cwd, Join(a, n)) == Normalize(Resolve(cwd, a), [n])
  {
    JoinAfterSlash(a, n);
    SlashSplit(a, n);
    ResolveSlashName(cwd, a[..|a| - 1], n);
  }

  lemma JoinAfterSlash(a: string, n: string)
    requires |a| > 0 && a[|a| - 1] == '/'
    requires |n| > 0 && n[0] != '/'
    ensures Join(a, n) == a + n
  {
  }

  lemma SlashSplit(a: string, n: string)
    requires |a| > 0 && a[|a| - 1] == '/'
    ensures a == a[..|a| - 1] + ['/'] + ""
    ensures a + n == a[..|a| - 1] + ['/'] + n
  {
    assert a == a[..|a| - 1] + ['/'];
  }

  lemma ResolveSlashName(cwd: Path, d: string, n: string)
    requires |d| > 0 && SplitOn(n, '/') == [n]
    ensures Resolve(cwd, d + ['/'] + n) == Normalize(Resolve(cwd, d + ['/'] + ""), [n])
  {
    ResolveConcat(cwd, d, "");
    ResolveConcat(cwd, d, n);
    assert SplitOn("", '/') == [""];
    assert Normalize(Resolve(cwd, d), [""]) == Resolve(cwd, d);
  }

  /** A path whose components normalisation keeps as they are: every path
      `abspath` produces from such a working directory is one. */
  predicate PlainPath(p: Path) {
    forall i :: 0 <= i < |p| ==> PlainName(p[i])
  }

  lemma {:induction false} NormalizePlain(base: Path, parts: seq<string>)
    requires PlainPath(base)
    requires forall k :: 0 <= k < |parts| ==> '/' !in parts[k]
    ensures PlainPath(Normalize(base, parts))
    decreases |parts|
  {
    if |parts| > 0 {
      var n := parts[0];
      var next :=
        if n == "" || n == "." then base
        else if n == ".." then (if |base| == 0 then base else base[..|base| - 1])
        else base + [n];
      assert PlainPath(next);
      NormalizePlain(next, parts[1..]);
    }
  }

  /** From a plain working directory every string names a plain path. */
  lemma ResolvePlain(cwd: Path, s: string)
    requires PlainPath(cwd)
    ensures PlainPath(Resolve(cwd, s))
  {
    NormalizePlain(if |s| > 0 && s[0] == '/' then [] else cwd, SplitOn(s, '/'));
  }

  lemma {:induction false} NormalizeKeepsPlain(base: Path, parts: seq<string>)
    requires PlainPath(parts)
    ensures Normalize(base, parts) == base + parts
    decreases |parts|
  {
    if |parts| == 0 {
      assert base + parts == base;
    } else {
      assert PlainName(parts[0]);
      NormalizeKeepsPlain(base + [parts[0]], parts[1..]);
      assert base + [parts[0]] + parts[1..] == base + parts;
    }
  }

  lemma {:induction false} SplitJoin(parts: seq<string>)
    requires |parts| > 0 && forall k :: 0 <= k < |parts| ==> '/' !in parts[k]
    ensures SplitOn(JoinWith("/", parts), '/') == parts
    decreases |parts|
  {
    if |parts| == 1 {
      SplitOnNone(parts[0], '/');
    } else {
      assert JoinWith("/", parts) == parts[0] + ['/'] + JoinWith("/", parts[1..]);
      SplitOnConcat(parts[0], JoinWith("/", parts[1..]), '/');
      SplitOnNone(parts[0], '/');
      SplitJoin(parts[1..]);
      assert parts == [parts[0]] + parts[1..];
    }
  }

  /** `abspath` of the text `abspath` returns names the same path. */
  lemma PathTextResolve(cwd: Path, p: Path)
    requires PlainPath(p)
    ensures Resolve(cwd, PathText(p)) == p
  {
    var t := PathText(p);
    assert t[0] == '/';
    if |p| == 0 {
      assert t == "" + ['/'] + "";
      SplitOnConcat("", "", '/');
      assert SplitOn("", '/') == [""];
      assert SplitOn(t, '/') == ["", ""];
      assert Normalize([], ["", ""]) == Normalize([], [""]) == [];
    } else {
      assert t == "" + ['/'] + JoinWith("/", p);
      SplitOnConcat("", JoinWith("/", p), '/');
      assert SplitOn("", '/') == [""];
      SplitJoin(p);
      assert SplitOn(t, '/') == [""] + p;
      NormalizeKeepsPlain([], p);
      assert Normalize([], [""] + p) == Normalize([], p);
    }
  }

  /** A trailing slash does not change the path a non-empty string names. */
  lemma TrailingSlash(cwd: Path, s: string)
    requires |s| > 0
    ensures Resolve(cwd, s + "/") == Resolve(cwd, s)
  {
    assert s + "/" == s + ['/'] + "";
    ResolveConcat(cwd, s, "");
    assert SplitOn("", '/') == [""];
  }

  // -------------------------------------------------------------- operations

  /** The node at `q` is the same in both trees: both lack it or both hold
      the same node. */
  predicate Agree(a: FS, b: FS, q: Path) {
    (q in a.nodes <==> q in b.nodes) && (q in a.nodes ==> a.nodes[q] == b.nodes[q])
  }

  /** Nothing outside the subtree at `p` differs. */
  ghost predicate SameOutside(a: FS, b: FS, p: Path) {
    a.cwd == b.cwd && forall q :: !Under(p, q) ==> Agree(a, b, q)
  }

  /** In a valid tree every ancestor of a node is a directory. */
  lemma {:induction false} AncestorsAreDirs(fs: FS, p: Path, k: nat)
    requires Valid(fs) && p in fs.nodes && k < |p|
    ensures IsDir(fs, p[..k])
    decreases |p| - k
  {
    if k < |p| - 1 {
      AncestorsAreDirs(fs, p, k + 1);
      assert Parent(p[..k + 1]) == p[..k];
    } else {
      assert Parent(p) == p[..k];
    }
  }

  lemma DirAbove(fs: FS, d: Path, k: Path)
    requires Valid(fs) && k in fs.nodes && d <= k && d != k
    ensures IsDir(fs, d)
  {
    AncestorsAreDirs(fs, k, |d|);
    assert k[..|d|] == d;
  }

  /** `os.chdir(p)` */
  function Chdir(fs: FS, p: Path): (r: Result<FS>)
    ensures r.Ok? <==> IsDir(fs, p)
    ensures r.Ok? ==> r.value.nodes == fs.nodes && r.value.cwd == p
  {
    if IsDir(fs, p) then Ok(fs.(cwd := p)) else Err(OSError("No such directory"))
  }

  /** `p` and all its ancestors. */
  function Prefixes(p: Path): set<Path> {
    set k | 0 <= k <= |p| :: p[..k]
  }

  /** `os.makedirs(p)`: fails when `p` exists or an ancestor is a file;
      otherwise `p` and every missing ancestor become directories and
      nothing else changes. */
  function MakeDirs(fs: FS, p: Path): (r: Result<FS>)
    ensures r.Ok? <==> p !in fs.nodes && forall k :: 0 <= k < |p| ==> !IsFile(fs, p[..k])
    ensures r.Ok? ==> IsDir(r.value, p) && r.value.cwd == fs.cwd
    ensures r.Ok? ==> forall q :: q in fs.nodes ==> Agree(fs, r.value, q)
    ensures r.Ok? ==> forall q :: q in r.value.nodes && q !in fs.nodes ==> q <= p && r.value.nodes[q] == Dir
    ensures r.Ok? && Valid(fs) ==> Valid(r.value)
  {
    if p in fs.nodes then Err(OSError("File exists"))
    else if exists k :: 0 <= k < |p| && IsFile(fs, p[..k]) then Err(OSError("Not a directory"))
    else
      var added := map q | q in Prefixes(p) && q !in fs.nodes :: Dir;
      var r := FS(fs.nodes + added, fs.cwd);
      assert p[..|p|] == p;
      assert Valid(fs) ==> Valid(r) by {
        if Valid(fs) {
          forall q | q in r.nodes && |q| > 0
            ensures Parent(q) in r.nodes && r.nodes[Parent(q)] == Dir
          {
            if q in added {
              var k :| 0 <= k <= |p| && q == p[..k];
              assert Parent(q) == p[..k - 1];
              assert !IsFile(fs, p[..k - 1]);
              assert p[..k - 1] in Prefixes(p);
            } else {
              assert q in fs.nodes;
            }
          }
        }
      }
      Ok(r)
  }

  /** `shutil.rmtree(p)`: the directory `p` and everything below it go, and
      nothing else changes. */
  function RemoveTree(fs: FS, p: Path): (r: Result<FS>)
    ensures r.Ok? <==> IsDir(fs, p) && |p| > 0
    ensures r.Ok? ==> forall q :: Under(p, q) ==> q !in r.value.nodes
    ensures r.Ok? ==> SameOutside(fs, r.value, p)
    ensures r.Ok? && Valid(fs) ==> Valid(r.value)
  {
    if !IsDir(fs, p) then Err(OSError("Not a directory"))
    else if |p| == 0 then Err(OSError("Device or resource busy"))
    else
      var r := FS(map q | q in fs.nodes && !Under(p, q) :: fs.nodes[q], fs.cwd);
      assert forall q :: q in r.nodes && |q| > 0 && Under(p, Parent(q)) ==> Under(p, q);
      Ok(r)
  }

  /** Writing `data` to the file `p`, creating or truncating it. */
  function WriteFile(fs: FS, p: Path, data: Bytes): (r: Result<FS>)
    ensures r.Ok? <==> |p| > 0 && IsDir(fs, Parent(p)) && !IsDir(fs, p)
    ensures r.Ok? ==> p in r.value.nodes && r.value.nodes[p] == File(data)
    ensures r.Ok? ==> r.value.cwd == fs.cwd && forall q :: q != p ==> Agree(fs, r.value, q)
    ensures r.Ok? && Valid(fs) ==> Valid(r.value)
  {
    if |p| == 0 || !IsDir(fs, Parent(p)) then Err(OSError("No such file or directory"))
    else if IsDir(fs, p) then Err(OSError("Is a directory"))
    else Ok(FS(fs.nodes[p := File(data)], fs.cwd))
  }

  /** `shutil.copyfile(src, dst)` */
  function CopyFile(fs: FS, src: Path, dst: Path): (r: Result<FS>)
    ensures r == Err(SameFileError) <==> src in fs.nodes && src == dst
    ensures r.Ok? <==> IsFile(fs, src) && src != dst && |dst| > 0 && IsDir(fs, Parent(dst)) && !IsDir(fs, dst)
    ensures r.Ok? ==> IsFile(r.value, dst) && r.value.nodes[dst] == fs.nodes[src]
    ensures r.Ok? ==> r.value.cwd == fs.cwd && forall q :: q != dst ==> Agree(fs, r.value, q)
    ensures r.Ok? && Valid(fs) ==> Valid(r.value)
  {
    if src in fs.nodes && src == dst then Err(SameFileError)
    else if !IsFile(fs, src) then Err(OSError("No such file or directory"))
    else WriteFile(fs, dst, fs.nodes[src].data)
  }

  /** `os.remove(p)` */
  function RemoveFile(fs: FS, p: Path): (r: Result<FS>)
    ensures r.Ok? <==> IsFile(fs, p)
    ensures r.Ok? ==> p !in r.value.nodes
    ensures r.Ok? ==> r.value.cwd == fs.cwd && forall q :: q != p ==> Agree(fs, r.value, q)
    ensures r.Ok? && Valid(fs) ==> Valid(r.value)
  {
    if IsFile(fs, p) then
      var r := FS(map q | q in fs.nodes && q != p :: fs.nodes[q], fs.cwd);
      assert Valid(fs) ==> forall q :: q in r.nodes && |q| > 0 ==> Parent(q) != p;
      Ok(r)
    else Err(OSError("No such file"))
  }

  /** Where `shutil.move(src, dst)` puts `src`: inside `dst` when that is a
      directory, at `dst` otherwise. */
  function MoveTarget(fs: FS, src: Path, dst: Path): Path
    requires |src| > 0
  {
    if IsDir(fs, dst) then dst + [src[|src| - 1]] else dst
  }

  /** The tree after the subtree at `src` is re-rooted at `dst`. */
  function Relocate(nodes: map<Path, Node>, src: Path, dst: Path): map<Path, Node> {
    Kept(nodes, src) + Moved(nodes, src, dst)
  }

  function Kept(nodes: map<Path, Node>, src: Path): map<Path, Node> {
    map q | q in nodes && !Under(src, q) :: nodes[q]
  }

  /** The nodes below `src`, each at the same place below `dst`. */
  function Moved(nodes: map<Path, Node>, src: Path, dst: Path): (m: map<Path, Node>)
    ensures forall x :: dst + x in m <==> src + x in nodes
    ensures forall x :: src + x in nodes ==> m[dst + x] == nodes[src + x]
    ensures forall k :: k in m ==> Under(dst, k)
  {
    var targets := set q | q in nodes && Under(src, q) :: dst + q[|src|..];
    var m := map k | k in targets && Under(dst, k) && src + k[|dst|..] in nodes :: nodes[src + k[|dst|..]];
    forall x
      ensures dst + x in m <==> src + x in nodes
    {
      assert (dst + x)[|dst|..] == x;
      if src + x in nodes {
        assert (src + x)[|src|..] == x;
        assert dst + x in targets;
      }
    }
    m
  }

  lemma RelocateAt(nodes: map<Path, Node>, src: Path, dst: Path, x: Path)
    ensures src + x in nodes ==> dst + x in Relocate(nodes, src, dst) && Relocate(nodes, src, dst)[dst + x] == nodes[src + x]
    ensures dst + x in Relocate(nodes, src, dst) && dst + x !in nodes ==> src + x in nodes
  {
  }

  lemma RelocateOutside(nodes: map<Path, Node>, src: Path, dst: Path, q: Path)
    requires !Under(src, q) && !Under(dst, q)
    ensures (q in Relocate(nodes, src, dst) <==> q in nodes)
    ensures q in nodes ==> Relocate(nodes, src, dst)[q] == nodes[q]
  {
  }

  /** Relocating onto a free place, or onto a file by a file, keeps a valid
      tree valid. */
  lemma RelocateValid(fs: FS, src: Path, dst: Path)
    requires Valid(fs) && src in fs.nodes && |src| > 0 && |dst| > 0
    requires IsDir(fs, Parent(dst)) && !Under(src, dst)
    requires dst in fs.nodes ==> fs.nodes[dst].File? && fs.nodes[src].File?
    ensures Valid(FS(Relocate(fs.nodes, src, dst), fs.cwd))
  {
    var r := Relocate(fs.nodes, src, dst);
    assert [] in Kept(fs.nodes, src);
    assert [] !in Moved(fs.nodes, src, dst);
    forall k | k in r && |k| > 0
      ensures Parent(k) in r && r[Parent(k)] == Dir
    {
      if k in Moved(fs.nodes, src, dst) {
        MovedParent(fs, src, dst, k);
      } else {
        KeptParent(fs, src, dst, k);
      }
    }
  }

  lemma MovedParent(fs: FS, src: Path, dst: Path, k: Path)
    requires Valid(fs) && |src| > 0 && |dst| > 0
    requires IsDir(fs, Parent(dst)) && !Under(src, dst)
    requires k in Moved(fs.nodes, src, dst)
    ensures var r := Relocate(fs.nodes, src, dst); Parent(k) in r && r[Parent(k)] == Dir
  {
    var m := Moved(fs.nodes, src, dst);
    assert Under(dst, k);
    var x := k[|dst|..];
    assert k == dst + x;
    assert src + x in fs.nodes;
    if |x| == 0 {
      assert k == dst;
      MovedTargetParent(fs, src, dst);
    } else {
      MovedInnerParent(fs, src, dst, x);
      assert Parent(k) == Parent(dst + x);
    }
  }

  lemma MovedTargetParent(fs: FS, src: Path, dst: Path)
    requires |src| > 0 && |dst| > 0
    requires IsDir(fs, Parent(dst)) && !Under(src, dst)
    ensures var r := Relocate(fs.nodes, src, dst); Parent(dst) in r && r[Parent(dst)] == Dir
  {
    var p := Parent(dst);
    assert !Under(dst, p);
    assert p !in Moved(fs.nodes, src, dst);
    assert !Under(src, p);
    assert p in Kept(fs.nodes, src) && Kept(fs.nodes, src)[p] == Dir;
  }

  lemma MovedInnerParent(fs: FS, src: Path, dst: Path, x: Path)
    requires Valid(fs) && |x| > 0
    requires src + x in fs.nodes
    ensures var r := Relocate(fs.nodes, src, dst);
      Parent(dst + x) in r && r[Parent(dst + x)] == Dir
  {
    assert Parent(src + x) == src + Parent(x);
    assert Parent(dst + x) == dst + Parent(x);
    var m := Moved(fs.nodes, src, dst);
    assert dst + Parent(x) in m && m[dst + Parent(x)] == fs.nodes[src + Parent(x)];
  }

  lemma KeptParent(fs: FS, src: Path, dst: Path, k: Path)
    requires Valid(fs) && |src| > 0 && |dst| > 0
    requires dst in fs.nodes ==> fs.nodes[dst].File?
    requires k in Relocate(fs.nodes, src, dst) && k !in Moved(fs.nodes, src, dst) && |k| > 0
    ensures var r := Relocate(fs.nodes, src, dst); Parent(k) in r && r[Parent(k)] == Dir
  {
    assert k in Kept(fs.nodes, src);
    assert !Under(src, Parent(k));
    assert Parent(k) in Kept(fs.nodes, src);
    if Parent(k) in Moved(fs.nodes, src, dst) {
      DirAbove(fs, dst, k);
      assert false;
    }
  }

  /** `shutil.move(src, dst)`. When `dst` is a directory, `src` goes inside
      it under its own name, which must be free; otherwise `src` is renamed
      to `dst`, where a file may replace a file. Moving a directory into
      itself or onto a file fails. */
  function Move(fs: FS, src: Path, dst: Path): (r: Result<FS>)
    ensures r.Ok? ==> src in fs.nodes && |src| > 0 && r.value.cwd == fs.cwd
    ensures r.Ok? && src != dst ==>
      var t := MoveTarget(fs, src, dst);
      !Under(src, t) &&
      (forall q :: !Under(src, q) && !Under(t, q) ==> Agree(fs, r.value, q)) &&
      (forall x :: src + x in fs.nodes ==> t + x in r.value.nodes && r.value.nodes[t + x] == fs.nodes[src + x]) &&
      (forall x :: t + x in r.value.nodes && t + x !in fs.nodes ==> src + x in fs.nodes)
    ensures r.Ok? && src != dst && Valid(fs) ==>
      Valid(r.value) && forall q :: Under(src, q) ==> q !in r.value.nodes
    ensures Valid(fs) && src in fs.nodes && |src| > 0 && dst !in fs.nodes && |dst| > 0 &&
            IsDir(fs, Parent(dst)) && !Under(src, dst) ==>
      r.Ok? && MoveTarget(fs, src, dst) == dst
  {
    if src !in fs.nodes || |src| == 0 then Err(OSError("No such file or directory"))
    else if src == dst then Ok(fs)
    else
      var t := MoveTarget(fs, src, dst);
      if IsDir(fs, dst) && t in fs.nodes then Err(OSError("Destination path already exists"))
      else if Under(src, t) then Err(OSError("Cannot move a directory into itself"))
      else if |t| == 0 || !IsDir(fs, Parent(t)) then Err(OSError("No such file or directory"))
      else if t in fs.nodes && fs.nodes[src] == Dir then Err(OSError("Not a directory"))
      else
        var r := FS(Relocate(fs.nodes, src, t), fs.cwd);
        MoveFacts(fs, src, t);
        Ok(r)
  }

  lemma MoveFacts(fs: FS, src: Path, t: Path)
    requires src in fs.nodes && |src| > 0 && |t| > 0 && !Under(src, t) && IsDir(fs, Parent(t))
    requires t in fs.nodes ==> fs.nodes[t].File? && fs.nodes[src].File?
    ensures var r := FS(Relocate(fs.nodes, src, t), fs.cwd);
      (forall q :: !Under(src, q) && !Under(t, q) ==> Agree(fs, r, q)) &&
      (forall x :: src + x in fs.nodes ==> t + x in r.nodes && r.nodes[t + x] == fs.nodes[src + x]) &&
      (forall x :: t + x in r.nodes && t + x !in fs.nodes ==> src + x in fs.nodes)
    ensures Valid(fs) ==>
      var r := FS(Relocate(fs.nodes, src, t), fs.cwd);
      Valid(r) && forall q :: Under(src, q) ==> q !in r.nodes
  {
    MoveFrame(fs, src, t);
    if Valid(fs) {
      RelocateValid(fs, src, t);
      MoveEmptiesSource(fs, src, t);
    }
  }

  lemma MoveFrame(fs: FS, src: Path, t: Path)
    ensures var r := FS(Relocate(fs.nodes, src, t), fs.cwd);
      (forall q :: !Under(src, q) && !Under(t, q) ==> Agree(fs, r, q)) &&
      (forall x :: src + x in fs.nodes ==> t + x in r.nodes && r.nodes[t + x] == fs.nodes[src + x]) &&
      (forall x :: t + x in r.nodes && t + x !in fs.nodes ==> src + x in fs.nodes)
  {
    var r := FS(Relocate(fs.nodes, src, t), fs.cwd);
    forall q | !Under(src, q) && !Under(t, q)
      ensures Agree(fs, r, q)
    {
      RelocateOutside(fs.nodes, src, t, q);
    }
    forall x
      ensures src + x in fs.nodes ==> t + x in r.nodes && r.nodes[t + x] == fs.nodes[src + x]
      ensures t + x in r.nodes && t + x !in fs.nodes ==> src + x in fs.nodes
    {
      RelocateAt(fs.nodes, src, t, x);
    }
  }

  /** Nothing is left at or below the moved path. */
  lemma MoveEmptiesSource(fs: FS, src: Path, t: Path)
    requires Valid(fs) && src in fs.nodes && |src| > 0 && |t| > 0 && !Under(src, t) && IsDir(fs, Parent(t))
    requires t in fs.nodes ==> fs.nodes[t].File? && fs.nodes[src].File?
    ensures forall q :: Under(src, q) ==> q !in Relocate(fs.nodes, src, t)
  {
    forall q | Under(src, q)
      ensures q !in Relocate(fs.nodes, src, t)
    {
      MoveEmptiesAt(fs, src, t, q);
    }
  }

  lemma MoveEmptiesAt(fs: FS, src: Path, t: Path, q: Path)
    requires Valid(fs) && src in fs.nodes && |src| > 0 && |t| > 0 && !Under(src, t) && IsDir(fs, Parent(t))
    requires t in fs.nodes ==> fs.nodes[t].File? && fs.nodes[src].File?
    requires Under(src, q)
    ensures q !in Relocate(fs.nodes, src, t)
  {
    if q in Relocate(fs.nodes, src, t) {
      assert q !in Kept(fs.nodes, src);
      assert Under(t, q);
      if |t| <= |src| {
        assert q[..|t|] == t;
        assert src[..|t|] == t;
        AncestorsAreDirs(fs, src, |t|);
        assert false;
      } else {
        assert false;
      }
    }
  }
}

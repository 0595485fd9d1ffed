/**
 * The part of the POSIX flavour of Node's `path` module the library relies on:
 * `path.parse`, `path.isAbsolute` and `path.join` (through `path.normalize`).
 */
module PosixPath {

  /** What `path.parse` returns; `ext` still carries its leading dot. */
  datatype Parsed = Parsed(root: string, dir: string, base: string, name: string, ext: string)

  predicate IsAbsolute(p: string) {
    |p| > 0 && p[0] == '/'
  }

  /** A path segment that normalisation keeps as it is. */
  predicate IsPlainSegment(s: string) {
    s != "" && s != "." && s != ".." && '/' !in s
  }

  /** End (exclusive) of `p[lo..hi]` once its trailing slashes are dropped; `lo` when only slashes remain. */
  function TrimmedEnd(p: string, lo: nat, hi: nat): (e: nat)
    requires lo <= hi <= |p|
    ensures lo <= e <= hi
    ensures forall k :: e <= k < hi ==> p[k] == '/'
    ensures e > lo ==> p[e - 1] != '/'
    decreases hi
  {
    if hi == lo then lo
    else if p[hi - 1] == '/' then TrimmedEnd(p, lo, hi - 1)
    else hi
  }

  /** Index of the last slash of `p[lo..hi]`, or -1 when there is none. */
  function LastSlash(p: string, lo: nat, hi: nat): (k: int)
    requires lo <= hi <= |p|
    ensures k == -1 || (lo <= k < hi && p[k] == '/')
    ensures forall j :: lo <= j < hi && k < j ==> p[j] != '/'
    decreases hi
  {
    if hi == lo then -1
    else if p[hi - 1] == '/' then hi - 1
    else LastSlash(p, lo, hi - 1)
  }

  /** Index of the last dot of `s` before `hi`, or -1 when there is none. */
  function LastDot(s: string, hi: nat): (k: int)
    requires hi <= |s|
    ensures k == -1 || (0 <= k < hi && s[k] == '.')
    ensures forall j :: k < j < hi ==> s[j] != '.'
  {
    if hi == 0 then -1
    else if s[hi - 1] == '.' then hi - 1
    else LastDot(s, hi - 1)
  }

  /**
   * Where the extension of `base` starts (`|base|` when it has none): at its last dot, unless
   * that dot opens the base (".git") or the base is "..". `atRoot` says the base follows the
   * root slash directly, where `parse` compares against the wrong index and misses "..".
   */
  function ExtensionStart(base: string, atRoot: bool): (d: nat)
    ensures d <= |base|
    ensures d < |base| ==> 0 < d && base[d] == '.' && '.' !in base[d + 1..]
    ensures '.' !in base ==> d == |base|
  {
    var k := LastDot(base, |base|);
    if k <= 0 || (base == ".." && !atRoot) then |base| else k
  }

  /**
   * `path.posix.parse`: the base is the last segment once trailing slashes are dropped,
   * the directory is everything before the slash in front of it, and the name and
   * extension split the base at `ExtensionStart`.
   */
  function Parse(p: string): (r: Parsed)
    ensures r.name + r.ext == r.base
    ensures '/' !in r.base
    ensures r.ext == "" || (r.ext[0] == '.' && '.' !in r.ext[1..])
    ensures r.root == (if IsAbsolute(p) then "/" else "")
  {
    if p == "" then Parsed("", "", "", "", "")
    else
      var (s, e, startPart) := Bounds(p);
      var root := if p[0] == '/' then "/" else "";
      var dir := if startPart > 0 then p[..startPart - 1] else root;
      var base := p[s..e];
      var d := ExtensionStart(base, startPart == 0 && p[0] == '/');
      assert base[..d] + base[d..] == base;
      Parsed(root, dir, base, base[..d], base[d..])
  }

  /**
   * The scan of `parse`, as a triple: where the base starts, where it ends once trailing
   * slashes are dropped, and the index just after the slash in front of it (0 when no slash
   * other than the root one precedes it).
   */
  function Bounds(p: string): (b: (nat, nat, nat))
    requires p != ""
    ensures b.0 <= b.1 <= |p| && b.2 <= b.1
    ensures b.2 > 0 ==> p[b.2 - 1] == '/' && b.0 == b.2
    ensures '/' !in p[b.0..b.1]
  {
    var start := if p[0] == '/' then 1 else 0;
    var e := TrimmedEnd(p, start, |p|);
    var sl := LastSlash(p, start, e);
    var startPart := if sl == -1 then 0 else sl + 1;
    (if startPart == 0 then start else startPart, e, startPart)
  }

  /** Splits a path at every slash; the pieces hold no slash. */
  function Split(p: string): (r: seq<string>)
    ensures |r| >= 1
    ensures forall i :: 0 <= i < |r| ==> '/' !in r[i]
  {
    if p == "" then [""]
    else if p[0] == '/' then [""] + Split(p[1..])
    else
      var t := Split(p[1..]);
      [[p[0]] + t[0]] + t[1..]
  }

  /** Joins segments with slashes. */
  function Intercalate(ss: seq<string>): string {
    if ss == [] then ""
    else if |ss| == 1 then ss[0]
    else ss[0] + "/" + Intercalate(ss[1..])
  }

  /** One step of `normalizeString` for an absolute path: "" and "." vanish, ".." drops a segment (never above the root). */
  function Step(acc: seq<string>, seg: string): seq<string> {
    if seg == "" || seg == "." then acc
    else if seg == ".." then (if acc == [] then [] else acc[..|acc| - 1])
    else acc + [seg]
  }

  function Resolve(segs: seq<string>, acc: seq<string>): seq<string>
    decreases |segs|
  {
    if segs == [] then acc else Resolve(segs[1..], Step(acc, segs[0]))
  }

  /** `path.posix.normalize` for an absolute path: keeps one trailing slash when the input had one. */
  function Normalize(p: string): (r: string)
    requires IsAbsolute(p)
    ensures IsAbsolute(r)
  {
    var segs := Resolve(Split(p)[1..], []);
    if segs == [] then "/"
    else "/" + Intercalate(segs) + (if p[|p| - 1] == '/' then "/" else "")
  }

  /** `path.posix.join(dir, base)` for an absolute `dir`: empty arguments are skipped, the rest normalised. */
  function Join(dir: string, base: string): (r: string)
    requires IsAbsolute(dir)
    ensures IsAbsolute(r)
  {
    Normalize(if base == "" then dir else dir + "/" + base)
  }

  /** The segments an absolute directory path stands for once normalised. */
  function DirSegments(dir: string): seq<string>
    requires IsAbsolute(dir)
  {
    Resolve(Split(dir)[1..], [])
  }

  // ---------------------------------------------------------------- lemmas

  lemma {:induction false} SplitSlashFree(s: string)
    requires '/' !in s
    ensures Split(s) == [s]
  {
    if s != "" {
      SplitSlashFree(s[1..]);
      assert [s[0]] + s[1..] == s;
    }
  }

  lemma {:induction false} SplitConcat(x: string, y: string)
    ensures Split(x + "/" + y) == Split(x) + Split(y)
  {
    if x == "" {
      assert x + "/" + y == "/" + y;
      assert ("/" + y)[1..] == y;
    } else {
      var p := x + "/" + y;
      assert p[1..] == x[1..] + "/" + y;
      SplitConcat(x[1..], y);
    }
  }

  lemma {:induction false} ResolveAppend(a: seq<string>, b: seq<string>, acc: seq<string>)
    ensures Resolve(a + b, acc) == Resolve(b, Resolve(a, acc))
    decreases |a|
  {
    if a != [] {
      assert (a + b)[1..] == a[1..] + b;
      ResolveAppend(a[1..], b, Step(acc, a[0]));
    } else {
      assert a + b == b;
    }
  }

  lemma {:induction false} ResolveIsPlain(segs: seq<string>, acc: seq<string>)
    requires forall i :: 0 <= i < |segs| ==> '/' !in segs[i]
    requires forall i :: 0 <= i < |acc| ==> IsPlainSegment(acc[i])
    ensures forall i :: 0 <= i < |Resolve(segs, acc)| ==> IsPlainSegment(Resolve(segs, acc)[i])
    decreases |segs|
  {
    if segs != [] {
      ResolveIsPlain(segs[1..], Step(acc, segs[0]));
    }
  }

  lemma {:induction false} IntercalateSnoc(ss: seq<string>, b: string)
    requires ss != []
    ensures Intercalate(ss + [b]) == Intercalate(ss) + "/" + b
    decreases |ss|
  {
    if |ss| > 1 {
      assert (ss + [b])[1..] == ss[1..] + [b];
      IntercalateSnoc(ss[1..], b);
    } else {
      assert ss + [b] == [ss[0], b];
    }
  }

  lemma LastDotAt(s: string, k: nat)
    requires k < |s| && s[k] == '.'
    requires forall j :: k < j < |s| ==> s[j] != '.'
    ensures LastDot(s, |s|) == k
  {
  }

  lemma LastSlashAt(p: string, lo: nat, k: nat)
    requires lo <= k < |p| && p[k] == '/'
    requires forall j :: k < j < |p| ==> p[j] != '/'
    ensures LastSlash(p, lo, |p|) == k
  {
  }

  lemma BoundsLastSegment(x: string, b: string)
    requires x == "" || IsAbsolute(x)
    requires b != "" && '/' !in b
    ensures Bounds(x + "/" + b) == if x == "" then (1, |x| + 1 + |b|, 0) else (|x| + 1, |x| + 1 + |b|, |x| + 1)
  {
    var p := x + "/" + b;
    assert p[0] == '/';
    assert p[|p| - 1] == b[|b| - 1];
    assert TrimmedEnd(p, 1, |p|) == |p|;
    if x == "" {
      assert forall j :: 1 <= j < |p| ==> p[j] == b[j - 1];
      assert LastSlash(p, 1, |p|) == -1;
    } else {
      assert forall j :: |x| < j < |p| ==> p[j] == b[j - |x| - 1];
      LastSlashAt(p, 1, |x|);
    }
  }

  /** `parse` of "X/b", for a slash-free non-empty `b`, gives back `b` as base and `X` (or the root) as directory. */
  lemma ParseLastSegment(x: string, b: string)
    requires x == "" || IsAbsolute(x)
    requires b != "" && '/' !in b
    ensures Parse(x + "/" + b).base == b
    ensures Parse(x + "/" + b).dir == (if x == "" then "/" else x)
    ensures Parse(x + "/" + b).name == b[..ExtensionStart(b, x == "")]
    ensures Parse(x + "/" + b).ext == b[ExtensionStart(b, x == "")..]
  {
    var p := x + "/" + b;
    BoundsLastSegment(x, b);
    var (s, e, sp) := Bounds(p);
    assert p[s..e] == b by {
      assert p[|x| + 1..] == b;
    }
    assert sp > 0 ==> p[..sp - 1] == x by {
      assert p[..|x|] == x;
    }
  }

  /** An absolute "X/b" whose base has a dot after its first character (and is not "..") splits at that dot. */
  lemma ParseWithExtension(p: string, x: string, b: string, d: nat)
    requires IsAbsolute(x) && b != "" && '/' !in b && b != ".."
    requires p == x + "/" + b
    requires 0 < d < |b| && b[d] == '.' && '.' !in b[d + 1..]
    ensures Parse(p) == Parsed("/", x, b, b[..d], b[d..])
  {
    ParseLastSegment(x, b);
    assert forall j :: d < j < |b| ==> b[j] in b[d + 1..];
    LastDotAt(b, d);
  }

  /** An absolute "X/b" whose base holds no dot has that base as name and an empty extension. */
  lemma ParseWithoutExtension(p: string, x: string, b: string)
    requires IsAbsolute(x) && b != "" && '/' !in b && '.' !in b
    requires p == x + "/" + b
    ensures Parse(p) == Parsed("/", x, b, b, "")
  {
    ParseLastSegment(x, b);
  }

  /** Joining an absolute directory with a plain segment appends that segment to the normalised directory. */
  lemma JoinPlainShape(dir: string, b: string)
    requires IsAbsolute(dir) && IsPlainSegment(b)
    ensures Join(dir, b) == "/" + Intercalate(DirSegments(dir) + [b])
  {
    var p := dir + "/" + b;
    SplitConcat(dir, b);
    SplitSlashFree(b);
    assert Split(dir) == [""] + Split(dir[1..]);
    assert Split(p)[1..] == Split(dir)[1..] + [b];
    ResolveAppend(Split(dir)[1..], [b], []);
    assert Resolve(Split(p)[1..], []) == DirSegments(dir) + [b];
    assert p[|p| - 1] == b[|b| - 1];
  }

  /**
   * Parsing `join(dir, b)` for a plain segment `b` gives `b` back as base, and the normalised
   * directory (without trailing slash) as parent: moving a node into a directory keeps its
   * base name and makes that directory its parent.
   */
  lemma JoinPlain(dir: string, b: string)
    requires IsAbsolute(dir) && IsPlainSegment(b)
    ensures var r := DirSegments(dir);
      && Join(dir, b) == "/" + Intercalate(r + [b])
      && Parse(Join(dir, b)).base == b
      && Parse(Join(dir, b)).dir == (if r == [] then "/" else "/" + Intercalate(r))
  {
    JoinPlainShape(dir, b);
    var r := DirSegments(dir);
    if r == [] {
      assert "/" + Intercalate(r + [b]) == "" + "/" + b;
      ParseLastSegment("", b);
    } else {
      IntercalateSnoc(r, b);
      assert "/" + Intercalate(r + [b]) == ("/" + Intercalate(r)) + "/" + b;
      ParseLastSegment("/" + Intercalate(r), b);
    }
  }

  /** A trailing slash on a directory does not change the segments it stands for. */
  lemma DirSegmentsTrailingSlash(dir: string)
    requires IsAbsolute(dir)
    ensures DirSegments(dir + "/") == DirSegments(dir)
  {
    assert dir + "/" == dir + "/" + "";
    SplitConcat(dir, "");
    assert Split(dir) == [""] + Split(dir[1..]);
    assert Split(dir + "/")[1..] == Split(dir)[1..] + [""];
    ResolveAppend(Split(dir)[1..], [""], []);
  }

  /** `join("/foo/bar/", b)` and `join("/foo/bar", b)` agree for a plain segment `b`. */
  lemma JoinTrailingSlash(dir: string, b: string)
    requires IsAbsolute(dir) && IsPlainSegment(b)
    ensures Join(dir + "/", b) == Join(dir, b)
  {
    JoinPlainShape(dir, b);
    JoinPlainShape(dir + "/", b);
    DirSegmentsTrailingSlash(dir);
  }

  /** Joining a plain segment to an absolute directory keeps the segment as base name. */
  lemma JoinKeepsBase(dir: string, b: string)
    requires IsAbsolute(dir)
    ensures IsPlainSegment(b) ==> Parse(Join(dir, b)).base == b
  {
    if IsPlainSegment(b) {
      JoinPlain(dir, b);
    }
  }
}

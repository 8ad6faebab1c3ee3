/** Confining an agent's file paths to the workspace, by text alone. */
module LexicalPaths {
  import opened Segments

  predicate Letter(c: char) {
    'A' <= c <= 'Z' || 'a' <= c <= 'z'
  }

  /** `C:/` or `C:\`. */
  predicate WindowsAbsolute(path: string) {
    |path| >= 3 && Letter(path[0]) && path[1] == ':' && (path[2] == '/' || path[2] == '\\')
  }

  predicate IsAbsolutePath(path: string) {
    "/" <= path || WindowsAbsolute(path)
  }

  function Upper(c: char): (u: char) {
    if 'a' <= c <= 'z' then 'A' + (c - 'a') else c
  }

  function Slashed(s: string): (t: string)
    ensures |t| == |s|
    ensures forall i :: 0 <= i < |t| ==> t[i] == if s[i] == '\\' then '/' else s[i]
  {
    seq(|s|, i requires 0 <= i < |s| => if s[i] == '\\' then '/' else s[i])
  }

  function Drive(path: string): string {
    if WindowsAbsolute(path) then [Upper(path[0]), ':'] else ""
  }

  function Body(path: string): string {
    Slashed(if WindowsAbsolute(path) then path[2..] else path)
  }

  /** The directory a path names, as segments below its drive. */
  function SegmentsOf(path: string): Path {
    WalkFrom([], Split(Body(path)))
  }

  function Normalized(path: string): string {
    Drive(path) + Render(SegmentsOf(path))
  }

  method NormalizePath(path: string) returns (normal: string)
    ensures normal == Normalized(path)
  {
    var windowsRoot := if WindowsAbsolute(path) then [Upper(path[0]), ':'] else "";
    var body := if windowsRoot != "" then path[2..] else path;
    var segments: seq<string> := [];
    var parts := Split(Slashed(body));
    for i := 0 to |parts|
      invariant WalkFrom(segments, parts[i..]) == WalkFrom([], parts)
    {
      var segment := parts[i];
      assert parts[i..][0] == segment && parts[i..][1..] == parts[i + 1..];
      if segment == "" || segment == "." {
        continue;
      }
      if segment == ".." {
        if segments != [] {
          segments := segments[..|segments| - 1];
        }
        continue;
      }
      segments := segments + [segment];
    }
    normal := windowsRoot + "/" + Join(segments);
  }

  method IsWithinRoots(path: string, roots: seq<string>) returns (within: bool)
    ensures within <==> exists i :: 0 <= i < |roots| && Inside(path, roots[i])
  {
    var target := NormalizePath(path);
    within := false;
    for i := 0 to |roots|
      invariant within <==> exists j :: 0 <= j < i && Inside(path, roots[j])
    {
      var normalized := NormalizePath(roots[i]);
      StringTestMeansInside(path, roots[i]);
      within := within || target == normalized || AsPrefix(normalized) <= target;
    }
  }

  /** Same drive, and the root's segments start the path's. */
  predicate Inside(path: string, root: string) {
    Drive(path) == Drive(root) && SegmentsOf(root) <= SegmentsOf(path)
  }

  lemma SegmentsClean(path: string)
    ensures Clean(SegmentsOf(path))
  {
    WalkClean([], Split(Body(path)));
  }

  /** The prefix test on normalized text means exactly "same drive and ancestor directory". */
  lemma StringTestMeansInside(path: string, root: string)
    ensures Normalized(path) == Normalized(root) || AsPrefix(Normalized(root)) <= Normalized(path) <==> Inside(path, root)
  {
    SegmentsClean(path);
    SegmentsClean(root);
    var t, r := Render(SegmentsOf(path)), Render(SegmentsOf(root));
    PrefixTestMeansAncestor(SegmentsOf(root), SegmentsOf(path));
    DriveTest(Drive(path), t, Drive(root), r);
  }

  ghost predicate IsDrive(d: string) {
    d == "" || (|d| == 2 && Letter(d[0]) && d[1] == ':')
  }

  /** Text below two drives compares like the drives and the rest apart. */
  lemma DriveTest(d: string, t: string, e: string, r: string)
    requires IsDrive(d) && IsDrive(e) && |t| > 0 && t[0] == '/' && |r| > 0 && r[0] == '/'
    ensures d + t == e + r || AsPrefix(e + r) <= d + t <==> d == e && (t == r || AsPrefix(r) <= t)
  {
    var n, m := d + t, e + r;
    assert m[|m| - 1] == r[|r| - 1];
    assert AsPrefix(m) == e + AsPrefix(r);
    assert n[0] == if d == "" then '/' else d[0];
    assert m[0] == AsPrefix(m)[0] == if e == "" then '/' else e[0];
    if d == e {
      assert n[|d|..] == t && m[|d|..] == r && AsPrefix(m)[|d|..] == AsPrefix(r);
    }
  }

  /** Normalizing changes nothing the second time. */
  lemma NormalizeIdempotent(path: string)
    ensures Normalized(Normalized(path)) == Normalized(path)
    ensures IsAbsolutePath(Normalized(path))
    ensures SegmentsOf(Normalized(path)) == SegmentsOf(path) && Drive(Normalized(path)) == Drive(path)
  {
    SegmentsClean(path);
    var d, segments := Drive(path), SegmentsOf(path);
    var n := Normalized(path);
    var text := Render(segments);
    assert text[0] == '/';
    if d == "" {
      assert n == text && !WindowsAbsolute(n);
    } else {
      assert n[0] == d[0] && n[1] == ':' && n[2] == '/' && n[2..] == text;
    }
    NoBackslashIn(path);
    assert Slashed(text) == text;
    WalkRendered(segments);
  }

  ghost predicate Backslashless(s: string) {
    forall i :: 0 <= i < |s| ==> s[i] != '\\'
  }

  lemma {:induction false} SplitBackslashless(s: string)
    requires Backslashless(s)
    ensures forall i :: 0 <= i < |Split(s)| ==> Backslashless(Split(s)[i])
  {
    if s != "" { SplitBackslashless(s[1..]); }
  }

  lemma {:induction false} WalkBackslashless(at: Path, parts: seq<string>)
    requires forall i :: 0 <= i < |at| ==> Backslashless(at[i])
    requires forall i :: 0 <= i < |parts| ==> Backslashless(parts[i])
    ensures forall i :: 0 <= i < |WalkFrom(at, parts)| ==> Backslashless(WalkFrom(at, parts)[i])
    decreases |parts|
  {
    if parts != [] { WalkBackslashless(Enter(at, parts[0]), parts[1..]); }
  }

  lemma {:induction false} JoinBackslashless(parts: seq<string>)
    requires forall i :: 0 <= i < |parts| ==> Backslashless(parts[i])
    ensures Backslashless(Join(parts))
  {
    if |parts| > 1 { JoinBackslashless(parts[1..]); }
  }

  lemma NoBackslashIn(path: string)
    ensures Backslashless(Render(SegmentsOf(path)))
  {
    SplitBackslashless(Body(path));
    WalkBackslashless([], Split(Body(path)));
    JoinBackslashless(SegmentsOf(path));
  }

  /** Walking a path and then another inside it is walking both in turn: `..` never climbs past the root. */
  lemma NormalizeWalks(path: string, relative: string)
    requires IsAbsolutePath(path)
    ensures Drive(path + "/" + relative) == Drive(path)
    ensures SegmentsOf(path + "/" + relative) == WalkFrom(SegmentsOf(path), Split(Slashed(relative)))
  {
    var whole := path + "/" + relative;
    if WindowsAbsolute(path) {
      assert whole[2..] == path[2..] + "/" + relative;
    }
    assert Body(whole) == Body(path) + "/" + Slashed(relative);
    SplitConcat(Body(path), Slashed(relative));
    WalkConcat([], Split(Body(path)), Split(Slashed(relative)));
  }

  /** It makes no difference which of the two separators a path is written with. */
  lemma SeparatorsAlike(path: string, other: string)
    requires |path| == |other|
    requires forall i :: 0 <= i < |path| ==> path[i] == other[i] || (path[i] in "/\\" && other[i] in "/\\")
    ensures Normalized(path) == Normalized(other)
  {
    if WindowsAbsolute(path) {
      assert path[2..] == path[2..|path|] && other[2..] == other[2..|path|];
      SlashedAlike(path[2..], other[2..]);
    } else {
      SlashedAlike(path, other);
    }
  }

  lemma SlashedAlike(s: string, t: string)
    requires |s| == |t| && forall i :: 0 <= i < |s| ==> s[i] == t[i] || (s[i] in "/\\" && t[i] in "/\\")
    ensures Slashed(s) == Slashed(t)
  {
  }

  /** Nor how the drive letter is written. */
  lemma DriveCaseIgnored(lower: char, upper: char, rest: string)
    requires 'a' <= lower <= 'z' && upper as int == lower as int - 32 && WindowsAbsolute([lower] + rest)
    ensures Normalized([lower] + rest) == Normalized([upper] + rest)
  {
    assert ([lower] + rest)[2..] == rest[1..] == ([upper] + rest)[2..];
  }

  /** Containment is reflexive and transitive, so a path inside a directory inside a root is inside the root. */
  lemma InsideIsPreorder(a: string, b: string, c: string)
    ensures Inside(a, a)
    ensures Inside(a, b) && Inside(b, c) ==> Inside(a, c)
    ensures Inside(a, b) && Inside(b, a) ==> Normalized(a) == Normalized(b)
  {
    assert Inside(a, b) && Inside(b, a) ==> SegmentsOf(a) == SegmentsOf(b);
  }
}

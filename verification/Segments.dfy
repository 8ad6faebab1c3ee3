/** Slash-separated paths as text and as lists of segments. */
module Segments {

  type Path = seq<string>

  ghost predicate SlashFree(s: string) {
    forall i :: 0 <= i < |s| ==> s[i] != '/'
  }

  /** A name a directory entry can have. */
  ghost predicate IsName(s: string) {
    s != "" && s != "." && s != ".." && SlashFree(s)
  }

  ghost predicate Clean(segments: Path) {
    forall i :: 0 <= i < |segments| ==> IsName(segments[i])
  }

  /** `s.split('/')`. */
  function Split(s: string): (parts: seq<string>)
    ensures |parts| > 0
    ensures forall i :: 0 <= i < |parts| ==> SlashFree(parts[i])
  {
    if s == "" then [""]
    else
      var rest := Split(s[1..]);
      if s[0] == '/' then [""] + rest
      else [[s[0]] + rest[0]] + rest[1..]
  }

  /** `parts.join('/')`. */
  function Join(parts: seq<string>): string {
    if parts == [] then ""
    else if |parts| == 1 then parts[0]
    else parts[0] + "/" + Join(parts[1..])
  }

  /** One step of the walk: `.` and empty segments stay, `..` goes up and stops at the root. */
  function Enter(at: Path, segment: string): (to: Path) {
    if segment == "" || segment == "." then at
    else if segment == ".." then (if at == [] then [] else at[..|at| - 1])
    else at + [segment]
  }

  function WalkFrom(at: Path, segments: seq<string>): (to: Path)
    decreases |segments|
  {
    if segments == [] then at else WalkFrom(Enter(at, segments[0]), segments[1..])
  }

  /** The absolute text of a path. */
  function Render(path: Path): string {
    "/" + Join(path)
  }

  // ---------- Walking ----------

  lemma {:induction false} WalkClean(at: Path, segments: seq<string>)
    requires Clean(at) && forall i :: 0 <= i < |segments| ==> SlashFree(segments[i])
    ensures Clean(WalkFrom(at, segments))
    decreases |segments|
  {
    if segments != [] { WalkClean(Enter(at, segments[0]), segments[1..]); }
  }

  lemma {:induction false} WalkConcat(at: Path, x: seq<string>, y: seq<string>)
    ensures WalkFrom(at, x + y) == WalkFrom(WalkFrom(at, x), y)
    decreases |x|
  {
    if x == [] {
      assert x + y == y;
    } else {
      assert (x + y)[1..] == x[1..] + y;
      WalkConcat(Enter(at, x[0]), x[1..], y);
    }
  }

  /** Names only ever go down. */
  lemma {:induction false} WalkNames(at: Path, names: Path)
    requires Clean(names)
    ensures WalkFrom(at, names) == at + names
    decreases |names|
  {
    if names == [] {
      assert at + names == at;
    } else {
      WalkNames(at + [names[0]], names[1..]);
      assert (at + [names[0]]) + names[1..] == at + names;
    }
  }

  lemma WalkSnoc(at: Path, segments: seq<string>, s: string)
    ensures WalkFrom(at, segments + [s]) == Enter(WalkFrom(at, segments), s)
  {
    WalkConcat(at, segments, [s]);
    assert [s][1..] == [];
  }

  // ---------- Splitting and joining ----------

  lemma {:induction false} SplitJoined(s: string, rest: string)
    requires SlashFree(s)
    ensures Split(s + "/" + rest) == [s] + Split(rest)
    decreases |s|
  {
    var t := s + "/" + rest;
    if s == "" {
      assert t[1..] == rest;
    } else {
      assert t[0] == s[0] && t[1..] == s[1..] + "/" + rest;
      SplitJoined(s[1..], rest);
      assert [s[0]] + s[1..] == s;
    }
  }

  lemma {:induction false} SplitSlashFree(s: string)
    requires SlashFree(s)
    ensures Split(s) == [s]
  {
    if s != "" {
      SplitSlashFree(s[1..]);
      assert [s[0]] + s[1..] == s;
    }
  }

  lemma {:induction false} SplitJoin(parts: seq<string>)
    requires parts != [] && forall i :: 0 <= i < |parts| ==> SlashFree(parts[i])
    ensures Split(Join(parts)) == parts
  {
    if |parts| == 1 {
      SplitSlashFree(parts[0]);
    } else {
      SplitJoin(parts[1..]);
      SplitJoined(parts[0], Join(parts[1..]));
      assert [parts[0]] + parts[1..] == parts;
    }
  }

  /** Walking the text of a clean path from the root gives the path back. */
  lemma WalkRendered(path: Path)
    requires Clean(path)
    ensures WalkFrom([], Split(Render(path))) == path
  {
    SplitJoined("", Join(path));
    assert "" + "/" + Join(path) == Render(path);
    if path == [] {
      assert Split(Render(path)) == ["", ""];
      assert ["", ""][1..] == [""] && [""][1..] == [];
    } else {
      SplitJoin(path);
      assert ([""] + path)[1..] == path;
      WalkNames([], path);
      assert [] + path == path;
    }
  }

  lemma RenderInjective(a: Path, b: Path)
    requires Clean(a) && Clean(b) && Render(a) == Render(b)
    ensures a == b
  {
    WalkRendered(a);
    WalkRendered(b);
  }

  lemma {:induction false} SplitConcat(a: string, b: string)
    ensures Split(a + "/" + b) == Split(a) + Split(b)
    decreases |a|
  {
    if a == "" {
      assert "" + "/" + b == ["/"[0]] + b;
    } else {
      var t := a + "/" + b;
      assert t[0] == a[0] && t[1..] == a[1..] + "/" + b;
      SplitConcat(a[1..], b);
    }
  }

  // ---------- What the special segments mean in a text ----------

  lemma WalkText(at: Path, a: string, b: string)
    ensures WalkFrom(at, Split(a + "/" + b)) == WalkFrom(WalkFrom(at, Split(a)), Split(b))
  {
    SplitConcat(a, b);
    WalkConcat(at, Split(a), Split(b));
  }

  lemma WalkOne(at: Path, segment: string)
    requires SlashFree(segment)
    ensures WalkFrom(at, Split(segment)) == Enter(at, segment)
  {
    SplitSlashFree(segment);
    assert [segment][1..] == [];
  }

  /** A dot stays where it is, anywhere in a path. */
  lemma DotStays(at: Path, text: string)
    ensures WalkFrom(at, Split("." + "/" + text)) == WalkFrom(at, Split(text))
    ensures WalkFrom(at, Split(text + "/" + ".")) == WalkFrom(at, Split(text))
    ensures WalkFrom(at, Split(".")) == at
  {
    WalkText(at, ".", text);
    WalkText(at, text, ".");
    WalkOne(at, ".");
    WalkOne(WalkFrom(at, Split(text)), ".");
  }

  /** A doubled slash is one slash, and a closing one is none. */
  lemma SlashesCollapse(at: Path, a: string, b: string)
    ensures WalkFrom(at, Split(a + "/" + ("" + "/" + b))) == WalkFrom(at, Split(a + "/" + b))
    ensures WalkFrom(at, Split(a + "/" + "")) == WalkFrom(at, Split(a))
  {
    WalkText(at, a, "" + "/" + b);
    WalkText(at, a, b);
    WalkText(at, a, "");
    WalkText(WalkFrom(at, Split(a)), "", b);
    WalkOne(WalkFrom(at, Split(a)), "");
  }

  /** Two dots undo a name, and at the root do nothing. */
  lemma UpUndoes(at: Path, name: string, text: string)
    requires IsName(name)
    ensures WalkFrom(at, Split(name + "/" + (".." + "/" + text))) == WalkFrom(at, Split(text))
    ensures WalkFrom([], Split(".." + "/" + text)) == WalkFrom([], Split(text))
  {
    WalkText(at, name, ".." + "/" + text);
    WalkOne(at, name);
    WalkText(at + [name], "..", text);
    WalkOne(at + [name], "..");
    assert (at + [name])[..|at|] == at;
    WalkText([], "..", text);
    WalkOne([], "..");
  }

  /** A name goes down. */
  lemma NameGoesDown(at: Path, text: string, name: string)
    requires IsName(name)
    ensures WalkFrom(at, Split(text + "/" + name)) == WalkFrom(at, Split(text)) + [name]
  {
    WalkText(at, text, name);
    WalkOne(WalkFrom(at, Split(text)), name);
  }

  // ---------- The string test for "is an ancestor" ----------

  /** Each segment with a slash before it; for a path below the root this is its text. */
  function Flat(path: Path): string {
    if path == [] then "" else "/" + path[0] + Flat(path[1..])
  }

  lemma {:induction false} FlatIsRender(path: Path)
    requires path != []
    ensures Flat(path) == Render(path)
  {
    if |path| > 1 {
      FlatIsRender(path[1..]);
    } else {
      assert path[1..] == [];
    }
  }

  lemma {:induction false} FlatConcat(a: Path, b: Path)
    ensures Flat(a + b) == Flat(a) + Flat(b)
    decreases |a|
  {
    if a == [] {
      assert a + b == b;
    } else {
      assert (a + b)[1..] == a[1..] + b;
      FlatConcat(a[1..], b);
    }
  }

  /** The slash after a segment tells where it ends. */
  lemma SameHead(x: string, u: string, y: string, v: string)
    requires SlashFree(x) && SlashFree(y)
    requires |u| > 0 && u[0] == '/' && (v == "" || v[0] == '/')
    requires x + u <= y + v
    ensures x == y && u <= v
  {
    assert (y + v)[|x|] == (x + u)[|x|] == '/';
    assert |y| <= |x|;
    assert (x + u)[|y|] == (y + v)[|y|];
    assert x == (x + u)[..|x|] == (y + v)[..|x|] == y;
    assert u == (x + u)[|x|..] && v == (y + v)[|x|..];
  }

  lemma FlatStart(path: Path)
    ensures path == [] || Flat(path)[0] == '/'
  {
  }

  lemma {:induction false} FlatPrefix(a: Path, b: Path)
    requires Clean(a) && Clean(b)
    ensures Flat(a) + "/" <= Flat(b) <==> a < b
    decreases |a|
  {
    if a == [] {
      FlatStart(b);
    } else if b != [] {
      FlatPrefix(a[1..], b[1..]);
      FlatTail(a);
      FlatTail(b);
      HeadPrefix(a[0], Flat(a[1..]) + "/", b[0], Flat(b[1..]));
      ConsPrefix(a, b);
    }
  }

  lemma FlatTail(path: Path)
    requires path != []
    ensures Flat(path) == "/" + (path[0] + Flat(path[1..])) && Flat(path) + "/" == "/" + (path[0] + (Flat(path[1..]) + "/"))
    ensures Flat(path[1..]) == "" || Flat(path[1..])[0] == '/'
  {
    FlatStart(path[1..]);
    Regroup(path[0], Flat(path[1..]));
  }

  lemma Regroup(head: string, tail: string)
    ensures "/" + head + tail == "/" + (head + tail)
    ensures "/" + head + tail + "/" == "/" + (head + (tail + "/"))
  {
  }

  lemma ConsPrefix(a: Path, b: Path)
    requires a != [] && b != []
    ensures a < b <==> a[0] == b[0] && a[1..] < b[1..]
  {
    assert a == [a[0]] + a[1..] && b == [b[0]] + b[1..];
  }

  lemma HeadPrefix(x: string, u: string, y: string, v: string)
    requires SlashFree(x) && SlashFree(y)
    requires |u| > 0 && u[0] == '/' && (v == "" || v[0] == '/')
    ensures "/" + (x + u) <= "/" + (y + v) <==> x == y && u <= v
  {
    if "/" + (x + u) <= "/" + (y + v) {
      assert x + u == ("/" + (x + u))[1..] && y + v == ("/" + (y + v))[1..];
      SameHead(x, u, y, v);
    }
  }

  /** What a directory's text is tested with: itself, with a closing slash. */
  function AsPrefix(text: string): string {
    if |text| > 0 && text[|text| - 1] == '/' then text else text + "/"
  }

  lemma {:induction false} RenderEnd(path: Path)
    requires Clean(path)
    ensures Render(path)[|Render(path)| - 1] == '/' <==> path == []
    decreases |path|
  {
    if |path| > 1 {
      RenderEnd(path[1..]);
      var tail := Join(path[1..]);
      assert IsName(path[1]) && |tail| > 0;
      assert Render(path[1..])[|tail|] == tail[|tail| - 1];
      assert Render(path)[|Render(path)| - 1] == tail[|tail| - 1];
    } else if |path| == 1 {
      assert IsName(path[0]);
      assert Render(path)[|Render(path)| - 1] == path[0][|path[0]| - 1];
    }
  }

  /** The string test means exactly "is the directory or lies under it". */
  lemma PrefixTestMeansAncestor(parent: Path, child: Path)
    requires Clean(parent) && Clean(child)
    ensures Render(child) == Render(parent) || AsPrefix(Render(parent)) <= Render(child) <==> parent <= child
  {
    RenderEnd(parent);
    if Render(child) == Render(parent) { RenderInjective(child, parent); }
    FlatPrefix(parent, child);
    if parent == [] {
      assert Render(child)[0] == '/';
      assert AsPrefix(Render(parent)) == "/";
    } else {
      FlatIsRender(parent);
      if child != [] {
        FlatIsRender(child);
        assert AsPrefix(Render(parent)) == Flat(parent) + "/";
        assert parent <= child <==> parent == child || parent < child;
      } else {
        assert Render(child) == "/";
        assert |Render(parent)| >= 1;
      }
    }
  }
}

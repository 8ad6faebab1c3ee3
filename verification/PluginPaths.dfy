/** Package path containment, decided on a filesystem with symbolic links. */
module PluginPaths {
  import opened Segments
  import opened Wrappers

  // ---------- The filesystem ----------

  datatype Entry = File | Dir | Link(target: string)

  /** `denied` directories may not be searched; more than `maxLinks` links in one lookup is a loop. */
  datatype Disk = Disk(entries: map<Path, Entry>, denied: set<Path>, maxLinks: nat)

  ghost predicate WellFormed(disk: Disk) {
    && [] in disk.entries && disk.entries[[]] == Dir
    && (forall p :: p in disk.entries ==> Clean(p))
    && (forall p :: p in disk.entries && p != [] ==> Parent(p) in disk.entries && disk.entries[Parent(p)] == Dir)
  }

  function Parent(p: Path): Path {
    if p == [] then [] else p[..|p| - 1]
  }

  predicate IsLink(disk: Disk, p: Path) {
    p in disk.entries && disk.entries[p].Link?
  }

  datatype Real = Found(path: Path) | NotFound | Failed

  /** Path lookup: every link met on the way is followed, at most `links` of them. */
  function Lookup(disk: Disk, at: Path, todo: seq<string>, links: nat): Real
    decreases links, |todo|
  {
    if todo == [] then Found(at)
    else if at !in disk.entries || disk.entries[at] != Dir then NotFound
    else if at in disk.denied then Failed
    else if todo[0] == "" || todo[0] == "." || todo[0] == ".." then Lookup(disk, Enter(at, todo[0]), todo[1..], links)
    else
      var next := at + [todo[0]];
      if next !in disk.entries then NotFound
      else if !disk.entries[next].Link? then Lookup(disk, next, todo[1..], links)
      else if links == 0 then Failed
      else
        var target := disk.entries[next].target;
        Lookup(disk, if "/" <= target then [] else at, Split(target) + todo[1..], links - 1)
  }

  /** The names in an absolute path. */
  function Names(text: string): seq<string> {
    var parts := Split(text)[1..];
    if parts == [""] then [] else parts
  }

  function RealPath(disk: Disk, text: string): Real {
    Lookup(disk, [], Names(text), disk.maxLinks)
  }

  /** What is at a path, not following a link there. */
  function Lstat(disk: Disk, text: string): Option<Entry> {
    var names := Names(text);
    if names == [] then Some(Dir)
    else
      match Lookup(disk, [], Parent(names), disk.maxLinks)
      case Found(dir) =>
        var p := dir + [names[|names| - 1]];
        if dir !in disk.denied && p in disk.entries then Some(disk.entries[p]) else None
      case _ => None
  }

  // ---------- The operations ----------

  /** `resolve` of one text against a directory. */
  function Resolve(base: Path, text: string): Path {
    WalkFrom(if "/" <= text then [] else base, Split(text))
  }

  function ResolveAll(base: Path, parts: seq<string>): Path
    decreases |parts|
  {
    if parts == [] then base else ResolveAll(Resolve(base, parts[0]), parts[1..])
  }

  function PathOf(text: string): Path {
    Resolve([], text)
  }

  /** What `ResolveExistingPrefix` computes, trying the first `k` names of `path` and then fewer. */
  function Existing(disk: Disk, path: Path, k: nat): Option<Path>
    requires k <= |path|
  {
    match Lookup(disk, [], path[..k], disk.maxLinks)
    case Found(there) =>
      if k == |path| then Some(there)
      else if IsLink(disk, there + [path[k]]) then None
      else Some(there + path[k..])
    case Failed => None
    case NotFound => if k == 0 then None else Existing(disk, path, k - 1)
  }

  function RealPrefix(disk: Disk, path: Path): Option<Path> {
    Existing(disk, path, |path|)
  }

  function Shown(path: Option<Path>): Option<string> {
    if path.None? then None else Some(Render(path.value))
  }

  /** Where the climb stands: `current` is the first `k` names, `missing` stacks the others, none of which was found. */
  ghost predicate Climbing(disk: Disk, path: Path, k: nat, current: string, missing: seq<string>) {
    && Clean(path) && k <= |path| && current == Render(path[..k])
    && |missing| == |path| - k
    && (forall i :: 0 <= i < |missing| ==> missing[i] == path[|path| - 1 - i])
    && RealPrefix(disk, path) == Existing(disk, path, k)
    && (k < |path| ==> Lookup(disk, [], path[..k + 1], disk.maxLinks).NotFound?)
  }

  /** The parent's text, and what is left of `current` behind it. */
  method CutLast(ghost path: Path, current: string) returns (parent: string, name: string)
    requires Clean(path) && current == Render(path)
    ensures parent == current <==> path == []
    ensures path != [] ==> parent == Render(path[..|path| - 1]) && name == path[|path| - 1]
  {
    parent := Render(Resolve(PathOf(current), ".."));
    ParentText(path);
    if parent == current {
      return parent, "";
    }
    name := current[|parent| + (if parent[|parent| - 1] == '/' then 0 else 1)..];
  }

  method ResolveExistingPrefix(disk: Disk, target: string) returns (r: Option<string>)
    requires WellFormed(disk) && Render(PathOf(target)) == target
    ensures r == Shown(RealPrefix(disk, PathOf(target)))
  {
    ghost var path := PathOf(target);
    ghost var k: nat := |path|;
    PathClean([], target);
    var missing: seq<string> := [];
    var current := target;
    assert path[..|path|] == path;
    while true
      invariant Climbing(disk, path, k, current, missing)
      decreases k
    {
      NamesRendered(path[..k]);
      var found := RealPath(disk, current);
      assert found == Lookup(disk, [], path[..k], disk.maxLinks);
      if found.Found? {
        FoundAnswers(disk, path, k, current, missing, found.path);
        if |missing| == 0 {
          return Some(Render(found.path));
        }
        var head := missing[|missing| - 1];
        if IsLinkEntry(Lstat(disk, Render(Resolve(found.path, head)))) {
          return None;
        }
        return Some(Render(ResolveAll(found.path, Reversed(missing))));
      }
      if found.Failed? {
        return None;
      }
      var parent, name := CutLast(path[..k], current);
      if parent == current {
        return None;
      }
      StepUp(disk, path, k, current, missing, parent, name);
      missing := missing + [name];
      current := parent;
      k := k - 1;
    }
  }

  /** Once something is found the answer is settled. */
  lemma FoundAnswers(disk: Disk, path: Path, k: nat, current: string, missing: seq<string>, at: Path)
    requires WellFormed(disk) && Climbing(disk, path, k, current, missing)
    requires Lookup(disk, [], path[..k], disk.maxLinks) == Found(at)
    ensures RealPrefix(disk, path) ==
      if missing == [] then Some(at)
      else if IsLinkEntry(Lstat(disk, Render(Resolve(at, missing[|missing| - 1])))) then None
      else Some(ResolveAll(at, Reversed(missing)))
  {
    if missing != [] { Reattaches(disk, path, k, at, missing); }
  }

  lemma StepUp(disk: Disk, path: Path, k: nat, current: string, missing: seq<string>, parent: string, name: string)
    requires Climbing(disk, path, k, current, missing) && k > 0
    requires Lookup(disk, [], path[..k], disk.maxLinks).NotFound?
    requires parent == Render(path[..k][..k - 1]) && name == path[..k][k - 1]
    ensures Climbing(disk, path, k - 1, parent, missing + [name])
  {
    assert path[..k][..k - 1] == path[..k - 1];
  }

  /** The names stacked up come off in the order of the path. */
  lemma StackedNames(path: Path, k: nat, missing: seq<string>)
    requires Clean(path) && k < |path| && |missing| == |path| - k
    requires forall i :: 0 <= i < |missing| ==> missing[i] == path[|path| - 1 - i]
    ensures missing[|missing| - 1] == path[k] && Reversed(missing) == path[k..] && Clean(path[k..]) && IsName(path[k])
  {
  }

  /** Past the last name found, `lstat` sees a link exactly when there is one. */
  lemma LstatPast(disk: Disk, path: Path, k: nat, at: Path)
    requires WellFormed(disk) && Clean(path) && k < |path|
    requires Lookup(disk, [], path[..k], disk.maxLinks) == Found(at)
    requires Lookup(disk, [], path[..k + 1], disk.maxLinks).NotFound?
    ensures IsLinkEntry(Lstat(disk, Render(Resolve(at, path[k])))) <==> IsLink(disk, at + [path[k]])
  {
    FirstMissing(disk, path, k);
    assert at[..|at|] == at;
    LstatChild(disk, at, path[k]);
    NameResolves(at, path[k]);
  }

  /** And the missing names go back on. */
  lemma Reattaches(disk: Disk, path: Path, k: nat, at: Path, missing: seq<string>)
    requires WellFormed(disk) && Clean(path) && k < |path|
    requires Lookup(disk, [], path[..k], disk.maxLinks) == Found(at)
    requires Lookup(disk, [], path[..k + 1], disk.maxLinks).NotFound?
    requires |missing| == |path| - k
    requires forall i :: 0 <= i < |missing| ==> missing[i] == path[|path| - 1 - i]
    ensures missing[|missing| - 1] == path[k]
    ensures IsLinkEntry(Lstat(disk, Render(Resolve(at, path[k])))) <==> IsLink(disk, at + [path[k]])
    ensures ResolveAll(at, Reversed(missing)) == at + path[k..]
  {
    StackedNames(path, k, missing);
    LstatPast(disk, path, k, at);
    NamesResolve(at, path[k..]);
  }

  predicate IsLinkEntry(e: Option<Entry>) {
    e.Some? && e.value.Link?
  }

  function Reversed(s: seq<string>): (r: seq<string>)
    ensures |r| == |s| && forall i :: 0 <= i < |s| ==> r[i] == s[|s| - 1 - i]
  {
    if s == [] then [] else Reversed(s[1..]) + [s[0]]
  }

  datatype Containment =
    | Contained(path: string)
    | NotRelative(attempted: string)
    | EscapesRoot(attempted: string)
    | Unresolvable(attempted: string)

  predicate IsWithin(parent: string, child: string) {
    child == parent || AsPrefix(parent) <= child
  }

  /** The path a target names, seen from the process directory `cwd`. */
  function Attempted(cwd: Path, root: string, target: string): Path {
    Resolve(Resolve(cwd, root), target)
  }

  /** Both sides resolved through the links, then compared component by component. */
  function Answer(disk: Disk, root: Path, attempted: Path): Containment {
    var realRoot, there := RealPrefix(disk, root), RealPrefix(disk, attempted);
    if realRoot.None? || there.None? then Unresolvable(Render(attempted))
    else if realRoot.value <= there.value then Contained(Render(there.value))
    else EscapesRoot(Render(attempted))
  }

  method ContainedPath(disk: Disk, cwd: Path, root: string, target: string) returns (r: Containment)
    requires WellFormed(disk) && Clean(cwd)
    ensures r == Answer(disk, Resolve(cwd, root), Attempted(cwd, root, target))
  {
    var rootPath := Resolve(cwd, root);
    PathClean(cwd, root);
    PathClean(rootPath, target);
    var attempted := if "/" <= target then Resolve([], target) else Resolve(rootPath, target);
    PathRendered(rootPath);
    PathRendered(attempted);
    var realRoot := ResolveExistingPrefix(disk, Render(rootPath));
    var there := ResolveExistingPrefix(disk, Render(attempted));
    if realRoot == None || there == None {
      return Unresolvable(Render(attempted));
    }
    ExistingClean(disk, rootPath, |rootPath|);
    ExistingClean(disk, attempted, |attempted|);
    PrefixTestMeansAncestor(RealPrefix(disk, rootPath).value, RealPrefix(disk, attempted).value);
    if !IsWithin(realRoot.value, there.value) {
      return EscapesRoot(Render(attempted));
    }
    r := Contained(there.value);
  }

  method ResolvePluginRelative(disk: Disk, cwd: Path, pluginRoot: string, relative: string) returns (r: Containment)
    requires WellFormed(disk) && Clean(cwd)
    ensures r == if "./" <= relative then Answer(disk, Resolve(cwd, pluginRoot), Attempted(cwd, pluginRoot, relative))
                 else NotRelative(relative)
  {
    if !("./" <= relative) {
      return NotRelative(relative);
    }
    var rootPath := Resolve(cwd, pluginRoot);
    var attempted := Resolve(rootPath, relative);
    PathClean(cwd, pluginRoot);
    PathClean(rootPath, relative);
    PathRendered(attempted);
    r := ContainedPath(disk, cwd, pluginRoot, Render(attempted));
    AbsoluteAgain(rootPath, attempted);
  }

  /** What a plugin-relative path attempts: the walk of what follows `./`, from the root. */
  lemma DotSlashIsBelow(cwd: Path, root: string, text: string)
    ensures Attempted(cwd, root, "." + "/" + text) == WalkFrom(Resolve(cwd, root), Split(text))
  {
    DotStays(Resolve(cwd, root), text);
    assert ("." + "/" + text)[0] == '.';
  }

  // ---------- Texts and paths ----------

  lemma PathClean(base: Path, text: string)
    requires Clean(base)
    ensures Clean(Resolve(base, text))
  {
    WalkClean(if "/" <= text then [] else base, Split(text));
  }

  lemma PathRendered(path: Path)
    requires Clean(path)
    ensures PathOf(Render(path)) == path
  {
    WalkRendered(path);
  }

  lemma AbsoluteAgain(base: Path, path: Path)
    requires Clean(path)
    ensures Resolve(base, Render(path)) == path
  {
    WalkRendered(path);
    assert "/" <= Render(path);
  }

  lemma NamesRendered(path: Path)
    requires Clean(path)
    ensures Names(Render(path)) == path
  {
    SplitJoined("", Join(path));
    assert "" + "/" + Join(path) == Render(path);
    if path != [] {
      SplitJoin(path);
      assert ([""] + path)[1..] == path;
      assert IsName(path[0]);
    }
  }

  lemma NameResolves(at: Path, name: string)
    requires IsName(name)
    ensures Resolve(at, name) == at + [name]
  {
    SplitSlashFree(name);
    assert name[0] != '/';
    WalkSnoc(at, [], name);
    assert [] + [name] == [name];
  }

  lemma {:induction false} NamesResolve(at: Path, names: seq<string>)
    requires Clean(names)
    ensures ResolveAll(at, names) == at + names
    decreases |names|
  {
    if names == [] {
      assert at + names == at;
    } else {
      NameResolves(at, names[0]);
      NamesResolve(at + [names[0]], names[1..]);
      assert (at + [names[0]]) + names[1..] == at + names;
    }
  }

  lemma {:induction false} FlatSnoc(path: Path, name: string)
    ensures Flat(path + [name]) == Flat(path) + "/" + name
  {
    FlatConcat(path, [name]);
    assert [name][1..] == [];
    assert Flat([name]) == "/" + name;
  }

  /** Cutting the parent's text off a path's text leaves its last name; only the root is its own parent. */
  lemma ParentText(path: Path)
    requires Clean(path)
    ensures var text := Render(path);
      var parent := Render(Resolve(PathOf(text), ".."));
      && (parent == text <==> path == [])
      && (path != [] ==>
          && parent == Render(path[..|path| - 1])
          && |parent| + (if parent[|parent| - 1] == '/' then 0 else 1) <= |text|
          && text[|parent| + (if parent[|parent| - 1] == '/' then 0 else 1)..] == path[|path| - 1])
  {
    UpIsEnter(path);
    if path != [] { LastNameText(path); }
  }

  lemma UpIsEnter(path: Path)
    requires Clean(path)
    ensures Resolve(PathOf(Render(path)), "..") == Enter(path, "..")
  {
    PathRendered(path);
    SplitSlashFree("..");
    assert [".."][1..] == [];
  }

  lemma LastNameText(path: Path)
    requires Clean(path) && path != []
    ensures var text, parent := Render(path), Render(path[..|path| - 1]);
      && parent != text
      && |parent| + (if parent[|parent| - 1] == '/' then 0 else 1) <= |text|
      && text[|parent| + (if parent[|parent| - 1] == '/' then 0 else 1)..] == path[|path| - 1]
  {
    var up, last := path[..|path| - 1], path[|path| - 1];
    assert path == up + [last];
    FlatSnoc(up, last);
    FlatIsRender(path);
    RenderEnd(up);
    if up == [] {
      assert Render(up) == "/";
    } else {
      FlatIsRender(up);
    }
    if Render(up) == Render(path) { RenderInjective(up, path); }
  }

  // ---------- Lookups ----------

  /** Really there: no component of it is a link, and every directory above it can be searched. */
  ghost predicate Genuine(disk: Disk, p: Path) {
    && (forall i :: 0 <= i <= |p| ==> p[..i] in disk.entries && !disk.entries[p[..i]].Link?)
    && (forall i :: 0 <= i < |p| ==> p[..i] !in disk.denied && disk.entries[p[..i]] == Dir)
  }

  lemma GenuineChild(disk: Disk, at: Path, name: string)
    requires Genuine(disk, at) && at in disk.entries && disk.entries[at] == Dir && at !in disk.denied
    requires at + [name] in disk.entries && !disk.entries[at + [name]].Link?
    ensures Genuine(disk, at + [name])
  {
    var p := at + [name];
    assert at[..|at|] == at;
    forall i | 0 <= i <= |p|
      ensures p[..i] in disk.entries && !disk.entries[p[..i]].Link?
      ensures i < |p| ==> p[..i] !in disk.denied && disk.entries[p[..i]] == Dir
    {
      if i < |p| { assert p[..i] == at[..i]; } else { assert p[..i] == p; }
    }
  }

  lemma GenuineUp(disk: Disk, at: Path, i: nat)
    requires Genuine(disk, at) && i <= |at|
    ensures Genuine(disk, at[..i])
  {
    forall j | 0 <= j <= i
      ensures at[..i][..j] == at[..j]
    {
    }
  }

  /** A lookup that starts at a genuine place and succeeds ends at one. */
  lemma {:induction false} LookupGenuine(disk: Disk, at: Path, todo: seq<string>, links: nat)
    requires WellFormed(disk) && Genuine(disk, at)
    ensures Lookup(disk, at, todo, links).Found? ==> Genuine(disk, Lookup(disk, at, todo, links).path)
    decreases links, |todo|
  {
    assert at[..|at|] == at;
    if todo != [] && disk.entries[at] == Dir && at !in disk.denied {
      if todo[0] == "" || todo[0] == "." || todo[0] == ".." {
        if at != [] { GenuineUp(disk, at, |at| - 1); }
        LookupGenuine(disk, Enter(at, todo[0]), todo[1..], links);
      } else {
        var next := at + [todo[0]];
        if next in disk.entries && !disk.entries[next].Link? {
          GenuineChild(disk, at, todo[0]);
          LookupGenuine(disk, next, todo[1..], links);
        } else if next in disk.entries && links > 0 {
          var target := disk.entries[next].target;
          GenuineUp(disk, at, 0);
          LookupGenuine(disk, if "/" <= target then [] else at, Split(target) + todo[1..], links - 1);
        }
      }
    }
  }

  /** A genuine path looks up as itself, one name after the other. */
  lemma {:induction false} GenuineFound(disk: Disk, p: Path, i: nat, links: nat)
    requires Genuine(disk, p) && Clean(p) && i <= |p|
    ensures Lookup(disk, p[..i], p[i..], links) == Found(p)
    decreases |p| - i
  {
    if i == |p| {
      assert p[..i] == p;
    } else {
      assert p[i..][0] == p[i] && p[i..][1..] == p[i + 1..];
      assert p[..i] + [p[i]] == p[..i + 1];
      assert IsName(p[i]);
      GenuineFound(disk, p, i + 1, links);
    }
  }

  /** Looking up one name more: a failure stays what it was, a success goes on from where it ended. */
  lemma {:induction false} OneMore(disk: Disk, at: Path, todo: seq<string>, name: string, links: nat) returns (left: nat)
    ensures match Lookup(disk, at, todo, links)
      case Found(there) => Lookup(disk, at, todo + [name], links) == Lookup(disk, there, [name], left)
      case other => Lookup(disk, at, todo + [name], links) == other
    decreases links, |todo|
  {
    left := links;
    if todo == [] {
      assert todo + [name] == [name];
    } else if at in disk.entries && disk.entries[at] == Dir && at !in disk.denied {
      assert (todo + [name])[1..] == todo[1..] + [name];
      if todo[0] == "" || todo[0] == "." || todo[0] == ".." {
        left := OneMore(disk, Enter(at, todo[0]), todo[1..], name, links);
      } else {
        var next := at + [todo[0]];
        if next in disk.entries && !disk.entries[next].Link? {
          left := OneMore(disk, next, todo[1..], name, links);
        } else if next in disk.entries && links > 0 {
          var target := disk.entries[next].target;
          assert Split(target) + (todo[1..] + [name]) == (Split(target) + todo[1..]) + [name];
          left := OneMore(disk, if "/" <= target then [] else at, Split(target) + todo[1..], name, links - 1);
        }
      }
    }
  }

  /** A lookup stopped by something other than a missing file stays stopped however much longer the path is. */
  lemma {:induction false} FailurePersists(disk: Disk, path: Path, k: nat, m: nat)
    requires k <= m <= |path|
    requires !Lookup(disk, [], path[..k], disk.maxLinks).Found?
    ensures Lookup(disk, [], path[..m], disk.maxLinks) == Lookup(disk, [], path[..k], disk.maxLinks)
    decreases m
  {
    if k < m {
      FailurePersists(disk, path, k, m - 1);
      assert path[..m] == path[..m - 1] + [path[m - 1]];
      var left := OneMore(disk, [], path[..m - 1], path[m - 1], disk.maxLinks);
    }
  }

  /** A link that leads back to itself cannot be resolved, however many links a lookup may follow. */
  lemma {:induction false} LoopFails(disk: Disk, name: string, links: nat)
    requires WellFormed(disk) && [] !in disk.denied && IsName(name)
    requires [name] in disk.entries && disk.entries[[name]] == Link(name)
    ensures Lookup(disk, [], [name], links) == Failed
    decreases links
  {
    assert [] + [name] == [name];
    if links > 0 {
      SplitSlashFree(name);
      LoopFails(disk, name, links - 1);
      assert name[0] != '/';
      assert [name] + [name][1..] == [name];
    }
  }

  lemma LoopIsUnresolvable(disk: Disk, root: Path, name: string)
    requires WellFormed(disk) && [] !in disk.denied && IsName(name)
    requires [name] in disk.entries && disk.entries[[name]] == Link(name)
    ensures Answer(disk, root, [name]) == Unresolvable(Render([name]))
  {
    LoopFails(disk, name, disk.maxLinks);
    assert [name][..1] == [name];
  }

  /** A single name that is not found is not there at all, or is a link that leads nowhere. */
  lemma NotFoundThere(disk: Disk, there: Path, name: string, links: nat)
    requires WellFormed(disk) && IsName(name) && Lookup(disk, there, [name], links).NotFound?
    ensures there + [name] in disk.entries ==> IsLink(disk, there + [name]) && there !in disk.denied
  {
    var next := there + [name];
    if next in disk.entries {
      assert Parent(next) == there;
      assert [name][1..] == [];
    }
  }

  lemma FirstMissing(disk: Disk, path: Path, k: nat)
    requires WellFormed(disk) && Clean(path) && k < |path|
    requires Lookup(disk, [], path[..k], disk.maxLinks).Found?
    requires Lookup(disk, [], path[..k + 1], disk.maxLinks).NotFound?
    ensures var there := Lookup(disk, [], path[..k], disk.maxLinks).path;
      && Genuine(disk, there)
      && (there + [path[k]] in disk.entries ==> IsLink(disk, there + [path[k]]) && there !in disk.denied)
  {
    var there := Lookup(disk, [], path[..k], disk.maxLinks).path;
    LookupGenuine(disk, [], path[..k], disk.maxLinks);
    assert path[..k + 1] == path[..k] + [path[k]];
    var left := OneMore(disk, [], path[..k], path[k], disk.maxLinks);
    assert IsName(path[k]);
    NotFoundThere(disk, there, path[k], left);
  }

  lemma LstatChild(disk: Disk, at: Path, name: string)
    requires WellFormed(disk) && Genuine(disk, at) && Clean(at) && IsName(name)
    ensures IsLinkEntry(Lstat(disk, Render(at + [name]))) <==> IsLink(disk, at + [name]) && at !in disk.denied
  {
    var p := at + [name];
    NamesRendered(p);
    GenuineFound(disk, at, 0, disk.maxLinks);
    assert at[..0] == [] && at[0..] == at;
    assert Parent(p) == at;
  }

  lemma {:induction false} ExistingClean(disk: Disk, path: Path, k: nat)
    requires WellFormed(disk) && Clean(path) && k <= |path|
    ensures Existing(disk, path, k).Some? ==> Clean(Existing(disk, path, k).value)
  {
    LookupGenuine(disk, [], path[..k], disk.maxLinks);
    if Lookup(disk, [], path[..k], disk.maxLinks).Found? {
      var there := Lookup(disk, [], path[..k], disk.maxLinks).path;
      assert there[..|there|] == there;
    } else if k > 0 {
      ExistingClean(disk, path, k - 1);
    }
  }

  // ---------- What containment guarantees ----------

  /** Nothing that exists on the way to `p` is a link. */
  ghost predicate NoLinkOnTheWay(disk: Disk, p: Path) {
    forall i :: 0 <= i <= |p| ==> !IsLink(disk, p[..i])
  }

  /** Below a name that is missing nothing exists. */
  lemma {:induction false} NothingBelow(disk: Disk, p: Path, i: nat, j: nat)
    requires WellFormed(disk) && i <= j <= |p| && p[..i] !in disk.entries
    ensures p[..j] !in disk.entries
    decreases j
  {
    if i < j {
      NothingBelow(disk, p, i, j - 1);
      assert Parent(p[..j]) == p[..j - 1];
    }
  }

  /** Where a lookup ends no name is a link. */
  lemma FoundHasNoLink(disk: Disk, path: Path, k: nat)
    requires WellFormed(disk) && k <= |path| && Lookup(disk, [], path[..k], disk.maxLinks).Found?
    ensures NoLinkOnTheWay(disk, Lookup(disk, [], path[..k], disk.maxLinks).path)
  {
    LookupGenuine(disk, [], path[..k], disk.maxLinks);
  }

  lemma ReattachedHasNoLink(disk: Disk, path: Path, k: nat)
    requires WellFormed(disk) && Clean(path) && k < |path|
    requires Lookup(disk, [], path[..k], disk.maxLinks).Found?
    requires Lookup(disk, [], path[..k + 1], disk.maxLinks).NotFound?
    requires !IsLink(disk, Lookup(disk, [], path[..k], disk.maxLinks).path + [path[k]])
    ensures NoLinkOnTheWay(disk, Lookup(disk, [], path[..k], disk.maxLinks).path + path[k..])
  {
    FirstMissing(disk, path, k);
    TailHasNoLink(disk, Lookup(disk, [], path[..k], disk.maxLinks).path, path[k..]);
  }

  /** The prefix the answer was read off. */
  lemma {:induction false} PrefixFound(disk: Disk, path: Path, k: nat) returns (j: nat)
    requires k <= |path| && Existing(disk, path, k).Some?
    requires k < |path| ==> Lookup(disk, [], path[..k + 1], disk.maxLinks).NotFound?
    ensures j <= |path| && Lookup(disk, [], path[..j], disk.maxLinks).Found?
    ensures var there := Lookup(disk, [], path[..j], disk.maxLinks).path;
      if j == |path| then Existing(disk, path, k) == Some(there)
      else
        && Lookup(disk, [], path[..j + 1], disk.maxLinks).NotFound? && !IsLink(disk, there + [path[j]])
        && Existing(disk, path, k) == Some(there + path[j..])
    decreases k
  {
    j := k;
    if Lookup(disk, [], path[..k], disk.maxLinks).NotFound? { j := PrefixFound(disk, path, k - 1); }
  }

  /** The resolved path names no existing link, on any disk and for any path. */
  lemma ResolvedHasNoLink(disk: Disk, path: Path)
    requires WellFormed(disk) && Clean(path)
    ensures RealPrefix(disk, path).Some? ==> Clean(RealPrefix(disk, path).value) && NoLinkOnTheWay(disk, RealPrefix(disk, path).value)
  {
    if RealPrefix(disk, path).Some? {
      ExistingClean(disk, path, |path|);
      var j := PrefixFound(disk, path, |path|);
      if j == |path| { FoundHasNoLink(disk, path, j); } else { ReattachedHasNoLink(disk, path, j); }
    }
  }

  lemma TailHasNoLink(disk: Disk, at: Path, tail: Path)
    requires WellFormed(disk) && Genuine(disk, at) && tail != [] && at + [tail[0]] !in disk.entries
    ensures NoLinkOnTheWay(disk, at + tail)
  {
    var p := at + tail;
    assert p[..|at| + 1] == at + [tail[0]];
    forall i | 0 <= i <= |p|
      ensures !IsLink(disk, p[..i])
    {
      if i <= |at| { assert p[..i] == at[..i]; } else { NothingBelow(disk, p, |at| + 1, i); }
    }
  }

  /** A path with no link on it looks up as itself, if it is found at all. */
  lemma {:induction false} LinklessLookup(disk: Disk, p: Path, i: nat, links: nat)
    requires Clean(p) && i <= |p| && NoLinkOnTheWay(disk, p)
    ensures Lookup(disk, p[..i], p[i..], links).Found? ==> Lookup(disk, p[..i], p[i..], links).path == p
    ensures WellFormed(disk) && p in disk.entries && disk.denied == {} ==> Lookup(disk, p[..i], p[i..], links) == Found(p)
    decreases |p| - i
  {
    if i == |p| {
      assert p[..i] == p;
    } else {
      assert p[i..][0] == p[i] && p[i..][1..] == p[i + 1..];
      assert p[..i] + [p[i]] == p[..i + 1];
      assert IsName(p[i]);
      LinklessLookup(disk, p, i + 1, links);
      if WellFormed(disk) && p in disk.entries {
        assert p[..|p|] == p;
        if p[..i + 1] !in disk.entries { NothingBelow(disk, p, i + 1, |p|); }
        assert Parent(p[..i + 1]) == p[..i];
      }
    }
  }

  /** `later` is `disk` with things added, none of them a link on the way to `p`. */
  ghost predicate CreatedPlainly(disk: Disk, later: Disk, p: Path) {
    && (forall q :: q in disk.entries ==> q in later.entries && later.entries[q] == disk.entries[q])
    && (forall i :: 0 <= i <= |p| && IsLink(later, p[..i]) ==> p[..i] in disk.entries)
  }

  /**
   When a target is contained, its path lies component by component under the resolved root, and it
   stays the place it names: on every later disk that only adds plain directories and files on the
   way to it, looking it up gives the path itself, or nothing, but never another place.
   */
  lemma ContainedMeansInside(disk: Disk, root: Path, target: Path, later: Disk, links: nat)
    requires WellFormed(disk) && Clean(root) && Clean(target)
    requires Answer(disk, root, target).Contained?
    requires CreatedPlainly(disk, later, RealPrefix(disk, target).value)
    ensures var p := RealPrefix(disk, target).value;
      && Answer(disk, root, target).path == Render(p)
      && RealPrefix(disk, root).value <= p
      && NoLinkOnTheWay(disk, p)
      && (Lookup(later, [], p, links).Found? ==> Lookup(later, [], p, links).path == p)
      && (WellFormed(later) && p in later.entries && later.denied == {} ==> Lookup(later, [], p, links) == Found(p))
  {
    var p := RealPrefix(disk, target).value;
    ResolvedHasNoLink(disk, target);
    assert NoLinkOnTheWay(later, p);
    assert p[..0] == [] && p[0..] == p;
    LinklessLookup(later, p, 0, links);
  }

  // ---------- Exactly what is refused ----------

  /** The `k`-th name is a link that leads nowhere. */
  ghost predicate DanglingAt(disk: Disk, path: Path, k: nat)
    requires k < |path|
  {
    && Lookup(disk, [], path[..k], disk.maxLinks).Found?
    && IsLink(disk, Lookup(disk, [], path[..k], disk.maxLinks).path + [path[k]])
    && Lookup(disk, [], path[..k + 1], disk.maxLinks).NotFound?
  }

  ghost predicate FailsAt(disk: Disk, path: Path, k: nat)
    requires k <= |path|
  {
    Lookup(disk, [], path[..k], disk.maxLinks).Failed?
  }

  lemma {:induction false} RefusedFrom(disk: Disk, path: Path, k: nat)
    requires k <= |path|
    requires k < |path| ==> Lookup(disk, [], path[..k + 1], disk.maxLinks).NotFound?
    ensures Existing(disk, path, k) == None <==>
      (exists i :: 0 <= i <= k && FailsAt(disk, path, i)) || (exists i :: 0 <= i < |path| && i <= k && DanglingAt(disk, path, i))
  {
    var found := Lookup(disk, [], path[..k], disk.maxLinks);
    if found.Found? {
      forall i | 0 <= i < k
        ensures !FailsAt(disk, path, i) && !DanglingAt(disk, path, i)
      {
        if FailsAt(disk, path, i) { FailurePersists(disk, path, i, k); }
        if DanglingAt(disk, path, i) { FailurePersists(disk, path, i + 1, k); }
      }
      assert !FailsAt(disk, path, k);
      if k < |path| {
        assert Existing(disk, path, k) == None <==> DanglingAt(disk, path, k);
      }
    } else if found.Failed? {
      assert FailsAt(disk, path, k);
    } else if k > 0 {
      RefusedFrom(disk, path, k - 1);
    }
  }

  /** Resolution is refused exactly for a failing lookup or a dangling link on the way, and for nothing else. */
  lemma RefusedExactly(disk: Disk, path: Path)
    ensures RealPrefix(disk, path) == None <==>
      (exists i :: 0 <= i <= |path| && FailsAt(disk, path, i)) || (exists i :: 0 <= i < |path| && DanglingAt(disk, path, i))
  {
    RefusedFrom(disk, path, |path|);
  }

  // ---------- Exactly what is contained ----------

  /** By lookups alone: the first `k` names are there and no longer prefix is, and the names that are missing follow what is there. */
  ghost predicate ResolvesAt(disk: Disk, path: Path, k: nat, place: Path)
    requires k <= |path|
  {
    && Lookup(disk, [], path[..k], disk.maxLinks).Found?
    && (forall m :: k < m <= |path| ==> Lookup(disk, [], path[..m], disk.maxLinks).NotFound?)
    && var there := Lookup(disk, [], path[..k], disk.maxLinks).path;
      if k == |path| then place == there else !IsLink(disk, there + [path[k]]) && place == there + path[k..]
  }

  ghost predicate ResolvesTo(disk: Disk, path: Path, place: Path) {
    exists k :: 0 <= k <= |path| && ResolvesAt(disk, path, k, place)
  }

  /** A lookup on the way fails for another reason than a missing file, or the first missing name is a link that leads nowhere. */
  ghost predicate Stopped(disk: Disk, path: Path) {
    || (exists i :: 0 <= i <= |path| && FailsAt(disk, path, i))
    || (exists i :: 0 <= i < |path| && DanglingAt(disk, path, i))
  }

  lemma {:induction false} ExistingResolves(disk: Disk, path: Path, k: nat, place: Path)
    requires k <= |path| && forall m :: k < m <= |path| ==> Lookup(disk, [], path[..m], disk.maxLinks).NotFound?
    ensures Existing(disk, path, k) == Some(place) <==> ResolvesTo(disk, path, place)
    decreases k
  {
    var found := Lookup(disk, [], path[..k], disk.maxLinks);
    if found.NotFound? && k > 0 {
      ExistingResolves(disk, path, k - 1, place);
    } else {
      if ResolvesTo(disk, path, place) {
        var j :| 0 <= j <= |path| && ResolvesAt(disk, path, j, place);
        OnlyOnePrefix(disk, path, j, k, place);
      }
      if found.Found? && Existing(disk, path, k) == Some(place) { assert ResolvesAt(disk, path, k, place); }
    }
  }

  /** Nothing longer than `k` is found, and what is resolved at `j` is found there: so `j` is `k`, or everything from there down to `k` is missing. */
  lemma OnlyOnePrefix(disk: Disk, path: Path, j: nat, k: nat, place: Path)
    requires j <= |path| && k <= |path| && ResolvesAt(disk, path, j, place)
    requires forall m :: k < m <= |path| ==> Lookup(disk, [], path[..m], disk.maxLinks).NotFound?
    requires !Lookup(disk, [], path[..k], disk.maxLinks).NotFound? || k == 0
    ensures j == k
  {
  }

  lemma ResolvedBy(disk: Disk, path: Path, place: Path)
    ensures RealPrefix(disk, path) == Some(place) <==> ResolvesTo(disk, path, place)
  {
    ExistingResolves(disk, path, |path|, place);
  }

  /** On every disk, links or not: the answer compares what the root and the target resolve to, and only that; and there is none
      exactly if one of them is stopped. */
  lemma ContainedExactly(disk: Disk, root: Path, target: Path)
    ensures forall r, t :: ResolvesTo(disk, root, r) && ResolvesTo(disk, target, t) ==>
      Answer(disk, root, target) == if r <= t then Contained(Render(t)) else EscapesRoot(Render(target))
    ensures Answer(disk, root, target) == Unresolvable(Render(target)) <==> Stopped(disk, root) || Stopped(disk, target)
    ensures Stopped(disk, root) <==> forall r :: !ResolvesTo(disk, root, r)
  {
    forall r, t | ResolvesTo(disk, root, r) && ResolvesTo(disk, target, t)
      ensures Answer(disk, root, target) == if r <= t then Contained(Render(t)) else EscapesRoot(Render(target))
    {
      ResolvedBy(disk, root, r);
      ResolvedBy(disk, target, t);
    }
    RefusedExactly(disk, root);
    RefusedExactly(disk, target);
    forall r ensures RealPrefix(disk, root) == Some(r) <==> ResolvesTo(disk, root, r) { ResolvedBy(disk, root, r); }
    if RealPrefix(disk, root).Some? { assert ResolvesTo(disk, root, RealPrefix(disk, root).value); }
  }

  /** In particular of what is there: where both are found, the places found are compared, whatever links led to them. */
  lemma FoundIsCompared(disk: Disk, root: Path, target: Path, r: Path, t: Path)
    requires Lookup(disk, [], root, disk.maxLinks) == Found(r) && Lookup(disk, [], target, disk.maxLinks) == Found(t)
    ensures Answer(disk, root, target) == if r <= t then Contained(Render(t)) else EscapesRoot(Render(target))
  {
    assert root[..|root|] == root && target[..|target|] == target;
    assert ResolvesAt(disk, root, |root|, r) && ResolvesAt(disk, target, |target|, t);
    ContainedExactly(disk, root, target);
  }

  /** A link in the root directory, as `/var` to `private/var`: what lies below the place it names is found below the link. */
  lemma FoundThroughLink(disk: Disk, name: string, dest: Path, below: Path)
    requires IsName(name) && Clean(dest) && dest != [] && disk.maxLinks > 0
    requires [name] in disk.entries && disk.entries[[name]] == Link(Join(dest))
    requires Clean(dest + below) && Genuine(disk, dest + below)
    ensures Lookup(disk, [], [name] + below, disk.maxLinks) == Found(dest + below)
  {
    var todo, p := [name] + below, dest + below;
    GenuineRoot(disk, p);
    assert todo[0] == name && todo[1..] == below && [] + [name] == [name];
    JoinStart(dest);
    SplitJoin(dest);
    assert Lookup(disk, [], todo, disk.maxLinks) == Lookup(disk, [], p, disk.maxLinks - 1);
    GenuineFound(disk, p, 0, disk.maxLinks - 1);
    assert p[..0] == [] && p[0..] == p;
  }

  lemma GenuineRoot(disk: Disk, p: Path)
    requires Genuine(disk, p) && p != []
    ensures [] in disk.entries && disk.entries[[]] == Dir && [] !in disk.denied
  {
    assert p[..0] == [];
  }

  lemma JoinStart(names: Path)
    requires Clean(names) && names != []
    ensures !("/" <= Join(names))
  {
    assert IsName(names[0]);
    assert Join(names)[0] == names[0][0];
  }

  lemma Regrouped(a: Path, b: Path, c: Path)
    ensures a + b + c == a + (b + c) && (a + b + c)[..|a + b|] == a + b && a + b <= a + b + c
  {
  }

  /** So a root under such a link contains everything below it, and the answer is where that really is. */
  lemma LinkedRootContains(disk: Disk, name: string, dest: Path, root: Path, below: Path)
    requires IsName(name) && Clean(dest) && dest != [] && disk.maxLinks > 0
    requires [name] in disk.entries && disk.entries[[name]] == Link(Join(dest))
    requires Clean(dest + root + below) && Genuine(disk, dest + root + below)
    ensures Answer(disk, [name] + root, [name] + root + below) == Contained(Render(dest + root + below))
  {
    Regrouped(dest, root, below);
    Regrouped([name], root, below);
    GenuineUp(disk, dest + root + below, |dest + root|);
    FoundThroughLink(disk, name, dest, root);
    FoundThroughLink(disk, name, dest, root + below);
    FoundIsCompared(disk, [name] + root, [name] + root + below, dest + root, dest + root + below);
  }

  // ---------- Without links, the lexical test ----------

  ghost predicate Plain(disk: Disk) {
    WellFormed(disk) && disk.denied == {} && forall p :: p in disk.entries ==> !disk.entries[p].Link?
  }

  lemma {:induction false} PlainLookup(disk: Disk, path: Path, k: nat)
    requires Plain(disk) && Clean(path) && k <= |path|
    ensures Lookup(disk, [], path[..k], disk.maxLinks) in {Found(path[..k]), NotFound}
  {
    if k > 0 {
      PlainLookup(disk, path, k - 1);
      var last := path[k - 1];
      assert path[..k] == path[..k - 1] + [last];
      var left := OneMore(disk, [], path[..k - 1], last, disk.maxLinks);
      assert IsName(last);
      assert [last][1..] == [];
    }
  }

  lemma {:induction false} PlainExisting(disk: Disk, path: Path, k: nat)
    requires Plain(disk) && Clean(path) && k <= |path|
    ensures Existing(disk, path, k) == Some(path)
  {
    PlainLookup(disk, path, k);
    assert path[..k] + path[k..] == path && path[..|path|] == path;
    if Lookup(disk, [], path[..k], disk.maxLinks).NotFound? { PlainExisting(disk, path, k - 1); }
  }

  /** On a readable tree without links the answer is the plain ancestor test on the lexical paths. */
  lemma PlainTreeIsLexical(disk: Disk, root: Path, target: Path)
    requires Plain(disk) && Clean(root) && Clean(target)
    ensures Answer(disk, root, target) == if root <= target then Contained(Render(target)) else EscapesRoot(Render(target))
  {
    PlainExisting(disk, root, |root|);
    PlainExisting(disk, target, |target|);
  }
}

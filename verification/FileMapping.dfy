/** From a URL path to a file below the served root. */
module FileMapping {
  import Text

  const INDEX := "index.html"

  datatype Mapped = Refused | File(rel: string, file: string)

  /** The path behind the mount prefix; "" when there is nothing behind it. */
  function Behind(path: string, urlPrefix: string): string {
    if |path| > |urlPrefix| then path[|urlPrefix|..] else ""
  }

  function WithIndex(rel: string): string {
    if rel == "" || rel[|rel| - 1] == '/' then rel + INDEX else rel
  }

  function DropSlashes(rel: string): string {
    if rel != "" && rel[0] == '/' then DropSlashes(rel[1..]) else rel
  }

  function DropOneSlash(root: string): string {
    if root != "" && root[|root| - 1] == '/' then root[..|root| - 1] else root
  }

  function MapFile(path: string, fsRoot: string, urlPrefix: string): Mapped {
    var rel := WithIndex(Behind(path, urlPrefix));
    if Text.Find(rel, "..").Some? then Refused
    else File(DropSlashes(rel), DropOneSlash(fsRoot) + "/" + DropSlashes(rel))
  }

  // ---- What is refused, and where the rest is mapped -------------------------------------

  predicate HasDots(s: string) {
    exists i | 0 <= i < |s| - 1 :: s[i] == '.' && s[i + 1] == '.'
  }

  lemma DotsAreFound(s: string)
    ensures Text.Find(s, "..").Some? <==> HasDots(s)
  {
    hide Text.Find;
    var found := Text.Find(s, "..");
    if found.Some? {
      Text.FindIsFirst(s, "..", found.value);
      assert s[found.value] == s[found.value..][0] && s[found.value + 1] == s[found.value..][1];
    }
    if i :| 0 <= i < |s| - 1 && s[i] == '.' && s[i + 1] == '.' {
      assert ".." <= s[i..];
      Text.FindIsFirst(s, "..", i);
    }
  }

  lemma IndexAddsNoDots(rel: string)
    requires rel == "" || rel[|rel| - 1] == '/'
    ensures HasDots(rel + "index.html") <==> HasDots(rel)
  {
    var s, tail := rel + "index.html", "index.html";
    assert forall i | 0 <= i < |rel| :: s[i] == rel[i];
    assert forall i | |rel| <= i < |s| :: s[i] == tail[i - |rel|];
    assert forall i | 0 <= i < |tail| :: tail[i] == '.' ==> i == 5;
    assert tail[6] != '.';
    if HasDots(s) {
      var i :| 0 <= i < |s| - 1 && s[i] == '.' && s[i + 1] == '.';
      assert i < |rel| - 1;
      assert rel[i] == '.' && rel[i + 1] == '.';
    }
    if HasDots(rel) {
      var i :| 0 <= i < |rel| - 1 && rel[i] == '.' && rel[i + 1] == '.';
      assert s[i] == '.' && s[i + 1] == '.';
    }
  }

  /** A path below the mount is refused exactly when ".." occurs behind the mount. */
  lemma RefusesDotsOnly(path: string, fsRoot: string, urlPrefix: string)
    requires urlPrefix <= path
    ensures MapFile(path, fsRoot, urlPrefix).Refused? <==> HasDots(path[|urlPrefix|..])
  {
    hide Text.Find, DropSlashes, HasDots;
    var rel := path[|urlPrefix|..];
    assert Behind(path, urlPrefix) == rel;
    DotsAreFound(WithIndex(rel));
    if rel == "" || rel[|rel| - 1] == '/' {
      IndexAddsNoDots(rel);
    }
  }

  lemma {:induction false} SlashesDrop(slashes: string, rest: string)
    requires forall i | 0 <= i < |slashes| :: slashes[i] == '/'
    requires rest != "" && rest[0] != '/'
    ensures DropSlashes(slashes + rest) == rest
  {
    if slashes == "" {
      assert slashes + rest == rest;
    } else {
      assert (slashes + rest)[1..] == slashes[1..] + rest;
      SlashesDrop(slashes[1..], rest);
    }
  }

  lemma SlashesAddNoDots(slashes: string, name: string)
    requires forall i | 0 <= i < |slashes| :: slashes[i] == '/'
    ensures HasDots(slashes + name) <==> HasDots(name)
  {
    var s := slashes + name;
    assert forall i | 0 <= i < |name| :: s[|slashes| + i] == name[i];
    if HasDots(name) {
      var i :| 0 <= i < |name| - 1 && name[i] == '.' && name[i + 1] == '.';
      assert s[|slashes| + i] == '.' && s[|slashes| + i + 1] == '.';
    }
    if HasDots(s) {
      var i :| 0 <= i < |s| - 1 && s[i] == '.' && s[i + 1] == '.';
      assert i >= |slashes|;
      assert name[i - |slashes|] == '.' && name[i - |slashes| + 1] == '.';
    }
  }

  /** The name of a file below a directory: of its index when a directory is named. */
  function FileNamed(name: string): string {
    if name == "" || name[|name| - 1] == '/' then name + "index.html" else name
  }

  lemma NamedFile(slashes: string, name: string)
    requires forall i | 0 <= i < |slashes| :: slashes[i] == '/'
    requires name == "" || name[0] != '/'
    ensures WithIndex(slashes + name) == slashes + FileNamed(name)
    ensures FileNamed(name) != "" && FileNamed(name)[0] != '/'
  {
    var rest := slashes + name;
    if name == "" {
      assert rest == slashes && FileNamed(name) == "index.html";
    } else {
      assert rest[|rest| - 1] == name[|name| - 1];
      assert rest + "index.html" == slashes + (name + "index.html");
    }
  }

  lemma RootWithoutSlash(dir: string, fsRoot: string)
    requires (dir == "" || dir[|dir| - 1] != '/') && (fsRoot == dir || fsRoot == dir + "/")
    ensures DropOneSlash(fsRoot) == dir
  {
    assert (dir + "/")[..|dir|] == dir;
  }

  /** Where a path that is not refused is mapped: behind the mount come any slashes
      and a name; the file is the directory served, given with or without its final
      '/', then one '/', and the name, or the index file of the directory named. */
  lemma MapsTo(dir: string, fsRoot: string, urlPrefix: string, slashes: string, name: string)
    requires (dir == "" || dir[|dir| - 1] != '/') && (fsRoot == dir || fsRoot == dir + "/")
    requires forall i | 0 <= i < |slashes| :: slashes[i] == '/'
    requires (name == "" || name[0] != '/') && !HasDots(name)
    ensures MapFile(urlPrefix + slashes + name, fsRoot, urlPrefix)
            == File(FileNamed(name), dir + "/" + FileNamed(name))
  {
    hide Text.Find, HasDots, DropSlashes, WithIndex, FileNamed, DropOneSlash;
    var path, rest := urlPrefix + slashes + name, slashes + name;
    assert path == urlPrefix + rest && path[|urlPrefix|..] == rest;
    assert Behind(path, urlPrefix) == rest;
    SlashesAddNoDots(slashes, name);
    RefusesDotsOnly(path, fsRoot, urlPrefix);
    NamedFile(slashes, name);
    SlashesDrop(slashes, FileNamed(name));
    RootWithoutSlash(dir, fsRoot);
  }

  /** The handler's edits of `rel` and `file`, in order. */
  method ToFile(path: string, fsRoot: string, urlPrefix: string) returns (m: Mapped)
    ensures m == MapFile(path, fsRoot, urlPrefix)
    ensures urlPrefix <= path ==> (m.Refused? <==> HasDots(path[|urlPrefix|..]))
  {
    hide Text.Find, HasDots;
    if urlPrefix <= path {
      RefusesDotsOnly(path, fsRoot, urlPrefix);
    }
    var rel := if |path| > |urlPrefix| then path[|urlPrefix|..] else "";
    if rel == "" || rel[|rel| - 1] == '/' {
      rel := rel + INDEX;
    }
    if Text.Find(rel, "..").Some? {
      return Refused;
    }
    ghost var whole := rel;
    while rel != "" && rel[0] == '/'
      invariant DropSlashes(rel) == DropSlashes(whole)
      decreases |rel|
    {
      rel := rel[1..];
    }
    var file := fsRoot;
    if file != "" && file[|file| - 1] == '/' {
      file := file[..|file| - 1];
    }
    file := file + "/" + rel;
    return File(rel, file);
  }

  // ---- Where a path leads --------------------------------------------------------

  /** A place in the file tree: from the file-system root or from the working
      directory, and the names on the way down. */
  datatype Place = Place(absolute: bool, names: seq<string>)

  /** One path component: "" and "." stay, ".." goes up, anything else goes down. */
  function Enter(at: Place, part: string): Place {
    if part == "" || part == "." then at
    else if part != ".." then at.(names := at.names + [part])
    else if at.names == [] then (if at.absolute then at else at.(names := [".."]))
    else if at.names[|at.names| - 1] == ".." then at.(names := at.names + [".."])
    else at.(names := at.names[..|at.names| - 1])
  }

  function Walk(at: Place, parts: seq<string>): Place
    decreases |parts|
  {
    if parts == [] then at else Walk(Enter(at, parts[0]), parts[1..])
  }

  function Resolve(path: string): Place {
    Walk(Place("/" <= path, []), Text.Split(path))
  }

  /** The components that go somewhere. */
  function Names(parts: seq<string>): seq<string> {
    if parts == [] then []
    else (if parts[0] == "" || parts[0] == "." then [] else [parts[0]]) + Names(parts[1..])
  }

  predicate Inside(root: string, file: string) {
    && Resolve(file).absolute == Resolve(root).absolute
    && Resolve(root).names <= Resolve(file).names
  }

  lemma {:induction false} WalkAppend(at: Place, a: seq<string>, b: seq<string>)
    ensures Walk(at, a + b) == Walk(Walk(at, a), b)
    decreases |a|
  {
    if a == [] {
      assert a + b == b;
    } else {
      assert (a + b)[1..] == a[1..] + b;
      WalkAppend(Enter(at, a[0]), a[1..], b);
    }
  }

  lemma {:induction false} WalkDown(at: Place, parts: seq<string>)
    requires ".." !in parts
    ensures Walk(at, parts) == at.(names := at.names + Names(parts))
    decreases |parts|
  {
    if parts != [] {
      var first := if parts[0] == "" || parts[0] == "." then [] else [parts[0]];
      assert parts[0] != "..";
      assert at.names + [] == at.names;
      assert Enter(at, parts[0]) == at.(names := at.names + first);
      WalkDown(Enter(at, parts[0]), parts[1..]);
      assert (at.names + first) + Names(parts[1..]) == at.names + (first + Names(parts[1..]));
    } else {
      assert at.names + [] == at.names;
    }
  }

  /** A text without ".." has no ".." component. */
  lemma {:induction false} NoParentPart(s: string)
    requires Text.Find(s, "..").None?
    ensures ".." !in Text.Split(s)
    decreases |s|
  {
    hide Text.Find, Text.IndexOf, Text.Split;
    var head := Text.Until(s, '/');
    if head == ".." {
      assert s[0..] == s;
      Text.FindIsFirst(s, "..", 0);
    }
    if |head| == |s| {
      assert head == s;
      Text.SplitWhole(s);
    } else {
      var tail := s[|head| + 1..];
      assert s == head + "/" + tail;
      Text.SplitFirst(s, head);
      Text.NotInTail(s, |head| + 1, "..");
      NoParentPart(tail);
    }
  }

  lemma {:induction false} DropSlashesKeepsRest(rel: string)
    requires rel != "" && rel[|rel| - 1] != '/'
    ensures var r := DropSlashes(rel);
            r != "" && r[0] != '/' && |r| <= |rel| && r == rel[|rel| - |r|..]
  {
    if rel[0] != '/' {
    } else {
      DropSlashesKeepsRest(rel[1..]);
    }
  }

  /** What is read is never the root itself and never an absolute remainder, and
      still has no "..". */
  lemma RelIsProper(path: string, fsRoot: string, urlPrefix: string)
    requires MapFile(path, fsRoot, urlPrefix).File?
    ensures var rel := MapFile(path, fsRoot, urlPrefix).rel;
            rel != "" && rel[0] != '/' && Text.Find(rel, "..").None?
  {
    hide Text.Find, DropSlashes;
    var whole := WithIndex(Behind(path, urlPrefix));
    DropSlashesKeepsRest(whole);
    Text.NotInTail(whole, |whole| - |DropSlashes(whole)|, "..");
  }

  /** Dropping a trailing '/' changes neither a path's place nor where it starts. */
  lemma SameRoot(root: string)
    requires root != ""
    ensures Walk(Place("/" <= root, []), Text.Split(DropOneSlash(root))) == Resolve(root)
  {
    hide Text.Split;
    var cut := DropOneSlash(root);
    if cut != root {
      assert root == cut + "/" + "";
      Text.SplitAppend(cut, "");
      Text.SplitWhole("");
      WalkAppend(Place("/" <= root, []), Text.Split(cut), [""]);
    }
  }

  /** The file read is the root's components followed by those of `rel`, and it
      resolves to the resolved root followed by the names in `rel`. */
  lemma FileBelowRoot(path: string, fsRoot: string, urlPrefix: string)
    requires MapFile(path, fsRoot, urlPrefix).File? && fsRoot != ""
    ensures var m := MapFile(path, fsRoot, urlPrefix);
            && Text.Split(m.file) == Text.Split(DropOneSlash(fsRoot)) + Text.Split(m.rel)
            && ".." !in Text.Split(m.rel)
            && Resolve(m.file) == Place(Resolve(fsRoot).absolute, Resolve(fsRoot).names + Names(Text.Split(m.rel)))
  {
    hide Text.Find, Text.Split, DropSlashes, Walk, Names;
    var m := MapFile(path, fsRoot, urlPrefix);
    RelIsProper(path, fsRoot, urlPrefix);
    var cut := DropOneSlash(fsRoot);
    Text.SplitAppend(cut, m.rel);
    NoParentPart(m.rel);
    var start := Place("/" <= fsRoot, []);
    assert m.file[0] == fsRoot[0];
    assert "/" <= m.file <==> "/" <= fsRoot;
    SameRoot(fsRoot);
    WalkAppend(start, Text.Split(cut), Text.Split(m.rel));
    WalkDown(Resolve(fsRoot), Text.Split(m.rel));
    AbsoluteStays(start, Text.Split(fsRoot));
  }

  lemma {:induction false} AbsoluteStays(at: Place, parts: seq<string>)
    ensures Walk(at, parts).absolute == at.absolute
    decreases |parts|
  {
    if parts == [] {
    } else {
      AbsoluteStays(Enter(at, parts[0]), parts[1..]);
    }
  }

  /** The mapping stays inside its root exactly when the root is not empty: an
      empty root stands for the working directory, but files are then looked up
      from the file-system root. */
  lemma InsideExactly(path: string, fsRoot: string, urlPrefix: string)
    requires MapFile(path, fsRoot, urlPrefix).File?
    ensures Inside(fsRoot, MapFile(path, fsRoot, urlPrefix).file) <==> fsRoot != ""
  {
    hide Text.Find, Text.Split, DropSlashes, Walk, Names;
    var m := MapFile(path, fsRoot, urlPrefix);
    AbsoluteStays(Place("/" <= fsRoot, []), Text.Split(fsRoot));
    AbsoluteStays(Place("/" <= m.file, []), Text.Split(m.file));
    if fsRoot != "" {
      FileBelowRoot(path, fsRoot, urlPrefix);
    } else {
      assert m.file[0] == '/';
    }
  }

  /** A remainder whose components all go somewhere. */
  predicate Clean(rel: string) {
    "" !in Text.Split(rel) && "." !in Text.Split(rel)
  }

  lemma {:induction false} CleanNames(parts: seq<string>)
    requires "" !in parts && "." !in parts
    ensures Names(parts) == parts
  {
    if parts == [] {
    } else {
      CleanNames(parts[1..]);
      assert parts == [parts[0]] + parts[1..];
    }
  }

  /** A path that is empty or starts with '/' has an empty component. */
  lemma EmptyFirstPart(rel: string)
    requires rel == "" || rel[0] == '/'
    ensures "" in Text.Split(rel)
  {
    hide Text.IndexOf;
    Text.UntilUnique(rel, '/', "");
    assert Text.Split(rel)[0] == "";
  }

  /** So has a path that ends with '/'. */
  lemma TrailingSlash(front: string)
    ensures "" in Text.Split(front + "/")
  {
    hide Text.Split, Text.IndexOf;
    Text.SplitAppend(front, "");
    Text.SplitWhole("");
    assert front + "/" + "" == front + "/";
    assert Text.Split(front + "/")[|Text.Split(front)|] == "";
  }

  lemma EmptyLastPart(rel: string)
    requires rel != "" && rel[|rel| - 1] == '/'
    ensures "" in Text.Split(rel)
  {
    hide Text.Split, Text.IndexOf;
    TrailingSlash(rel[..|rel| - 1]);
    assert rel[..|rel| - 1] + "/" == rel;
  }

  lemma CleanStays(rel: string)
    requires Clean(rel)
    ensures rel != "" && DropSlashes(WithIndex(rel)) == rel
  {
    hide Text.Split, Text.IndexOf;
    if rel == "" || rel[0] == '/' {
      EmptyFirstPart(rel);
    } else if rel[|rel| - 1] == '/' {
      EmptyLastPart(rel);
    }
  }

  /** A clean remainder is used as it is. */
  lemma CleanIsKept(path: string, fsRoot: string, urlPrefix: string)
    requires urlPrefix <= path && Clean(path[|urlPrefix|..])
    requires fsRoot != "" && MapFile(path, fsRoot, urlPrefix).File?
    ensures MapFile(path, fsRoot, urlPrefix).rel == path[|urlPrefix|..]
    ensures Resolve(MapFile(path, fsRoot, urlPrefix).file).names
            == Resolve(fsRoot).names + Text.Split(path[|urlPrefix|..])
  {
    hide Text.Find, Text.Split, Resolve;
    var rel := path[|urlPrefix|..];
    CleanStays(rel);
    assert MapFile(path, fsRoot, urlPrefix).rel == rel;
    FileBelowRoot(path, fsRoot, urlPrefix);
    CleanNames(Text.Split(rel));
  }

  /** Distinct clean paths below the same mount lead to distinct places. */
  lemma DistinctPlaces(a: string, b: string, fsRoot: string, urlPrefix: string)
    requires fsRoot != "" && urlPrefix <= a && urlPrefix <= b
    requires Clean(a[|urlPrefix|..]) && Clean(b[|urlPrefix|..])
    requires MapFile(a, fsRoot, urlPrefix).File? && MapFile(b, fsRoot, urlPrefix).File?
    requires Resolve(MapFile(a, fsRoot, urlPrefix).file) == Resolve(MapFile(b, fsRoot, urlPrefix).file)
    ensures a == b
  {
    hide Text.Find, Text.Split, Resolve, MapFile;
    CleanIsKept(a, fsRoot, urlPrefix);
    CleanIsKept(b, fsRoot, urlPrefix);
    var x, y := a[|urlPrefix|..], b[|urlPrefix|..];
    Text.SameTail(Resolve(fsRoot).names, Text.Split(x), Text.Split(y));
    Text.JoinSplit(x);
    Text.JoinSplit(y);
    assert a == urlPrefix + x && b == urlPrefix + y;
  }
}

/** Where an untrusted upload name ends up: POSIX path joining and lexical normalisation. */
module UploadPath {
  import opened Options
  import opened Sequences

  const UPLOAD_FOLDER := "uploads"
  const INDEXED_FOLDER := "student_uploads"

  datatype UploadTarget = UploadTarget(key: string, indexed: bool)

  // ----- posixpath -----

  /** `path.split("/")`: never empty, and one more part than there are slashes. */
  function Split(s: string): (parts: seq<string>)
    ensures parts != []
  {
    if s == "" then [""]
    else
      var rest := Split(s[1..]);
      if s[0] == '/' then [""] + rest else [[s[0]] + rest[0]] + rest[1..]
  }

  /** `"/".join(parts)` */
  function Join(parts: seq<string>): string {
    if parts == [] then ""
    else if |parts| == 1 then parts[0]
    else parts[0] + "/" + Join(parts[1..])
  }

  predicate Rooted(path: string) { path != "" && path[0] == '/' }

  function PathJoin(a: string, b: string): string {
    if Rooted(b) then b
    else if a == "" || a[|a| - 1] == '/' then a + b
    else a + "/" + b
  }

  /** The loop of `normpath` over the remaining parts, with the parts kept so far. */
  function NormParts(parts: seq<string>, rooted: bool, kept: seq<string>): seq<string>
    decreases |parts|
  {
    if parts == [] then kept
    else
      var part := parts[0];
      if part == "" || part == "." then NormParts(parts[1..], rooted, kept)
      else if part != ".." || (!rooted && kept == []) || (kept != [] && kept[|kept| - 1] == "..") then
        NormParts(parts[1..], rooted, kept + [part])
      else if kept != [] then NormParts(parts[1..], rooted, kept[..|kept| - 1])
      else NormParts(parts[1..], rooted, kept)
  }

  /** One or two leading slashes are kept; three or more count as one. */
  function LeadingSlashes(path: string): string {
    if !Rooted(path) then ""
    else if |path| >= 2 && path[1] == '/' && !(|path| >= 3 && path[2] == '/') then "//"
    else "/"
  }

  function NormPath(path: string): string {
    var normal := LeadingSlashes(path) + Join(NormParts(Split(path), Rooted(path), []));
    if normal == "" then "." else normal
  }

  /** `path.partition("/")`: what stands before the first slash and what stands after it. */
  function Partition(path: string): (string, string) {
    if path == "" then ("", "")
    else if path[0] == '/' then ("", path[1..])
    else var (folder, name) := Partition(path[1..]); ([path[0]] + folder, name)
  }

  /** `resolve_upload_target`; None stands for PathTraversalError. */
  function ResolveUploadTarget(lab: string, filename: string): Option<UploadTarget> {
    var path := NormPath(PathJoin(UPLOAD_FOLDER, filename));
    var (folder, name) := Partition(path);
    if folder !in [UPLOAD_FOLDER, INDEXED_FOLDER] || name == "" then None
    else Some(UploadTarget(lab + "/" + path, folder == INDEXED_FOLDER))
  }

  // ----- Splitting and joining -----

  predicate NoSlash(s: string) { '/' !in s }

  lemma {:induction false} PartsHaveNoSlash(s: string)
    ensures forall part <- Split(s) :: NoSlash(part)
  {
    if s != "" {
      PartsHaveNoSlash(s[1..]);
      var rest := Split(s[1..]);
      if s[0] == '/' {
        assert forall part <- [""] + rest :: part == "" || part in rest;
      } else {
        var first := [s[0]] + rest[0];
        assert rest[0] in rest && NoSlash(first);
        assert forall part <- [first] + rest[1..] :: part == first || part in rest;
      }
    }
  }

  lemma JoinFirst(first: string, rest: seq<string>, more: string)
    requires rest != []
    ensures Join([first] + rest) == first + "/" + Join(rest)
    ensures Join([more + rest[0]] + rest[1..]) == more + Join(rest)
  {
    assert ([first] + rest)[1..] == rest;
    var parts := [more + rest[0]] + rest[1..];
    assert parts[1..] == rest[1..] && parts[0] == more + rest[0];
    if |rest| > 1 {
      Assoc(more, rest[0], "/");
      Assoc(more, rest[0] + "/", Join(rest[1..]));
    }
  }

  lemma {:induction false} PartsJoinBack(s: string)
    ensures Join(Split(s)) == s
  {
    if s != "" {
      PartsJoinBack(s[1..]);
      JoinFirst("", Split(s[1..]), [s[0]]);
      assert s == [s[0]] + s[1..];
      assert s[0] == '/' ==> "" + "/" + s[1..] == s;
    }
  }

  lemma SplitParts(s: string)
    ensures forall part <- Split(s) :: NoSlash(part)
    ensures Join(Split(s)) == s
  {
    PartsHaveNoSlash(s);
    PartsJoinBack(s);
  }

  lemma {:induction false} SplitPrefix(a: string, b: string)
    requires NoSlash(a)
    ensures Split(a + "/" + b) == [a] + Split(b)
    ensures Split(a) == [a]
  {
    if a == "" {
      assert a + "/" + b == "/" + b;
      assert ("/" + b)[1..] == b;
    } else {
      SplitPrefix(a[1..], b);
      assert (a + "/" + b)[1..] == a[1..] + "/" + b;
      assert a == [a[0]] + a[1..];
    }
  }

  lemma {:induction false} JoinSplits(parts: seq<string>)
    requires parts != [] && forall part <- parts :: NoSlash(part)
    ensures Split(Join(parts)) == parts
  {
    if |parts| == 1 {
      SplitPrefix(parts[0], "");
    } else {
      JoinSplits(parts[1..]);
      SplitPrefix(parts[0], Join(parts[1..]));
      assert parts == [parts[0]] + parts[1..];
    }
  }

  lemma {:induction false} PartitionIsFirstPart(s: string)
    ensures Partition(s) == (Split(s)[0], Join(Split(s)[1..]))
  {
    if s != "" {
      PartitionIsFirstPart(s[1..]);
      SplitParts(s[1..]);
      var rest := Split(s[1..]);
      assert ([""] + rest)[1..] == rest;
      assert ([[s[0]] + rest[0]] + rest[1..])[1..] == rest[1..];
    }
  }

  // ----- A walk through the directories, as a meaning for paths -----

  /** `ups` steps above the start, then down through `names`. */
  datatype Place = Place(ups: nat, names: seq<string>)

  function Walk(parts: seq<string>, rooted: bool, from: Place): Place
    decreases |parts|
  {
    if parts == [] then from
    else Walk(parts[1..], rooted, Enter(parts[0], rooted, from))
  }

  /** Above the root there is only the root. */
  function Enter(part: string, rooted: bool, from: Place): Place {
    if part == "" || part == "." then from
    else if part != ".." then Place(from.ups, from.names + [part])
    else if from.names != [] then Place(from.ups, from.names[..|from.names| - 1])
    else if rooted then from
    else Place(from.ups + 1, [])
  }

  /** A directory name, not a step. */
  predicate Proper(part: string) { NoSlash(part) && part !in ["", ".", ".."] }

  ghost predicate Tidy(p: Place, rooted: bool) {
    (forall name <- p.names :: Proper(name)) && (rooted ==> p.ups == 0)
  }

  function Ups(n: nat): seq<string> { if n == 0 then [] else Ups(n - 1) + [".."] }

  /** The shortest path to a place. */
  function Route(p: Place): seq<string> { Ups(p.ups) + p.names }

  lemma {:induction false} UpsAreUps(n: nat)
    ensures |Ups(n)| == n && forall i :: 0 <= i < n ==> Ups(n)[i] == ".."
  {
    if n > 0 {
      UpsAreUps(n - 1);
    }
  }

  lemma EnterKeepsTidy(part: string, rooted: bool, from: Place)
    requires Tidy(from, rooted) && NoSlash(part)
    ensures Tidy(Enter(part, rooted, from), rooted)
  {
    assert forall name <- Enter(part, rooted, from).names :: name in from.names || name == part;
  }

  /** What one pass of the loop does to the kept parts is what the walk does to its place. */
  lemma OnePart(part: string, rest: seq<string>, rooted: bool, from: Place)
    requires Tidy(from, rooted)
    ensures NormParts([part] + rest, rooted, Route(from)) == NormParts(rest, rooted, Route(Enter(part, rooted, from)))
  {
    var kept, to := Route(from), Enter(part, rooted, from);
    UpsAreUps(from.ups);
    assert ([part] + rest)[1..] == rest;
    if part != "" && part != "." {
      if part != ".." {
        Assoc(Ups(from.ups), from.names, [part]);
      } else if from.names != [] {
        assert kept[|kept| - 1] == from.names[|from.names| - 1];
        assert from.names[|from.names| - 1] in from.names;
        assert kept[..|kept| - 1] == Route(to);
      } else if !rooted {
        assert kept == Ups(from.ups);
        assert kept + [part] == Route(to);
      } else {
        assert kept == [];
      }
    }
  }

  /** The loop of `normpath` keeps the shortest route to wherever the walk has come. */
  lemma {:induction false} NormPartsIsWalk(parts: seq<string>, rooted: bool, from: Place)
    requires Tidy(from, rooted) && forall part <- parts :: NoSlash(part)
    ensures NormParts(parts, rooted, Route(from)) == Route(Walk(parts, rooted, from))
    ensures Tidy(Walk(parts, rooted, from), rooted)
    decreases |parts|
  {
    if parts != [] {
      assert parts[0] in parts && forall p <- parts[1..] :: p in parts;
      EnterKeepsTidy(parts[0], rooted, from);
      OnePart(parts[0], parts[1..], rooted, from);
      assert [parts[0]] + parts[1..] == parts;
      NormPartsIsWalk(parts[1..], rooted, Enter(parts[0], rooted, from));
    }
  }

  lemma {:induction false} WalkUps(n: nat, from: Place)
    requires from.names == []
    ensures Walk(Ups(n), false, from) == Place(from.ups + n, [])
    decreases n
  {
    if n > 0 {
      WalkUps(n - 1, Place(from.ups + 1, []));
      UpsAreUps(n);
      UpsAreUps(n - 1);
      assert Ups(n)[1..] == Ups(n - 1);
      assert Ups(n)[0] == "..";
    }
  }

  lemma {:induction false} WalkNames(names: seq<string>, rooted: bool, from: Place)
    requires forall name <- names :: Proper(name)
    ensures Walk(names, rooted, from) == Place(from.ups, from.names + names)
  {
    if names == [] {
      assert from.names + names == from.names;
    } else {
      assert names[0] in names;
      WalkNames(names[1..], rooted, Enter(names[0], rooted, from));
      assert from.names + [names[0]] + names[1..] == from.names + names;
    }
  }

  lemma {:induction false} WalkConcat(a: seq<string>, b: seq<string>, rooted: bool, from: Place)
    ensures Walk(a + b, rooted, from) == Walk(b, rooted, Walk(a, rooted, from))
    decreases |a|
  {
    if a == [] {
      assert a + b == b;
    } else {
      WalkConcat(a[1..], b, rooted, Enter(a[0], rooted, from));
      assert (a + b)[1..] == a[1..] + b;
    }
  }

  /** A tidy place is where its shortest route leads. */
  lemma WalkRoute(p: Place, rooted: bool)
    requires Tidy(p, rooted)
    ensures Walk(Route(p), rooted, Place(0, [])) == p
  {
    WalkConcat(Ups(p.ups), p.names, rooted, Place(0, []));
    if p.ups > 0 {
      WalkUps(p.ups, Place(0, []));
    }
    WalkNames(p.names, rooted, Place(p.ups, []));
    assert [] + p.names == p.names;
  }

  /** Where a path leads, from the start or from the root. */
  function Meaning(path: string): Place { Walk(Split(path), Rooted(path), Place(0, [])) }

  lemma NormPathIsRoute(path: string)
    ensures Tidy(Meaning(path), Rooted(path))
    ensures NormPath(path) == var normal := LeadingSlashes(path) + Join(Route(Meaning(path)));
                              if normal == "" then "." else normal
  {
    SplitParts(path);
    assert Route(Place(0, [])) == [];
    NormPartsIsWalk(Split(path), Rooted(path), Place(0, []));
  }

  lemma RouteParts(p: Place, rooted: bool)
    requires Tidy(p, rooted)
    ensures forall part <- Route(p) :: NoSlash(part) && part != "" && part != "."
    ensures Route(p) != [] ==> Join(Route(p)) != "" && !Rooted(Join(Route(p)))
  {
    UpsAreUps(p.ups);
    var route := Route(p);
    assert forall part <- route :: part in Ups(p.ups) || part in p.names;
    if route != [] {
      assert route[0] in route;
      assert Join(route)[0] == route[0][0];
    }
  }

  lemma SplitSlashes(rest: string, route: seq<string>)
    requires Split(rest) == route
    ensures Split("/" + rest) == [""] + route && Split("//" + rest) == ["", ""] + route
  {
    SplitPrefix("", rest);
    SplitPrefix("", "/" + rest);
    assert "" + "/" + rest == "/" + rest;
    assert "" + "/" + ("/" + rest) == "//" + rest;
    Assoc([""], [""], route);
    assert [""] + [""] == ["", ""];
  }

  /** Splitting a normalised path gives the slashes and the route back. */
  lemma SplitNormal(slashes: string, p: Place)
    requires slashes in ["", "/", "//"] && Tidy(p, slashes != "") && Route(p) != []
    ensures Split(slashes + Join(Route(p))) == (if slashes == "" then [] else if slashes == "/" then [""] else ["", ""]) + Route(p)
  {
    var route := Route(p);
    RouteParts(p, slashes != "");
    JoinSplits(route);
    SplitSlashes(Join(route), route);
    assert "" + Join(route) == Join(route) && [] + route == route;
  }

  /** The path to a tidy place means that place, whatever slashes come first. */
  lemma NormalMeansPlace(slashes: string, p: Place)
    requires slashes in ["", "/", "//"] && Tidy(p, slashes != "") && Route(p) != []
    ensures var path := slashes + Join(Route(p));
            Meaning(path) == p && LeadingSlashes(path) == slashes && Rooted(path) == (slashes != "")
  {
    var route := Route(p);
    var path := slashes + Join(route);
    RouteParts(p, slashes != "");
    SplitNormal(slashes, p);
    var head := if slashes == "" then [] else if slashes == "/" then [""] else ["", ""];
    assert slashes == "" ==> path == Join(route);
    WalkConcat(head, route, slashes != "", Place(0, []));
    assert Walk(head, slashes != "", Place(0, [])) == Place(0, []) by {
      assert slashes == "//" ==> head[1..] == [""];
      assert head != [] ==> [""][1..] == [];
      assert Walk([], slashes != "", Place(0, [])) == Place(0, []);
      assert Walk([""], slashes != "", Place(0, [])) == Place(0, []);
    }
    WalkRoute(p, slashes != "");
  }

  /** Normalisation changes neither where a path leads nor an already normal path. */
  lemma NormalisationKeepsMeaning(path: string)
    ensures Meaning(NormPath(path)) == Meaning(path)
    ensures NormPath(NormPath(path)) == NormPath(path)
  {
    NormPathIsRoute(path);
    var p, slashes := Meaning(path), LeadingSlashes(path);
    if Route(p) == [] {
      assert slashes + Join(Route(p)) == slashes;
      UpsAreUps(p.ups);
      assert p == Place(0, []);
      ShortPath(NormPath(path));
    } else {
      RouteParts(p, Rooted(path));
      NormalMeansPlace(slashes, p);
      NormPathIsRoute(NormPath(path));
    }
  }

  lemma ShortSplits()
    ensures Split(".") == ["."] && Split("/") == ["", ""] && Split("//") == ["", "", ""]
  {
    SplitPrefix(".", "");
    SplitPrefix("", "");
    SplitPrefix("", "/");
    assert "" + "/" + "" == "/" && "" + "/" + "/" == "//";
    assert [""] + ["", ""] == ["", "", ""] && [""] + [""] == ["", ""];
  }

  /** Parts that are empty or a dot lead nowhere. */
  lemma {:induction false} WalkNowhere(parts: seq<string>, rooted: bool, from: Place)
    requires forall part <- parts :: part == "" || part == "."
    ensures Walk(parts, rooted, from) == from
  {
    if parts != [] {
      assert parts[0] in parts;
      forall part | part in parts[1..]
        ensures part == "" || part == "."
      {
        assert part in parts;
      }
      WalkNowhere(parts[1..], rooted, from);
    }
  }

  lemma ShortPath(path: string)
    requires path in [".", "/", "//"]
    ensures Meaning(path) == Place(0, []) && NormPath(path) == path
  {
    ShortSplits();
    WalkNowhere(Split(path), Rooted(path), Place(0, []));
    NormPathIsRoute(path);
    assert Route(Place(0, [])) == [];
    assert LeadingSlashes(path) + "" == LeadingSlashes(path);
  }

  // ----- Which uploads are accepted -----

  /** Where the upload lands: the walk along the file name, started inside `uploads`. */
  function Landing(filename: string): Place { Walk(Split(filename), false, Place(0, ["uploads"])) }

  ghost predicate InsideUploadFolders(p: Place) {
    p.ups == 0 && |p.names| >= 2 && p.names[0] in ["uploads", "student_uploads"]
  }

  lemma LandingIsMeaning(filename: string)
    requires !Rooted(filename)
    ensures PathJoin(UPLOAD_FOLDER, filename) == UPLOAD_FOLDER + "/" + filename
    ensures Meaning(PathJoin(UPLOAD_FOLDER, filename)) == Landing(filename)
    ensures Tidy(Landing(filename), false)
  {
    var path := PathJoin(UPLOAD_FOLDER, filename);
    assert path == UPLOAD_FOLDER + "/" + filename;
    assert path[0] == 'u';
    SplitPrefix(UPLOAD_FOLDER, filename);
    WalkConcat([UPLOAD_FOLDER], Split(filename), false, Place(0, []));
    assert Enter(UPLOAD_FOLDER, false, Place(0, [])) == Place(0, [UPLOAD_FOLDER]);
    assert [UPLOAD_FOLDER][1..] == [];
    NormPathIsRoute(path);
  }

  lemma RootedIsRejected(lab: string, filename: string)
    requires Rooted(filename)
    ensures ResolveUploadTarget(lab, filename) == None
  {
    var path := NormPath(filename);
    assert path[0] == '/';
  }

  /** What the guard of `resolve_upload_target` sees of the shortest route. */
  lemma GuardOnRoute(p: Place)
    requires Tidy(p, false) && Route(p) != []
    ensures Split(Join(Route(p))) == Route(p)
    ensures InsideUploadFolders(p) <==> Route(p)[0] in [UPLOAD_FOLDER, INDEXED_FOLDER] && Join(Route(p)[1..]) != ""
    ensures InsideUploadFolders(p) ==> Route(p) == p.names
  {
    var route := Route(p);
    RouteParts(p, false);
    JoinSplits(route);
    UpsAreUps(p.ups);
    if p.ups > 0 {
      assert route[0] == "..";
    } else {
      assert route == p.names;
      if |route| > 1 {
        assert route[1] in route;
        assert route[1..][0] == route[1];
      } else {
        assert route[1..] == [];
      }
    }
  }

  lemma RelativeIsAccepted(lab: string, filename: string)
    requires !Rooted(filename)
    ensures ResolveUploadTarget(lab, filename).Some? <==> InsideUploadFolders(Landing(filename))
    ensures ResolveUploadTarget(lab, filename).Some? ==>
              ResolveUploadTarget(lab, filename).value
              == UploadTarget(lab + "/" + Join(Landing(filename).names), Landing(filename).names[0] == "student_uploads")
  {
    var path, p := PathJoin(UPLOAD_FOLDER, filename), Landing(filename);
    LandingIsMeaning(filename);
    NormPathIsRoute(path);
    assert LeadingSlashes(path) + Join(Route(p)) == Join(Route(p));
    PartitionIsFirstPart(NormPath(path));
    if Route(p) == [] {
      ShortSplits();
    } else {
      RouteParts(p, false);
      GuardOnRoute(p);
    }
  }

  /**
   An upload is accepted exactly if its name is relative and the walk from `uploads` ends strictly
   inside one of the two folders; the key then is the lab and the shortest route there.
  */
  lemma AcceptedExactlyInside(lab: string, filename: string)
    ensures ResolveUploadTarget(lab, filename).Some? <==> !Rooted(filename) && InsideUploadFolders(Landing(filename))
    ensures ResolveUploadTarget(lab, filename).Some? ==>
              ResolveUploadTarget(lab, filename).value
              == UploadTarget(lab + "/" + Join(Landing(filename).names), Landing(filename).names[0] == "student_uploads")
  {
    if Rooted(filename) {
      RootedIsRejected(lab, filename);
    } else {
      RelativeIsAccepted(lab, filename);
    }
  }

  /** Every accepted key is `lab/folder/...` with proper directory names only. */
  lemma AcceptedKeysAreProper(lab: string, filename: string)
    requires NoSlash(lab) && ResolveUploadTarget(lab, filename).Some?
    ensures var parts := Split(ResolveUploadTarget(lab, filename).value.key);
            && |parts| >= 3 && parts[0] == lab && parts[1] in ["uploads", "student_uploads"]
            && forall i :: 1 <= i < |parts| ==> Proper(parts[i])
  {
    AcceptedExactlyInside(lab, filename);
    LandingIsMeaning(filename);
    var names := Landing(filename).names;
    JoinSplits(names);
    SplitPrefix(lab, Join(names));
    var parts := [lab] + names;
    assert forall i :: 1 <= i < |parts| ==> parts[i] in names;
  }
}

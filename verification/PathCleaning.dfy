/**
 The payload paths of the atomic writer: what `validatePath` accepts, what `filepath.Clean` makes of it,
 and which subpaths the ancestor loop of `pathsToRemove` collects.

 A Go string is a sequence of bytes; every `char` here stands for one byte.
 */
module PathCleaning {

  const MAX_FILE_NAME_LENGTH := 255
  const MAX_PATH_LENGTH := 4096

  /** A cleaned relative path, as the list of its components. `"."` has none. */
  type Path = seq<string>

  // ----- Splitting and joining at '/' -----

  function Split(s: string): (items: seq<string>)
    ensures |items| > 0
    ensures forall i :: 0 <= i < |items| ==> '/' !in items[i]
    ensures Join(items) == s
  {
    if s == "" then [""]
    else
      var rest := Split(s[1..]);
      if s[0] == '/' then [""] + rest else [[s[0]] + rest[0]] + rest[1..]
  }

  function Join(items: seq<string>): string
  {
    if |items| == 0 then ""
    else if |items| == 1 then items[0]
    else items[0] + "/" + Join(items[1..])
  }

  lemma {:induction false} SplitConcat(a: string, b: string)
    requires '/' !in a
    ensures Split(a + "/" + b) == [a] + Split(b)
    decreases |a|
  {
    var s := a + "/" + b;
    if a == "" {
      assert s[1..] == b;
    } else {
      assert s[1..] == a[1..] + "/" + b;
      SplitConcat(a[1..], b);
      assert [s[0]] + a[1..] == a;
    }
  }

  lemma {:induction false} SplitPlain(a: string)
    requires '/' !in a
    ensures Split(a) == [a]
    decreases |a|
  {
    if a == "" {
    } else {
      SplitPlain(a[1..]);
      assert [a[0]] + a[1..] == a;
    }
  }

  /** Joining is injective on components that contain no separator. */
  lemma {:induction false} SplitJoin(items: seq<string>)
    requires |items| > 0
    requires forall i :: 0 <= i < |items| ==> '/' !in items[i]
    ensures Split(Join(items)) == items
    decreases |items|
  {
    if |items| == 1 {
      SplitPlain(items[0]);
    } else {
      SplitConcat(items[0], Join(items[1..]));
      SplitJoin(items[1..]);
    }
  }

  lemma {:induction false} JoinSnoc(items: seq<string>, last: string)
    requires |items| > 0
    ensures Join(items + [last]) == Join(items) + "/" + last
    decreases |items|
  {
    if |items| == 1 {
    } else {
      assert (items + [last])[1..] == items[1..] + [last];
      JoinSnoc(items[1..], last);
    }
  }

  // ----- validatePath -----

  ghost predicate Accepted(path: string)
  {
    var items := Split(path);
    && path != ""
    && path[0] != '/'
    && |path| <= MAX_PATH_LENGTH
    && (forall i :: 0 <= i < |items| ==> items[i] != ".." && |items[i]| <= MAX_FILE_NAME_LENGTH)
    && !(".." <= items[0] && |items[0]| > 2)
  }

  datatype PathError = Valid | Empty | Absolute | PathTooLong | DotDot | NameTooLong | ReservedPrefix

  ghost predicate SomeLonger(items: seq<string>, n: nat)
  {
    exists i :: 0 <= i < |items| && |items[i]| > n
  }

  /** The checks of `validatePath`, in its order. */
  method ValidatePath(path: string) returns (err: PathError)
    ensures err == Valid <==> Accepted(path)
    ensures err == Valid ==> 0 < |path| <= 4096 && !SomeLonger(Split(path), 255)
    ensures err == Empty <==> path == ""
    ensures err == Absolute <==> path != "" && path[0] == '/'
    ensures err == PathTooLong <==> |path| > 4096 && path[0] != '/'
    ensures err == NameTooLong ==> SomeLonger(Split(path), 255)
    ensures err == DotDot ==> ".." in Split(path)
    ensures err == ReservedPrefix ==> ".." <= path && path[0] != '/' && ".." !in Split(path)
  {
    if path == "" {
      return Empty;
    }
    if path[0] == '/' {
      return Absolute;
    }
    if |path| > MAX_PATH_LENGTH {
      return PathTooLong;
    }
    var items := Split(path);
    var i := 0;
    while i < |items|
      invariant 0 <= i <= |items|
      invariant forall j :: 0 <= j < i ==> items[j] != ".." && |items[j]| <= MAX_FILE_NAME_LENGTH
    {
      if items[i] == ".." {
        return DotDot;
      }
      if |items[i]| > MAX_FILE_NAME_LENGTH {
        return NameTooLong;
      }
      i := i + 1;
    }
    if ".." <= items[0] && |items[0]| > 2 {
      FirstItemIsPrefix(path);
      return ReservedPrefix;
    }
    return Valid;
  }

  lemma FirstItemIsPrefix(path: string)
    ensures Split(path)[0] <= path
  {
  }

  // ----- filepath.Clean -----

  /** The item-by-item work of `filepath.Clean`: drop empty items and ".", let ".." cancel the item before it. */
  function CleanItems(items: seq<string>, rooted: bool, acc: Path): Path
    decreases |items|
  {
    if items == [] then acc
    else
      var item, rest := items[0], items[1..];
      if item == "" || item == "." then CleanItems(rest, rooted, acc)
      else if item != ".." then CleanItems(rest, rooted, acc + [item])
      else if acc != [] && acc[|acc| - 1] != ".." then CleanItems(rest, rooted, acc[..|acc| - 1])
      else if rooted then CleanItems(rest, rooted, acc)
      else CleanItems(rest, rooted, acc + [".."])
  }

  function Clean(path: string): string
  {
    var rooted := path != "" && path[0] == '/';
    var items := CleanItems(Split(path), rooted, []);
    if rooted then "/" + Join(items)
    else if items == [] then "."
    else Join(items)
  }

  /** The components of a relative path that has no ".." item. */
  function Plain(items: seq<string>): (p: Path)
    ensures forall i :: 0 <= i < |p| ==> p[i] != "" && p[i] != "." && p[i] in items
  {
    if items == [] then []
    else if items[0] == "" || items[0] == "." then Plain(items[1..])
    else [items[0]] + Plain(items[1..])
  }

  function Components(path: string): Path
  {
    Plain(Split(path))
  }

  lemma {:induction false} CleanItemsPlain(items: seq<string>, rooted: bool, acc: Path)
    requires ".." !in items
    ensures CleanItems(items, rooted, acc) == acc + Plain(items)
    decreases |items|
  {
    if items == [] {
    } else {
      var item, rest := items[0], items[1..];
      if item == "" || item == "." {
        CleanItemsPlain(rest, rooted, acc);
      } else {
        CleanItemsPlain(rest, rooted, acc + [item]);
        assert acc + [item] + Plain(rest) == acc + ([item] + Plain(rest));
      }
    }
  }

  /** A path whose first component starts with "..", the names the writer reserves for itself. */
  predicate Reserved(p: Path)
  {
    p != [] && ".." <= p[0]
  }

  /** What `Clean` does to an accepted path: it joins the components, and no component is "..". */
  lemma CleanAccepted(path: string)
    requires Accepted(path)
    ensures Clean(path) == if Components(path) == [] then "." else Join(Components(path))
    ensures forall i :: 0 <= i < |Components(path)| ==>
              Components(path)[i] !in {"", ".", ".."} && '/' !in Components(path)[i]
  {
    CleanItemsPlain(Split(path), false, []);
    assert [] + Components(path) == Components(path);
  }

  lemma {:induction false} PlainIsShorter(items: seq<string>)
    ensures Plain(items) != [] ==> |Join(Plain(items))| <= |Join(items)|
    decreases |items|
  {
    if items == [] {
    } else {
      PlainIsShorter(items[1..]);
      if |items| > 1 && Plain(items[1..]) != [] {
        assert |Join(items)| == |items[0]| + 1 + |Join(items[1..])|;
        if !(items[0] == "" || items[0] == ".") {
          assert Plain(items)[1..] == Plain(items[1..]);
        }
      } else if |items| > 1 && Plain(items) != [] {
        assert Plain(items) == [items[0]];
      }
    }
  }

  lemma {:induction false} PlainFixpoint(items: seq<string>)
    requires forall i :: 0 <= i < |items| ==> items[i] != "" && items[i] != "."
    ensures Plain(items) == items
    decreases |items|
  {
    if items == [] {
    } else {
      PlainFixpoint(items[1..]);
      assert [items[0]] + items[1..] == items;
    }
  }

  lemma {:induction false} CleanSplits(path: string)
    requires Accepted(path)
    ensures Split(Clean(path)) == if Components(path) == [] then ["."] else Components(path)
    ensures Components(Clean(path)) == Components(path)
    ensures Clean(path) != "" && Clean(path)[0] != '/'
  {
    CleanAccepted(path);
    var p := Components(path);
    if p == [] {
      SplitPlain(".");
      assert Plain(["."]) == [];
    } else {
      SplitJoin(p);
      PlainFixpoint(p);
      FirstItemIsPrefix(Clean(path));
      assert p[0] != "" && Clean(path)[0] == p[0][0];
    }
  }

  /** Cleaning an accepted path is safe: never longer, never absolute, no ".." item; and it is a fixpoint. */
  lemma CleanIsSafeAndStable(path: string)
    requires Accepted(path)
    ensures |Clean(path)| <= |path|
    ensures Clean(path) != "" && Clean(path)[0] != '/' && ".." !in Split(Clean(path))
    ensures Clean(Clean(path)) == Clean(path)
  {
    CleanSplits(path);
    CleanAccepted(path);
    PlainIsShorter(Split(path));
    CleanItemsPlain(Split(Clean(path)), false, []);
    assert [] + Components(path) == Components(path);
  }

  /**
   The check that paths do not begin with ".." looks at the raw first item. A caller can tell beforehand whether
   it also protects the cleaned path: exactly when the first component is not reserved.
   */
  lemma CleanedIsAcceptedIff(path: string)
    requires Accepted(path)
    ensures Accepted(Clean(path)) <==> !Reserved(Components(path))
    ensures !Reserved(Components(path)) <==> !(".." <= Clean(path))
    ensures Split(path)[0] != "." ==> !Reserved(Components(path))
  {
    CleanSplits(path);
    CleanAccepted(path);
    CleanIsSafeAndStable(path);
    var p := Components(path);
    if p != [] {
      FirstItemIsPrefix(Clean(path));
      PrefixOfJoin(p);
    }
    if Split(path)[0] != "." {
      FirstItemIsPrefix(path);
      FirstItemNonEmpty(path);
      assert p[0] == Split(path)[0];
    }
  }

  lemma FirstItemNonEmpty(path: string)
    requires path != "" && path[0] != '/'
    ensures Split(path)[0] != ""
  {
  }

  /** A component is a whole prefix item, so two dots at the front of the joined path are at the front of it. */
  lemma PrefixOfJoin(p: Path)
    requires p != [] && p[0] !in {"", ".", ".."} && '/' !in p[0]
    ensures ".." <= p[0] <==> ".." <= Join(p)
  {
    assert p[0] <= Join(p);
    if |p[0]| == 1 && |p| > 1 {
      assert Join(p)[1] == '/';
    } else if |p[0]| >= 2 {
      assert Join(p)[0] == p[0][0] && Join(p)[1] == p[0][1];
    }
  }

  lemma DottedName(name: string)
    requires '/' !in name && ".." <= name && 2 < |name| <= MAX_FILE_NAME_LENGTH
    ensures Accepted("." + "/" + name) && Clean("." + "/" + name) == name && !Accepted(name)
    ensures Components("." + "/" + name) == [name]
  {
    var path := "." + "/" + name;
    SplitConcat(".", name);
    SplitPlain(name);
    assert [".", name][1..] == [name];
    PlainFixpoint([name]);
    assert Components(path) == [name];
    CleanAccepted(path);
  }

  /** The gap is real: "./..data" is accepted, and cleans to the writer's own data link. */
  lemma ReservedNameSlipsThrough()
    ensures Accepted("./..data")
    ensures Clean("./..data") == "..data" && Components("./..data") == ["..data"] && !Accepted("..data")
  {
    DottedName("..data");
    assert "." + "/" + "..data" == "./..data";
  }

  lemma PlainNameIsClean(name: string)
    requires name != "" && name != "." && name != ".." && '/' !in name
    requires !(".." <= name) && |name| <= MAX_FILE_NAME_LENGTH
    ensures Accepted(name) && Components(name) == [name]
  {
    SplitPlain(name);
    PlainFixpoint([name]);
  }

  // ----- The ancestor loop of pathsToRemove -----

  /** The directory part of filepath.Split: everything up to and including the last separator. */
  function DirPart(s: string): (dir: string)
    ensures |dir| <= |s| && dir <= s
  {
    if s == "" || s[|s| - 1] == '/' then s else DirPart(s[..|s| - 1])
  }

  lemma {:induction false} DirPartConcat(a: string, b: string)
    requires '/' !in b
    ensures DirPart(a + "/" + b) == a + "/"
    decreases |b|
  {
    var s := a + "/" + b;
    if b == "" {
      assert s == a + "/";
    } else {
      assert s[|s| - 1] == b[|b| - 1];
      assert s[..|s| - 1] == a + "/" + b[..|b| - 1];
      DirPartConcat(a, b[..|b| - 1]);
    }
  }

  lemma {:induction false} DirPartPlain(b: string)
    requires '/' !in b
    ensures DirPart(b) == ""
    decreases |b|
  {
    if b == "" {
    } else {
      DirPartPlain(b[..|b| - 1]);
    }
  }

  function TrimSlash(s: string): string
  {
    if s != "" && s[|s| - 1] == '/' then s[..|s| - 1] else s
  }

  lemma JoinNonEmpty(items: Path)
    requires items != [] && items[0] != ""
    ensures Join(items) != ""
  {
  }

  /** One step up: the parent of `Join(items)`. */
  lemma ParentOfJoin(items: Path)
    requires items != [] && items[|items| - 1] != ""
    requires forall i :: 0 <= i < |items| ==> '/' !in items[i]
    ensures TrimSlash(DirPart(Join(items))) == Join(items[..|items| - 1])
    ensures |TrimSlash(DirPart(Join(items)))| < |Join(items)|
  {
    var n := |items| - 1;
    if n == 0 {
      DirPartPlain(items[0]);
    } else {
      assert items[..n] + [items[n]] == items;
      JoinSnoc(items[..n], items[n]);
      DirPartConcat(Join(items[..n]), items[n]);
      var dir := Join(items[..n]) + "/";
      assert dir[..|dir| - 1] == Join(items[..n]);
    }
  }

  /**
   The loop that walks from a file up to the root of the payload. It ends on every path without empty items,
   and collects exactly the non-empty component prefixes.
   */
  method SubPaths(file: string) returns (paths: set<string>)
    requires "" !in Split(file)
    ensures paths == set k | 1 <= k <= |Split(file)| :: Join(Split(file)[..k])
  {
    var subPath := file;
    paths := {};
    ghost var items := Split(file);
    ghost var n := |items|;
    assert items[..n] == items;
    while subPath != ""
      invariant 0 <= n <= |items|
      invariant subPath == Join(items[..n])
      invariant paths == set k | n < k <= |items| :: Join(items[..k])
      decreases |subPath|
    {
      assert n > 0;
      paths := paths + {subPath};
      ParentOfJoin(items[..n]);
      assert items[..n][..n - 1] == items[..n - 1];
      subPath := TrimSlash(DirPart(subPath));
      n := n - 1;
    }
    if n > 0 {
      assert items[0] != "";
      JoinNonEmpty(items[..n]);
    }
  }
}

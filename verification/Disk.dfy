/**
 The target directory of the atomic writer as a value, what a reader sees through it, and the invariants that the
 writer keeps.
 */
module Disk {
  import opened Contents
  import opened PathCleaning

  // ----- Values -----

  datatype Node = Dir | File(data: Content)

  /** The inside of a directory, by the path relative to it. */
  type Tree = map<Path, Node>

  datatype Entry =
    | Link(target: Path)
    | Regular(data: Content)
    | Directory(tree: Tree)

  type Disk = map<string, Entry>

  const DATA := "..data"
  const DATA_TMP := "..data_tmp"

  predicate Hidden(name: string) { ".." <= name }

  /** The shape of the names that MkdirTemp makes from "..2006_01_02_15_04_05." */
  predicate IsTsName(name: string)
  {
    Hidden(name) && name != DATA && name != DATA_TMP && name != ".."
  }

  // ----- Path lookup, as the kernel does it -----

  datatype Found = Missing | NotDir | Loop | IsDir | IsFile(data: Content)

  /** The number of symbolic links a lookup follows before it gives up. */
  const MAX_LINKS := 40

  function LookupIn(tree: Tree, p: Path, k: nat): Found
    requires 1 <= k <= |p|
    decreases |p| - k
  {
    if p[..k] !in tree then Missing
    else match tree[p[..k]]
      case File(data) => if k == |p| then IsFile(data) else NotDir
      case Dir => if k == |p| then IsDir else LookupIn(tree, p, k + 1)
  }

  function LookupTree(tree: Tree, p: Path): Found
  {
    if p == [] then IsDir else LookupIn(tree, p, 1)
  }

  function Resolve(d: Disk, p: Path, links: nat): Found
    decreases links
  {
    if p == [] then IsDir
    else if p[0] !in d then Missing
    else match d[p[0]]
      case Link(target) => if links == 0 then Loop else Resolve(d, target + p[1..], links - 1)
      case Regular(data) => if |p| == 1 then IsFile(data) else NotDir
      case Directory(tree) => LookupTree(tree, p[1..])
  }

  function Lookup(d: Disk, p: Path): Found
  {
    Resolve(d, p, MAX_LINKS)
  }

  /** The reader's full view: under every path outside the reserved names there is exactly the file `m` has there. */
  ghost predicate ViewIs(d: Disk, m: map<Path, Content>)
  {
    forall p: Path :: p != [] && !Reserved(p) ==> ReadsAs(d, m, p)
  }

  ghost predicate ReadsAs(d: Disk, m: map<Path, Content>, p: Path)
  {
    if p in m then Lookup(d, p) == IsFile(m[p]) else !Lookup(d, p).IsFile?
  }

  // ----- Trees that hold a payload -----

  /** The non-empty prefixes of a path: the path itself and its ancestors. */
  function Prefixes(p: Path): (qs: set<Path>)
    ensures forall q :: q in qs <==> q != [] && q <= p
    decreases |p|
  {
    if p == [] then {}
    else
      var parent := p[..|p| - 1];
      assert forall q {:trigger q in Prefixes(parent)} :: q != [] && q <= p ==> q == p || q in Prefixes(parent);
      Prefixes(parent) + {p}
  }

  function Ancestors(p: Path): set<Path>
  {
    Prefixes(p) - {p}
  }

  /** The payload's paths and all their ancestors. */
  function Closure(m: map<Path, Content>): set<Path>
  {
    set k, q | k in m && q in Prefixes(k) :: q
  }

  /** No path is an ancestor of another one, and none is the directory itself. */
  ghost predicate AntiChain(m: map<Path, Content>)
  {
    [] !in m && forall p, q :: p in m && q in m && p <= q ==> p == q
  }

  /** The tree with exactly the files of `m` and their ancestor directories. */
  function TreeOf(m: map<Path, Content>): Tree
  {
    map q | q in Closure(m) :: if q in m then File(m[q]) else Dir
  }

  function Files(tree: Tree): map<Path, Content>
  {
    map p | p in tree && tree[p].File? :: tree[p].data
  }

  ghost predicate Closed(tree: Tree)
  {
    [] !in tree && forall p, q :: p in tree && q in Ancestors(p) ==> q in tree && tree[q].Dir?
  }

  ghost predicate HoldsFile(tree: Tree, p: Path)
  {
    exists q :: q in tree && tree[q].File? && p <= q
  }

  ghost predicate NoEmptyDirs(tree: Tree)
  {
    forall p :: p in tree && tree[p].Dir? ==> HoldsFile(tree, p)
  }

  ghost predicate Unreserved(m: map<Path, Content>)
  {
    forall p :: p in m ==> !Reserved(p)
  }

  /** What a complete payload directory looks like. */
  ghost predicate PayloadTree(tree: Tree)
  {
    Closed(tree) && NoEmptyDirs(tree)
  }

  /** The part of a payload that a reader can be shown: all but the reserved names. */
  function Offered(m: map<Path, Content>): map<Path, Content>
  {
    map p | p in m && p != [] && !Reserved(p) :: m[p]
  }

  /** The names that the writer makes visible for a payload: the first component of every path. */
  function Heads(ps: set<Path>): set<string>
  {
    set p | p in ps && p != [] :: p[0]
  }

  lemma {:induction false} LookupInClosed(tree: Tree, p: Path, k: nat)
    requires Closed(tree) && 1 <= k <= |p|
    ensures p in tree && tree[p].File? <==> LookupIn(tree, p, k).IsFile?
    ensures p in tree && tree[p].File? ==> LookupIn(tree, p, k) == IsFile(tree[p].data)
    ensures p in tree && tree[p].Dir? <==> LookupIn(tree, p, k) == IsDir
    decreases |p| - k
  {
    if k == |p| {
      assert p[..k] == p;
    } else {
      assert p[..k] in Ancestors(p);
      LookupInClosed(tree, p, k + 1);
    }
  }

  /** In a closed tree, a path leads to a file exactly when it is a key that holds one. */
  lemma LookupClosed(tree: Tree, p: Path)
    requires Closed(tree) && p != []
    ensures LookupTree(tree, p).IsFile? <==> p in Files(tree)
    ensures p in Files(tree) ==> LookupTree(tree, p) == IsFile(Files(tree)[p])
    ensures LookupTree(tree, p) == IsDir <==> p in tree && tree[p].Dir?
  {
    LookupInClosed(tree, p, 1);
  }

  /** A payload path at or below `q`. */
  lemma PathBelow(m: map<Path, Content>, q: Path) returns (k: Path)
    requires q in Closure(m)
    ensures k in m && q <= k && q != []
  {
    k :| k in m && q in Prefixes(k);
  }

  lemma PrefixInClosure(m: map<Path, Content>, q: Path, k: Path)
    requires k in m && q <= k && q != []
    ensures q in Closure(m)
  {
    assert q in Prefixes(k);
  }

  lemma TreeOfFiles(m: map<Path, Content>)
    requires [] !in m
    ensures Files(TreeOf(m)) == m
  {
    forall p | p in m ensures p in Closure(m) {
      PrefixInClosure(m, p, p);
    }
  }

  lemma TreeOfClosed(m: map<Path, Content>)
    requires AntiChain(m)
    ensures Closed(TreeOf(m))
  {
    var tree := TreeOf(m);
    forall p, q | p in tree && q in Ancestors(p) ensures q in tree && tree[q].Dir? {
      var k := PathBelow(m, p);
      PrefixInClosure(m, q, k);
      assert q <= k && q != k;
    }
    if [] in tree {
      var _ := PathBelow(m, []);
    }
  }

  lemma TreeOfNoEmptyDirs(m: map<Path, Content>)
    requires [] !in m
    ensures NoEmptyDirs(TreeOf(m))
  {
    var tree := TreeOf(m);
    forall p | p in tree && tree[p].Dir? ensures HoldsFile(tree, p) {
      var k := PathBelow(m, p);
      PrefixInClosure(m, k, k);
      assert tree[k].File?;
    }
  }

  lemma TreeOfHeads(m: map<Path, Content>)
    requires [] !in m
    ensures Heads(TreeOf(m).Keys) == Heads(m.Keys)
  {
    var tree := TreeOf(m);
    forall n | n in Heads(tree.Keys) ensures n in Heads(m.Keys) {
      var p :| p in tree && p != [] && p[0] == n;
      var k := PathBelow(m, p);
      assert k[0] == n;
    }
    forall n | n in Heads(m.Keys) ensures n in Heads(tree.Keys) {
      var p :| p in m && p != [] && p[0] == n;
      PrefixInClosure(m, p, p);
    }
  }

  /** The tree of an antichain is a payload tree with exactly those files. */
  lemma TreeOfIsPayloadTree(m: map<Path, Content>)
    requires AntiChain(m)
    ensures PayloadTree(TreeOf(m)) && Files(TreeOf(m)) == m && Heads(TreeOf(m).Keys) == Heads(m.Keys)
  {
    TreeOfClosed(m);
    TreeOfNoEmptyDirs(m);
    TreeOfFiles(m);
    TreeOfHeads(m);
  }

  lemma HeadsOfFiles(tree: Tree)
    requires PayloadTree(tree)
    ensures Heads(tree.Keys) == Heads(Files(tree).Keys)
  {
    forall n | n in Heads(tree.Keys) ensures n in Heads(Files(tree).Keys) {
      var p :| p in tree && p != [] && p[0] == n;
      if tree[p].Dir? {
        var q :| q in tree && tree[q].File? && p <= q;
        assert q[0] == n && q in Files(tree);
      } else {
        assert p in Files(tree);
      }
    }
  }

  // ----- The invariant -----

  /** The name of the live timestamp directory. */
  predicate HasLive(d: Disk)
  {
    DATA in d && d[DATA].Link? && |d[DATA].target| == 1
    && d[DATA].target[0] in d && d[d[DATA].target[0]].Directory?
  }

  function LiveName(d: Disk): string
    requires HasLive(d)
  {
    d[DATA].target[0]
  }

  function LiveTree(d: Disk): Tree
  {
    if HasLive(d) then d[LiveName(d)].tree else map[]
  }

  function LiveFiles(d: Disk): map<Path, Content>
  {
    Files(LiveTree(d))
  }

  ghost predicate LinksOk(d: Disk)
  {
    forall n :: n in d && !Hidden(n) ==> d[n] == Link([DATA, n])
  }

  /** The data link that step 7 makes for a payload file "..data" in a new directory: a link to itself. */
  const SELF_LINK := Link([DATA, DATA])

  /** The data link names an existing timestamp directory, unless it is absent or a link to itself. */
  ghost predicate DataOk(d: Disk)
  {
    DATA in d && d[DATA] != SELF_LINK ==> HasLive(d) && IsTsName(LiveName(d))
  }

  /**
   What every state of every call satisfies, whatever the payload and whatever fails: every visible entry is a link
   into the data directory under its own name, and the data link leads to a complete payload or nowhere.
   */
  ghost predicate Served(d: Disk)
  {
    LinksOk(d) && DataOk(d) && PayloadTree(LiveTree(d))
  }

  /** Every top name of the live tree that a reader may ask for has its link. */
  ghost predicate LiveLinked(d: Disk)
  {
    forall n :: n in Heads(LiveTree(d).Keys) && !Hidden(n) ==> n in d
  }

  /**
   What the writer maintains for payloads without reserved names as long as it ignores no failed lookup: every live
   file has its link, and the data link is absent or leads to a payload without reserved names.
   */
  ghost predicate Inv(d: Disk)
  {
    && Served(d)
    && LiveLinked(d)
    && (DATA in d ==> HasLive(d))
    && Unreserved(LiveFiles(d))
  }

  /** The invariant holds and the live tree holds exactly the files of `m`. */
  ghost predicate Holds(d: Disk, m: map<Path, Content>)
  {
    Inv(d) && LiveFiles(d) == m
  }

  function VisibleNames(d: Disk): set<string>
  {
    set n | n in d && !Hidden(n)
  }

  function TsDirs(d: Disk): set<string>
  {
    set n | n in d && IsTsName(n) && d[n].Directory?
  }

  /** The files a reader sees: those of the live tree whose top name is not reserved and has a link. */
  function Shown(d: Disk): map<Path, Content>
  {
    map p | p in LiveFiles(d) && p != [] && !Reserved(p) && p[0] in d :: LiveFiles(d)[p]
  }

  /** A link to itself leads nowhere. */
  lemma {:induction false} SelfLinkLoops(d: Disk, q: Path, links: nat)
    requires DATA in d && d[DATA] == SELF_LINK
    ensures Resolve(d, [DATA] + q, links) == Loop
    decreases links
  {
    var p := [DATA] + q;
    assert p[1..] == q;
    if links > 0 {
      assert [DATA, DATA] + q == [DATA] + ([DATA] + q);
      SelfLinkLoops(d, [DATA] + q, links - 1);
    }
  }

  lemma ResolveThroughData(d: Disk, p: Path)
    requires LinksOk(d) && DataOk(d) && p != [] && !Reserved(p)
    ensures p[0] in d && HasLive(d) ==> Lookup(d, p) == LookupTree(LiveTree(d), p)
    ensures !(p[0] in d && HasLive(d)) ==> !Lookup(d, p).IsFile?
  {
    if p[0] in d {
      assert d[p[0]] == Link([DATA, p[0]]);
      var p1 := [DATA, p[0]] + p[1..];
      assert Lookup(d, p) == Resolve(d, p1, MAX_LINKS - 1);
      assert p1 == [DATA] + p && p1[1..] == p;
      if HasLive(d) {
        var p2 := [LiveName(d)] + p;
        assert d[DATA].target + p1[1..] == p2;
        assert Resolve(d, p1, MAX_LINKS - 1) == Resolve(d, p2, MAX_LINKS - 2);
        assert p2[1..] == p;
      } else if DATA in d {
        SelfLinkLoops(d, p, MAX_LINKS - 1);
      }
    }
  }

  /** The kernel's path lookup shows a reader exactly the files of `Shown`. */
  lemma ShownIsView(d: Disk)
    requires Served(d)
    ensures ViewIs(d, Shown(d))
  {
    forall p: Path | p != [] && !Reserved(p) ensures ReadsAs(d, Shown(d), p) {
      ResolveThroughData(d, p);
      LookupClosed(LiveTree(d), p);
    }
  }

  /** A view determines the files: two maps that describe the same view agree outside the reserved names. */
  lemma ViewIsUnique(d: Disk, m1: map<Path, Content>, m2: map<Path, Content>)
    requires ViewIs(d, m1) && ViewIs(d, m2)
    ensures Offered(m1) == Offered(m2)
  {
    forall p | p in Offered(m1) ensures p in Offered(m2) && m1[p] == m2[p] {
      assert ReadsAs(d, m1, p) && ReadsAs(d, m2, p);
    }
    forall p | p in Offered(m2) ensures p in Offered(m1) {
      assert ReadsAs(d, m1, p) && ReadsAs(d, m2, p);
    }
  }

  /** So the view is `m` exactly if what is shown is what `m` has outside the reserved names. */
  lemma ViewIff(d: Disk, m: map<Path, Content>)
    requires Served(d)
    ensures ViewIs(d, m) <==> Shown(d) == Offered(m)
  {
    ShownIsView(d);
    assert Offered(Shown(d)) == Shown(d);
    if ViewIs(d, m) {
      ViewIsUnique(d, m, Shown(d));
    }
    if Shown(d) == Offered(m) {
      forall p: Path | p != [] && !Reserved(p) ensures ReadsAs(d, m, p) {
        assert ReadsAs(d, Shown(d), p);
        assert p in m <==> p in Offered(m);
      }
    }
  }

  /** The reader sees all of the live files exactly if no link is missing. */
  lemma ViewNeedsEveryLink(d: Disk)
    requires Served(d)
    ensures ViewIs(d, LiveFiles(d)) <==> LiveLinked(d)
  {
    var files := LiveFiles(d);
    ViewIff(d, files);
    HeadsOfFiles(LiveTree(d));
    if LiveLinked(d) {
      forall p | p in Offered(files) ensures p in Shown(d) {
        assert p[0] in Heads(files.Keys);
      }
      assert Shown(d) == Offered(files);
    } else {
      var n :| n in Heads(files.Keys) && !Hidden(n) && n !in d;
      var p :| p in files && p != [] && p[0] == n;
      assert p in Offered(files) && p !in Shown(d);
    }
  }

  /** Under the invariant, the reader sees exactly the files of the live tree. */
  lemma InvView(d: Disk)
    requires Inv(d)
    ensures ViewIs(d, LiveFiles(d))
  {
    ViewNeedsEveryLink(d);
  }

  // ----- The skip decision -----

  /** No payload file differs from the live one, and no live path lies outside the ancestor closure. */
  ghost predicate NothingToWrite(tree: Tree, m: map<Path, Content>)
  {
    && (forall p {:trigger LookupTree(tree, p)} :: p in m ==> LookupTree(tree, p) == IsFile(m[p]))
    && (forall p {:trigger p in Closure(m)} :: p in tree ==> p in Closure(m))
  }

  lemma UnchangedIsLive(tree: Tree, m: map<Path, Content>, p: Path)
    requires PayloadTree(tree) && p in m && LookupTree(tree, p) == IsFile(m[p])
    ensures p in Files(tree) && Files(tree)[p] == m[p]
  {
    LookupClosed(tree, p);
  }

  lemma LiveIsPayload(tree: Tree, m: map<Path, Content>, p: Path)
    requires Closed(tree) && p in Closure(m) && p in Files(tree)
    requires forall k {:trigger LookupTree(tree, k)} :: k in m ==> LookupTree(tree, k) == IsFile(m[k])
    ensures p in m
  {
    var k := PathBelow(m, p);
    assert LookupTree(tree, k) == IsFile(m[k]);
    LookupClosed(tree, k);
    assert k in tree;
    assert p in Ancestors(k) || p == k;
  }

  lemma PayloadIsLive(tree: Tree, m: map<Path, Content>)
    requires PayloadTree(tree) && NothingToWrite(tree, m)
    ensures forall p :: p in m ==> p in Files(tree) && Files(tree)[p] == m[p]
  {
    forall p | p in m ensures p in Files(tree) && Files(tree)[p] == m[p] {
      assert LookupTree(tree, p) == IsFile(m[p]);
      UnchangedIsLive(tree, m, p);
    }
  }

  lemma LiveHasNothingElse(tree: Tree, m: map<Path, Content>)
    requires PayloadTree(tree) && NothingToWrite(tree, m)
    ensures Files(tree).Keys <= m.Keys
  {
    forall p | p in Files(tree) ensures p in m {
      assert p in Closure(m);
      LiveIsPayload(tree, m, p);
    }
  }

  lemma EqualMeansNothingToWrite(tree: Tree)
    requires PayloadTree(tree)
    ensures NothingToWrite(tree, Files(tree))
  {
    var files := Files(tree);
    forall p | p in files ensures LookupTree(tree, p) == IsFile(files[p]) {
      LookupClosed(tree, p);
    }
    forall p | p in tree ensures p in Closure(files) {
      if tree[p].File? {
        PrefixInClosure(files, p, p);
      } else {
        var q :| q in tree && tree[q].File? && p <= q;
        PrefixInClosure(files, p, q);
      }
    }
  }

  /** The two tests together are exact. */
  lemma SkipIsExact(tree: Tree, m: map<Path, Content>)
    requires PayloadTree(tree)
    ensures NothingToWrite(tree, m) <==> Files(tree) == m
  {
    if NothingToWrite(tree, m) {
      PayloadIsLive(tree, m);
      LiveHasNothingElse(tree, m);
    }
    if Files(tree) == m {
      EqualMeansNothingToWrite(tree);
    }
  }

  // ----- How two disks may differ -----

  /** The live directory is the same one, with the same content. */
  ghost predicate SameLive(d: Disk, e: Disk)
  {
    HasLive(e) == HasLive(d) && LiveTree(e) == LiveTree(d) && (HasLive(d) ==> LiveName(e) == LiveName(d))
  }

  /** Outside of `names` the two disks are equal. */
  ghost predicate AgreeOff(d: Disk, e: Disk, names: set<string>)
  {
    && (forall n :: n in d && n !in names ==> n in e && e[n] == d[n])
    && (forall n :: n in e && n !in names ==> n in d)
  }

  /** `e` is `d` with some of the missing links of `names` added. */
  ghost predicate LinksAdded(d: Disk, e: Disk, names: set<string>)
  {
    && (forall n :: n in d ==> n in e && e[n] == d[n])
    && (forall n :: n in e && n !in d ==> n in names && e[n] == Link([DATA, n]))
  }

  /** `e` is `d` without some of the entries in `names`. */
  ghost predicate EntriesRemoved(d: Disk, e: Disk, names: set<string>)
  {
    && (forall n :: n in e ==> n in d && e[n] == d[n])
    && (forall n :: n in d && n !in e ==> n in names)
  }

  /** The disk after `rename(..data_tmp, ..data)`. */
  function Renamed(d: Disk): Disk
    requires DATA_TMP in d
  {
    (d - {DATA_TMP})[DATA := d[DATA_TMP]]
  }
}

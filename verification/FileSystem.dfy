/**
 The operating system calls the atomic writer makes on its target directory. Each call may fail at any time;
 `trace` records every state the directory is ever in, including the states inside a call that is not atomic.
 */
module FileSystem {
  import opened Contents
  import opened PathCleaning
  import opened Disk

  datatype Errno = OK | ENOENT | EEXIST | ENOTDIR | EISDIR | EINVAL | EIO | INVALID_PATH

  type SysResult<+T> = Result<T, Errno>

  /** Every state from index `n` on differs from `d` only at `names`. */
  ghost predicate SinceOff(trace: seq<Disk>, n: nat, d: Disk, names: set<string>)
  {
    forall i :: n <= i < |trace| ==> AgreeOff(d, trace[i], names)
  }

  /** What os.Lstat calls missing: it follows links except in the last component. */
  predicate LstatMissing(d: Disk, p: Path)
  {
    p != [] && if |p| == 1 then p[0] !in d else Lookup(d, p) == Missing
  }

  /** The paths that filepath.Walk visits below its root. It does not follow the root when that is a link. */
  function WalkPaths(d: Disk, root: Path): set<Path>
  {
    if |root| == 1 && root[0] in d && d[root[0]].Directory? then d[root[0]].tree.Keys else {}
  }

  /** The tree with the missing ones of `qs` made as directories. */
  function WithDirs(tree: Tree, qs: set<Path>): Tree
  {
    tree + map q | q in qs && q !in tree :: Dir
  }

  lemma WithDirsStep(tree: Tree, qs: set<Path>, q: Path)
    ensures q !in WithDirs(tree, qs) ==> WithDirs(tree, qs + {q}) == WithDirs(tree, qs)[q := Dir]
    ensures q in WithDirs(tree, qs) ==> WithDirs(tree, qs + {q}) == WithDirs(tree, qs)
  {
  }

  /** None of `qs` is a file. */
  ghost predicate NoFiles(tree: Tree, qs: set<Path>)
  {
    forall q :: q in qs && q in tree ==> tree[q].Dir?
  }

  lemma WithDirsAll(tree: Tree, qs: set<Path>)
    requires NoFiles(tree, qs)
    ensures AllDirs(WithDirs(tree, qs), qs)
  {
  }

  lemma SinceOffExtend(t: seq<Disk>, u: seq<Disk>, n: nat, d: Disk, e: Disk, names: set<string>)
    requires n <= |t| && t <= u && SinceOff(t, n, d, names)
    requires AgreeOff(d, e, names) && SinceOff(u, |t|, e, names)
    ensures SinceOff(u, n, d, names)
  {
    forall i | n <= i < |u| ensures AgreeOff(d, u[i], names) {
      if i < |t| {
        assert u[i] == t[i];
      }
    }
  }

  lemma PrefixesOfParent(p: Path)
    requires p != []
    ensures Prefixes(p[..|p| - 1]) == Ancestors(p)
  {
    assert p !in Prefixes(p[..|p| - 1]);
  }

  ghost predicate AllDirs(tree: Tree, qs: set<Path>)
  {
    forall q :: q in qs ==> q in tree && tree[q].Dir?
  }

  /** What os.Remove can remove. */
  predicate Removable(d: Disk, name: string)
  {
    name in d && !(d[name].Directory? && d[name].tree != map[])
  }

  ghost predicate IsDirectory(d: Disk, name: string)
  {
    name in d && d[name].Directory?
  }

  class FileSystem {
    var disk: Disk
    ghost var trace: seq<Disk>
    /** How many calls failed although the directory allowed them. */
    ghost var faults: nat
    /** How many of these failures the program ignored. */
    ghost var drops: nat

    ghost predicate Valid()
      reads this
    {
      |trace| > 0 && trace[|trace| - 1] == disk
    }

    /** What every stretch of calls does: the trace goes on, and nothing is ignored that did not fail. */
    twostate predicate Onward()
      reads this
    {
      && Valid() && old(trace) <= trace
      && old(faults) <= faults && old(drops) <= drops && (faults == old(faults) ==> drops == old(drops))
    }

    /** No call failed without a reason in the directory. */
    twostate predicate Smooth()
      reads this
    {
      faults == old(faults)
    }

    constructor (d: Disk)
      ensures Valid() && disk == d && trace == [d] && faults == 0 && drops == 0
    {
      disk := d;
      trace := [d];
      faults, drops := 0, 0;
    }

    // ----- Calls that look -----

    method Readlink(name: string) returns (r: SysResult<Path>)
      requires Valid()
      modifies this`faults
      ensures Onward()
      ensures r.Ok? ==> name in disk && disk[name] == Link(r.value)
      ensures r.Err? ==> r.error != OK
      ensures r == Err(ENOENT) ==> name !in disk
      ensures r.Err? && r.error != ENOENT ==> name in disk || !Smooth()
      ensures Smooth() && name in disk && disk[name].Link? ==> r.Ok?
      ensures Smooth() && name !in disk ==> r == Err(ENOENT)
    {
      if * {
        faults := faults + 1;
        return Err(EIO);
      }
      if name !in disk {
        return Err(ENOENT);
      }
      match disk[name]
      case Link(target) => return Ok(target);
      case _ => return Err(EINVAL);
    }

    method Lstat(p: Path) returns (e: Errno)
      requires Valid()
      modifies this`faults
      ensures Onward()
      ensures e == ENOENT ==> LstatMissing(disk, p)
      ensures Smooth() ==> (e == ENOENT <==> LstatMissing(disk, p))
    {
      if * {
        faults := faults + 1;
        return EIO;
      }
      return if LstatMissing(disk, p) then ENOENT else OK;
    }

    method ReadFile(p: Path) returns (r: SysResult<Content>)
      requires Valid()
      modifies this`faults
      ensures Onward()
      ensures r.Ok? ==> Lookup(disk, p) == IsFile(r.value)
      ensures r.Err? ==> r.error != OK
      ensures Smooth() ==> (r.Ok? <==> Lookup(disk, p).IsFile?)
      ensures r == Err(ENOENT) ==> Lookup(disk, p) == Missing
      ensures Smooth() && Lookup(disk, p) == Missing ==> r == Err(ENOENT)
    {
      if * {
        faults := faults + 1;
        return Err(EIO);
      }
      match Lookup(disk, p)
      case IsFile(data) => return Ok(data);
      case Missing => return Err(ENOENT);
      case IsDir => return Err(EISDIR);
      case _ => return Err(ENOTDIR);
    }

    /** os.Stat: follows every link. */
    method Stat(p: Path) returns (e: Errno)
      requires Valid()
      modifies this`faults
      ensures Onward()
      ensures e == ENOENT ==> Lookup(disk, p) == Missing
      ensures e == OK ==> Lookup(disk, p).IsFile? || Lookup(disk, p).IsDir?
      ensures Smooth() ==> (e == ENOENT <==> Lookup(disk, p) == Missing)
      ensures Smooth() ==> (e == OK <==> Lookup(disk, p).IsFile? || Lookup(disk, p).IsDir?)
    {
      if * {
        faults := faults + 1;
        return EIO;
      }
      match Lookup(disk, p)
      case IsFile(_) => return OK;
      case IsDir => return OK;
      case Missing => return ENOENT;
      case _ => return ENOTDIR;
    }

    /**
     filepath.Walk with a visitor that returns nil on every error: what is below a directory that cannot be read is
     silently left out.
     */
    method Walk(root: Path) returns (paths: set<Path>)
      requires Valid()
      modifies this`faults, this`drops
      ensures Onward()
      ensures paths <= WalkPaths(disk, root)
      ensures drops == old(drops) ==> paths == WalkPaths(disk, root)
    {
      paths := WalkPaths(disk, root);
      var unreadable: set<Path> := *;
      while unreadable != {}
        invariant Onward()
        invariant paths <= WalkPaths(disk, root)
        invariant drops == old(drops) ==> paths == WalkPaths(disk, root)
        decreases unreadable
      {
        var dir :| dir in unreadable;
        unreadable := unreadable - {dir};
        paths := set p | p in paths && !(dir < p);
        faults, drops := faults + 1, drops + 1;
      }
    }

    // ----- Calls that change the directory -----

    /** os.MkdirTemp and the chmod that follows it; a directory whose chmod failed stays behind. */
    method MkdirTemp(candidate: string) returns (r: SysResult<string>)
      requires Valid()
      modifies this
      ensures Onward() && drops == old(drops)
      ensures Smooth() && IsTsName(candidate) && candidate !in old(disk) ==> r.Ok?
      ensures r.Ok? ==> r.value == candidate && IsTsName(candidate) && candidate !in old(disk)
                        && disk == old(disk)[candidate := Directory(map[])]
                        && trace == old(trace) + [disk]
      ensures r.Err? ==> r.error != OK
      ensures r.Err? ==>
                (disk == old(disk) && trace == old(trace))
                || (IsTsName(candidate) && candidate !in old(disk)
                    && disk == old(disk)[candidate := Directory(map[])] && trace == old(trace) + [disk])
    {
      if !IsTsName(candidate) || candidate in disk {
        return Err(EEXIST);
      }
      if * {
        faults := faults + 1;
        return Err(EIO);
      }
      disk := disk[candidate := Directory(map[])];
      trace := trace + [disk];
      if * {
        faults := faults + 1;
        return Err(EIO);
      }
      return Ok(candidate);
    }

    ghost method Record()
      requires |trace| > 0
      modifies this`trace
      ensures Valid() && trace == old(trace) + [disk]
    {
      trace := trace + [disk];
    }

    /** One missing ancestor; a file in its place is an error. */
    method Mkdir(dir: string, q: Path, ghost before: Tree, ghost qs: set<Path>) returns (e: Errno)
      requires Valid() && IsDirectory(disk, dir)
      requires NoFiles(before, qs) && disk[dir].tree == WithDirs(before, qs)
      modifies this
      ensures Onward() && drops == old(drops)
      ensures SinceOff(trace, |old(trace)|, old(disk), {dir})
      ensures IsDirectory(disk, dir) && AgreeOff(old(disk), disk, {dir})
      ensures e == OK ==> NoFiles(before, qs + {q}) && disk[dir].tree == WithDirs(before, qs + {q})
      ensures e != OK && Smooth() ==> q in before && before[q].File?
    {
      var tree := disk[dir].tree;
      WithDirsStep(before, qs, q);
      if q in tree {
        return if tree[q].File? then ENOTDIR else OK;
      }
      if * {
        faults := faults + 1;
        return EIO;
      }
      disk := disk[dir := Directory(tree[q := Dir])];
      Record();
      return OK;
    }

    /** os.MkdirAll of the path `q` below `dir`: the parent first, then `q` itself. */
    method MkdirAll(dir: string, q: Path) returns (e: Errno)
      requires Valid() && IsDirectory(disk, dir)
      modifies this
      ensures Onward() && drops == old(drops)
      ensures SinceOff(trace, |old(trace)|, old(disk), {dir})
      ensures IsDirectory(disk, dir) && AgreeOff(old(disk), disk, {dir})
      ensures e == OK ==> disk[dir].tree == WithDirs(old(disk[dir].tree), Prefixes(q))
      ensures e == OK ==> NoFiles(old(disk[dir].tree), Prefixes(q))
      ensures e != OK && Smooth() ==>
                exists a :: a in Prefixes(q) && a in old(disk[dir].tree) && old(disk[dir].tree)[a].File?
      decreases |q|
    {
      ghost var before := disk[dir].tree;
      if q == [] {
        assert WithDirs(before, {}) == before;
        return OK;
      }
      var parent := q[..|q| - 1];
      e := MkdirAll(dir, parent);
      assert Prefixes(q) == Prefixes(parent) + {q};
      if e != OK {
        return;
      }
      ghost var soFar, here := trace, disk;
      e := Mkdir(dir, q, before, Prefixes(parent));
      SinceOffExtend(soFar, trace, |old(trace)|, old(disk), here, {dir});
    }

    /** os.WriteFile below `dir`: creates or truncates the file, then fills it. */
    method WriteFile(dir: string, p: Path, data: Content) returns (e: Errno)
      requires Valid() && IsDirectory(disk, dir)
      requires AllDirs(disk[dir].tree, Ancestors(p))
      modifies this
      ensures Onward() && drops == old(drops)
      ensures SinceOff(trace, |old(trace)|, old(disk), {dir})
      ensures IsDirectory(disk, dir) && AgreeOff(old(disk), disk, {dir})
      ensures e == OK ==> p != [] && (p in old(disk[dir].tree) ==> old(disk[dir].tree)[p].File?)
      ensures e == OK ==> disk[dir].tree == old(disk[dir].tree)[p := File(data)]
      ensures e != OK && Smooth() ==> p == [] || (p in old(disk[dir].tree) && old(disk[dir].tree)[p].Dir?)
    {
      var tree := disk[dir].tree;
      if p == [] || (p in tree && tree[p].Dir?) {
        return EISDIR;
      }
      if * {
        faults := faults + 1;
        return EIO;
      }
      disk := disk[dir := Directory(tree[p := File(EMPTY)])];
      Record();
      if * {
        var part: Content := *;
        disk := disk[dir := Directory(tree[p := File(part)])];
        Record();
        faults := faults + 1;
        return EIO;
      }
      disk := disk[dir := Directory(tree[p := File(data)])];
      Record();
      return OK;
    }

    method Symlink(target: Path, name: string) returns (e: Errno)
      requires Valid()
      modifies this
      ensures Onward() && drops == old(drops)
      ensures e == OK ==> name !in old(disk) && disk == old(disk)[name := Link(target)] && trace == old(trace) + [disk]
      ensures e != OK ==> disk == old(disk) && trace == old(trace)
      ensures Smooth() && name !in old(disk) ==> e == OK
    {
      if name in disk {
        return EEXIST;
      }
      if * {
        faults := faults + 1;
        return EIO;
      }
      disk := disk[name := Link(target)];
      Record();
      return OK;
    }

    /** rename("..data_tmp", "..data"), atomic on everything but Windows. */
    method RenameTmp() returns (e: Errno)
      requires Valid() && DATA_TMP in disk
      requires DATA in disk ==> disk[DATA].Link?
      modifies this
      ensures Onward() && drops == old(drops)
      ensures e == OK ==> disk == Renamed(old(disk)) && trace == old(trace) + [disk]
      ensures e != OK ==> disk == old(disk) && trace == old(trace) && !Smooth()
    {
      if * {
        faults := faults + 1;
        return EIO;
      }
      disk := Renamed(disk);
      Record();
      return OK;
    }

    /** os.Remove: unlinks a file or a link, removes a directory only when it is empty. */
    method Remove(name: string) returns (e: Errno)
      requires Valid()
      modifies this
      ensures Onward() && drops == old(drops)
      ensures e == OK ==> name in old(disk) && disk == old(disk) - {name} && trace == old(trace) + [disk]
      ensures e != OK ==> disk == old(disk) && trace == old(trace)
      ensures e == OK ==> Removable(old(disk), name)
      ensures Smooth() && Removable(old(disk), name) ==> e == OK
    {
      if name !in disk {
        return ENOENT;
      }
      if disk[name].Directory? && disk[name].tree != map[] {
        return EEXIST;
      }
      if * {
        faults := faults + 1;
        return EIO;
      }
      disk := disk - {name};
      Record();
      return OK;
    }

    /** os.RemoveAll: one entry at a time in any order, then the name itself; a missing name is no error. */
    method RemoveAll(name: string) returns (e: Errno)
      requires Valid()
      modifies this
      ensures Onward() && drops == old(drops)
      ensures SinceOff(trace, |old(trace)|, old(disk), {name})
      ensures AgreeOff(old(disk), disk, {name})
      ensures trace != old(trace) ==> name in old(disk)
      ensures e == OK ==> name !in disk
      ensures e != OK ==> !Smooth() && name in disk && (IsDirectory(old(disk), name) ==> IsDirectory(disk, name))
    {
      if name !in disk {
        return OK;
      }
      while disk[name].Directory? && disk[name].tree != map[]
        invariant Onward() && drops == old(drops)
        invariant SinceOff(trace, |old(trace)|, old(disk), {name})
        invariant name in disk && AgreeOff(old(disk), disk, {name})
        invariant IsDirectory(old(disk), name) ==> IsDirectory(disk, name)
        decreases if disk[name].Directory? then disk[name].tree.Keys else {}
      {
        if * {
          faults := faults + 1;
          return EIO;
        }
        var tree := disk[name].tree;
        var p :| p in tree;
        disk := disk[name := Directory(tree - {p})];
        Record();
      }
      if * {
        faults := faults + 1;
        return EIO;
      }
      disk := disk - {name};
      Record();
      return OK;
    }
  }
}

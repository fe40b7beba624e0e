/**
 The atomic writer: it validates and cleans the payload, decides whether anything has to be written, and
 publishes the whole file set with a single rename.
 */
module AtomicWriter {
  import opened Contents
  import opened PathCleaning
  import opened Disk
  import opened FileSystem

  // ----- The payload -----

  /** `clean` is the payload under its cleaned paths. Where two raw paths clean to one, either content may win. */
  ghost predicate CleanOf(payload: map<string, Content>, clean: map<Path, Content>)
  {
    && (forall k :: k in payload ==> Accepted(k) && Components(k) in clean)
    && (forall p :: p in clean ==> exists k :: k in payload && Components(k) == p && payload[k] == clean[p])
  }

  ghost predicate AllAccepted(payload: map<string, Content>)
  {
    forall k :: k in payload ==> Accepted(k)
  }

  method ValidatePayload(payload: map<string, Content>) returns (ok: bool, clean: map<Path, Content>)
    ensures ok <==> AllAccepted(payload)
    ensures ok ==> CleanOf(payload, clean)
  {
    clean := map[];
    var todo := payload.Keys;
    while todo != {}
      invariant todo <= payload.Keys
      invariant forall k :: k in payload && k !in todo ==> Accepted(k) && Components(k) in clean
      invariant forall p :: p in clean ==> exists k :: k in payload && Components(k) == p && payload[k] == clean[p]
      decreases todo
    {
      var k :| k in todo;
      var err := ValidatePath(k);
      if err != Valid {
        return false, map[];
      }
      clean := clean[Components(k) := payload[k]];
      todo := todo - {k};
    }
    return true, clean;
  }

  // ----- Growing the new directory -----

  lemma ClosureOfMore(m: map<Path, Content>, p: Path, c: Content)
    requires p !in m
    ensures Closure(m[p := c]) == Closure(m) + Prefixes(p)
  {
    var m' := m[p := c];
    forall q | q in Closure(m') ensures q in Closure(m) + Prefixes(p) {
      var k := PathBelow(m', q);
      if k != p {
        PrefixInClosure(m, q, k);
      }
    }
    forall q | q in Closure(m) + Prefixes(p) ensures q in Closure(m') {
      if q in Closure(m) {
        var k := PathBelow(m, q);
        PrefixInClosure(m', q, k);
      } else {
        PrefixInClosure(m', q, p);
      }
    }
  }

  /** Why a path cannot be written beside `done`: it is the directory itself, above a file, or below one. */
  ghost predicate NoRoom(done: map<Path, Content>, p: Path)
  {
    p == [] || p in Closure(done) || exists q :: q in Ancestors(p) && q in done
  }

  /** A path that has room beside an antichain extends it. */
  lemma StillAntiChain(m: map<Path, Content>, p: Path, c: Content)
    requires AntiChain(m) && p !in m && !NoRoom(m, p)
    ensures AntiChain(m[p := c])
  {
    var m' := m[p := c];
    forall a, b | a in m' && b in m' && a <= b ensures a == b {
      assert a != [];
      assert a in Ancestors(b) || a == b;
      if a == p && b != p {
        PrefixInClosure(m, p, b);
      }
    }
  }

  lemma TreeOfMoreNodes(m: map<Path, Content>, p: Path, c: Content)
    requires !NoRoom(m, p)
    ensures var tree := WithDirs(TreeOf(m), Ancestors(p))[p := File(c)];
      forall q :: q in tree ==> tree[q] == if q in m[p := c] then File(m[p := c][q]) else Dir
  {
  }

  lemma TreeOfMoreKeys(m: map<Path, Content>, p: Path, c: Content)
    requires p !in m && p != []
    ensures WithDirs(TreeOf(m), Ancestors(p))[p := File(c)].Keys == TreeOf(m[p := c]).Keys
  {
    assert p in Prefixes(p);
    ClosureOfMore(m, p, c);
  }

  lemma TreeOfMore(m: map<Path, Content>, p: Path, c: Content)
    requires p !in m && !NoRoom(m, p)
    ensures WithDirs(TreeOf(m), Ancestors(p))[p := File(c)] == TreeOf(m[p := c])
  {
    var tree, tree' := WithDirs(TreeOf(m), Ancestors(p))[p := File(c)], TreeOf(m[p := c]);
    TreeOfMoreKeys(m, p, c);
    TreeOfMoreNodes(m, p, c);
    assert forall q :: q in tree' ==> tree'[q] == if q in m[p := c] then File(m[p := c][q]) else Dir;
  }

  /** So a write that fails without a fault fails because of the payload. */
  lemma NoRoomMeansNoAntiChain(clean: map<Path, Content>, done: map<Path, Content>, p: Path)
    requires p in clean && done.Keys <= clean.Keys && p !in done
    requires NoRoom(done, p)
    ensures !AntiChain(clean)
  {
    if p == [] {
    } else if p in Closure(done) {
      var k := PathBelow(done, p);
      assert k in clean && p <= k && p != k;
    } else {
      var q :| q in Ancestors(p) && q in done;
      assert q in clean && q <= p && q != p;
    }
  }

  // ----- What has to go -----

  /** The names in the root of the target directory among the paths to remove. */
  function RootNames(paths: set<Path>): set<string>
  {
    set p | p in paths && |p| == 1 :: p[0]
  }

  /** Some names are pruned already: `done` of `names`. */
  ghost predicate Pruning(d0: Disk, d: Disk, lasterr: Errno, smooth: bool, done: set<string>, names: set<string>)
  {
    && EntriesRemoved(d0, d, names)
    && (lasterr == OK ==> done !! d.Keys)
    && (smooth ==> CleanOutcome(d0, d, lasterr, done))
  }

  lemma PruneStep(d0: Disk, d: Disk, e: Disk, lasterr: Errno, err: Errno, smooth: bool, done: set<string>,
                  names: set<string>, name: string)
    requires Pruning(d0, d, lasterr, smooth, done, names) && name in names && (name in d0 ==> name in d)
    requires err == OK ==> Removable(d, name) && e == d - {name}
    requires err != OK ==> e == d && (smooth ==> !Removable(d, name))
    ensures Pruning(d0, e, if err != OK then err else lasterr, smooth, done + {name}, names)
  {
  }

  lemma RootNamesOfMore(paths: set<Path>, p: Path)
    ensures RootNames(paths + {p}) == RootNames(paths) + if |p| == 1 then {p[0]} else {}
  {
  }

  lemma HeadInClosure(m: map<Path, Content>, n: string)
    requires [n] in Closure(m)
    ensures n in Heads(m.Keys)
  {
    var k := PathBelow(m, [n]);
    assert k[0] == n;
  }

  /** The stale links are those of the old top names that the payload does not use. */
  lemma StaleNames(tree: Tree, m: map<Path, Content>)
    requires Closed(tree)
    ensures RootNames(tree.Keys - Closure(m)) == Heads(tree.Keys) - Heads(m.Keys)
  {
    var stale := tree.Keys - Closure(m);
    forall n | n in RootNames(stale) ensures n in Heads(tree.Keys) - Heads(m.Keys) {
      var p :| p in stale && |p| == 1 && p[0] == n;
      if n in Heads(m.Keys) {
        var k :| k in m && k != [] && k[0] == n;
        assert p <= k;
        PrefixInClosure(m, p, k);
      }
    }
    forall n | n in Heads(tree.Keys) - Heads(m.Keys) ensures n in RootNames(stale) {
      var q :| q in tree && q != [] && q[0] == n;
      assert [n] in tree by {
        assert [n] == q || [n] in Ancestors(q);
      }
      if [n] in Closure(m) {
        HeadInClosure(m, n);
      }
      assert [n] in stale;
    }
  }

  // ----- The decision to write -----

  /** Every payload file is under `oldTs` with the same content. */
  ghost predicate Matches(d: Disk, oldTs: Path, m: map<Path, Content>)
  {
    forall p :: p in m ==> Lookup(d, oldTs + p) == IsFile(m[p])
  }

  /** The payload file `p` is missing under `oldTs`, or has another content there. */
  ghost predicate Differs(d: Disk, oldTs: Path, m: map<Path, Content>, p: Path)
    requires p in m
  {
    var found := Lookup(d, oldTs + p);
    LstatMissing(d, oldTs + p) || (found.IsFile? && found != IsFile(m[p]))
  }

  ghost predicate SomeDiffers(d: Disk, oldTs: Path, m: map<Path, Content>)
  {
    exists p :: p in m && Differs(d, oldTs, m, p)
  }

  /** Something other than a file is in the place of the payload file `p`. */
  ghost predicate Clashes(d: Disk, oldTs: Path, p: Path)
  {
    !LstatMissing(d, oldTs + p) && !Lookup(d, oldTs + p).IsFile?
  }

  ghost predicate SomeClashes(d: Disk, oldTs: Path, m: map<Path, Content>)
  {
    exists p :: p in m && Clashes(d, oldTs, p)
  }

  // ----- What happens to the directory -----

  function OldNames(oldTs: Path): set<string>
  {
    if |oldTs| == 1 then {oldTs[0]} else {}
  }

  predicate Fresh(ts: string, d: Disk)
  {
    IsTsName(ts) && ts !in d
  }

  /** Before the rename: `d`, the new directory in any state, some links of `names`, and perhaps the temporary link. */
  ghost predicate Staging(d: Disk, e: Disk, names: set<string>, ts: string)
  {
    && (forall n :: n in d ==> n in e && e[n] == d[n])
    && (forall n :: n in e && n !in d && n != ts ==>
          (n in names && e[n] == Link([DATA, n])) || (n == DATA_TMP && e[n] == Link([ts])))
  }

  /** The new directory is complete, and the links of `skipped` are the only ones that are not there. */
  ghost predicate Staged(d: Disk, e: Disk, m: map<Path, Content>, ts: string, skipped: set<string>)
  {
    && Fresh(ts, d) && ts in e && e[ts] == Directory(TreeOf(m))
    && (forall n :: n in d ==> n in e && e[n] == d[n])
    && (forall n :: n in e && n !in d && n != ts ==> n in Heads(m.Keys) && e[n] == Link([DATA, n]))
    && skipped == Heads(m.Keys) - e.Keys
  }

  /** The state right after the rename, seen from the start of the call. */
  ghost predicate Committed(d: Disk, e: Disk, m: map<Path, Content>, ts: string, skipped: set<string>)
  {
    && DATA in e && e[DATA] == Link([ts]) && ts in e && e[ts] == Directory(TreeOf(m)) && DATA_TMP !in e
    && (forall n :: n in d && n != DATA ==> n in e && e[n] == d[n])
    && (forall n :: n in e && n !in d && n != ts && n != DATA ==> n in Heads(m.Keys) && e[n] == Link([DATA, n]))
    && skipped <= Heads(m.Keys)
    && (forall n :: n in Heads(m.Keys) && n != DATA ==> (n in e <==> n !in skipped))
  }

  /** After the rename: some entries of `stale` are gone, and those of `oldNames` are being taken apart. */
  ghost predicate Pruned(d: Disk, e: Disk, stale: set<string>, oldNames: set<string>)
  {
    && (forall n :: n in e ==> n in d && (n !in oldNames ==> e[n] == d[n]))
    && (forall n :: n in d && n !in e ==> n in stale + oldNames)
  }

  /** At the end of a successful call: all of them are gone, and nothing else. */
  ghost predicate Cleaned(d: Disk, e: Disk, gone: set<string>)
  {
    (forall n :: n in e <==> n in d && n !in gone) && forall n :: n in e ==> e[n] == d[n]
  }

  /** State `i` of the trace comes out of the rename, and out of nothing else. */
  ghost predicate IsSwap(trace: seq<Disk>, i: nat)
  {
    0 < i < |trace| && DATA_TMP in trace[i - 1] && trace[i] == Renamed(trace[i - 1])
  }

  // ----- Stretches of the trace -----

  ghost predicate Stages(trace: seq<Disk>, from: nat, to: nat, d: Disk, names: set<string>, ts: string)
    requires to <= |trace|
  {
    forall i :: from <= i < to ==> Staging(d, trace[i], names, ts)
  }

  lemma StagesOn(t: seq<Disk>, u: seq<Disk>, n: nat, d: Disk, names: set<string>, ts: string)
    requires t <= u && Stages(t, n, |t|, d, names, ts) && Stages(u, |t|, |u|, d, names, ts)
    ensures Stages(u, n, |u|, d, names, ts)
  {
    forall i | n <= i < |u| ensures Staging(d, u[i], names, ts) {
      assert i < |t| ==> u[i] == t[i];
    }
  }

  ghost predicate Prunes(trace: seq<Disk>, from: nat, to: nat, d: Disk, stale: set<string>, oldNames: set<string>)
    requires to <= |trace|
  {
    forall i :: from <= i < to ==> Pruned(d, trace[i], stale, oldNames)
  }

  lemma PrunesOn(t: seq<Disk>, u: seq<Disk>, n: nat, d: Disk, stale: set<string>, oldNames: set<string>)
    requires t <= u && Prunes(t, n, |t|, d, stale, oldNames) && Prunes(u, |t|, |u|, d, stale, oldNames)
    ensures Prunes(u, n, |u|, d, stale, oldNames)
  {
    forall i | n <= i < |u| ensures Pruned(d, u[i], stale, oldNames) {
      assert i < |t| ==> u[i] == t[i];
    }
  }

  /** The temporary link appears in a stretch only if it may. */
  ghost predicate TmpOnlyIf(trace: seq<Disk>, from: nat, to: nat, may: bool)
    requires to <= |trace|
  {
    forall i :: from <= i < to && DATA_TMP in trace[i] ==> may
  }

  lemma TmpOn(t: seq<Disk>, u: seq<Disk>, n: nat, may: bool)
    requires t <= u && TmpOnlyIf(t, n, |t|, may) && TmpOnlyIf(u, |t|, |u|, may)
    ensures TmpOnlyIf(u, n, |u|, may)
  {
    forall i | n <= i < |u| && DATA_TMP in u[i] ensures may {
      assert i < |t| ==> u[i] == t[i];
    }
  }

  ghost predicate SinceAdded(trace: seq<Disk>, n: nat, d: Disk, names: set<string>)
  {
    forall i :: n <= i < |trace| ==> LinksAdded(d, trace[i], names)
  }

  lemma SinceAddedExtend(t: seq<Disk>, u: seq<Disk>, n: nat, d: Disk, e: Disk, f: Disk, names: set<string>, x: string)
    requires n <= |t| && t <= u && SinceAdded(t, n, d, names)
    requires LinksAdded(d, e, names) && SinceAdded(u, |t|, e, {x}) && LinksAdded(e, f, {x}) && x in names
    ensures SinceAdded(u, n, d, names) && LinksAdded(d, f, names)
  {
    forall i | n <= i < |u| ensures LinksAdded(d, u[i], names) {
      if i < |t| {
        assert u[i] == t[i];
      }
    }
  }

  ghost predicate SinceRemoved(trace: seq<Disk>, n: nat, d: Disk, names: set<string>)
  {
    forall i :: n <= i < |trace| ==> EntriesRemoved(d, trace[i], names)
  }

  lemma FilledStages(t: seq<Disk>, n: nat, d: Disk, names: set<string>, ts: string)
    requires n <= |t| && SinceOff(t, n, d, {ts}) && (n < |t| ==> Fresh(ts, d))
    ensures Stages(t, n, |t|, d, names, ts) && TmpOnlyIf(t, n, |t|, DATA_TMP in d.Keys + names)
  {
  }

  lemma LinkedStages(t: seq<Disk>, u: seq<Disk>, n: nat, d: Disk, d1: Disk, names: set<string>, ts: string)
    requires n <= |t| && t <= u && SinceOff(t, n, d, {ts}) && Fresh(ts, d)
    requires AgreeOff(d, d1, {ts}) && SinceAdded(u, |t|, d1, names)
    ensures Stages(u, n, |u|, d, names, ts) && TmpOnlyIf(u, n, |u|, DATA_TMP in d.Keys + names)
  {
    FilledStages(t, n, d, names, ts);
    StagesOn(t, u, n, d, names, ts);
    TmpOn(t, u, n, DATA_TMP in d.Keys + names);
  }

  lemma SwapStages(t: seq<Disk>, u: seq<Disk>, n: nat, d: Disk, d1: Disk, m: map<Path, Content>, ts: string,
                   skipped: set<string>)
    requires n < |t| && Staged(d, d1, m, ts, skipped) && DATA_TMP !in d1
    requires Stages(t, n, |t|, d, Heads(m.Keys), ts) && TmpOnlyIf(t, n, |t|, DATA_TMP in d.Keys + Heads(m.Keys))
    requires u == t + [d1[DATA_TMP := Link([ts])], Renamed(d1[DATA_TMP := Link([ts])])]
    requires AntiChain(m)
    ensures SwapPhase(d, m, ts, skipped, u, n)
  {
    var d1' := d1[DATA_TMP := Link([ts])];
    forall i | n <= i < |u| - 1 ensures Staging(d, u[i], Heads(m.Keys), ts) {
      assert u[i] == if i < |t| then t[i] else d1';
    }
  }

  lemma RefusedStages(t: seq<Disk>, u: seq<Disk>, n: nat, d: Disk, d1: Disk, m: map<Path, Content>, ts: string,
                      skipped: set<string>)
    requires n <= |t| && t <= u && Staged(d, d1, m, ts, skipped)
    requires Stages(t, n, |t|, d, Heads(m.Keys), ts) && TmpOnlyIf(t, n, |t|, DATA_TMP in d.Keys + Heads(m.Keys))
    requires Stages(u, |t|, |u|, d1 - {ts}, {}, ts)
    ensures Stages(u, n, |u|, d, Heads(m.Keys), ts)
    ensures DATA_TMP in d1 ==> TmpOnlyIf(u, n, |u|, DATA_TMP in d.Keys + Heads(m.Keys))
    ensures DATA_TMP in d1 && u != [] && AgreeOff(d1, LastOf(u), {ts}) && ts !in LastOf(u) && skipped == {} ==>
              Refused(d, LastOf(u), Heads(m.Keys), ts)
  {
    forall i | |t| <= i < |u| ensures Staging(d, u[i], Heads(m.Keys), ts) {
      assert Staging(d1 - {ts}, u[i], {}, ts);
    }
    StagesOn(t, u, n, d, Heads(m.Keys), ts);
    if DATA_TMP in d1 {
      TmpOn(t, u, n, DATA_TMP in d.Keys + Heads(m.Keys));
    }
  }

  lemma SwapIsTakenBack(t: seq<Disk>, u: seq<Disk>, n: nat, d: Disk, d1: Disk, m: map<Path, Content>, ts: string,
                        skipped: set<string>)
    requires n < |t| && t <= u && Staged(d, d1, m, ts, skipped) && DATA_TMP !in d.Keys + Heads(m.Keys)
    requires TmpOnlyIf(t, n, |t|, false) && AgreeOff(d1, LastOf(u), {ts}) && ts !in LastOf(u)
    ensures TakenBack(d, u, n, Heads(m.Keys), ts)
  {
  }

  lemma WritesDecided(a: Attempt)
    requires GoesOn(a.start, a.clean, a.walked) && a.walked <= WalkPaths(a.start, DataTarget(a.start))
    requires !a.Faulted() ==> a.walked == WalkPaths(a.start, DataTarget(a.start))
    requires a.states == [] ==> a.skipped == {} && a.err != OK && (!a.Faulted() ==> !Fresh(a.ts, a.start))
    ensures a.Decides()
  {
  }

  // ----- The contract of Write -----

  /** The parts of a call; a proof names the ones it needs. */
  datatype Part = Deciding | Preparing | Committing | CleaningUp

  /**
   One call of Write, as seen from the disk. `states` are the states it goes through after `start`, the first
   `commit` of them before the rename. `walked` is what `Walk` reported of the live directory, `skipped` the missing
   links that were taken for present because their lookup failed. `faults`: how many system calls failed without
   a reason in the directory.
   */
  datatype Attempt = Attempt(
    start: Disk, clean: map<Path, Content>, ts: string, walked: set<Path>, skipped: set<string>,
    states: seq<Disk>, commit: nat, err: Errno, faults: nat)
  {
    /** The state after the first `cut` steps: where a crash leaves the directory. */
    function At(cut: nat): Disk
      requires cut <= |states|
    {
      if cut == 0 then start else states[cut - 1]
    }

    function End(): Disk
    {
      At(|states|)
    }

    function Names(): set<string>
    {
      Heads(clean.Keys)
    }

    /** The top names that step 10 removes. */
    function Stale(): set<string>
    {
      RootNames(walked - Closure(clean))
    }

    predicate Faulted()
    {
      faults > 0
    }

    predicate Renames()
    {
      commit < |states|
    }

    /** The outcome of steps 3 and 4 that ends the call with success. */
    ghost predicate Skips()
    {
      DataTarget(start) != [] && Matches(start, DataTarget(start), clean) && walked <= Closure(clean)
    }

    /** Steps 2 to 4. */
    ghost predicate Decides()
    {
      && walked <= WalkPaths(start, DataTarget(start))
      && (!Faulted() ==> walked == WalkPaths(start, DataTarget(start)))
      && (err == OK && states == [] ==> Skips())
      && (states == [] ==> skipped == {})
      && (states != [] ==> GoesOn(start, clean, walked))
      && (!Faulted() && Skips() ==> err == OK && states == [])
      && (!Faulted() && err != OK && states == [] ==> HasObstacle(start, clean, ts))
    }

    /** Steps 5 to 8, and 9 if it fails. */
    ghost predicate Prepares()
      requires commit <= |states|
    {
      && (states != [] ==> Fresh(ts, start))
      && Stages(states, 0, commit, start, Names(), ts)
      && (!Renames() && states != [] ==> err != OK)
      && (!Faulted() ==>
            forall i :: 0 <= i < commit && DATA_TMP in states[i] ==>
              DATA_TMP in start.Keys + Names() || (Renames() && i == commit - 1))
      && (!Faulted() && !Renames() && states != [] && AntiChain(clean) ==> Refused(start, End(), Names(), ts))
      && (faults <= 1 && !Renames() && DATA_TMP !in start.Keys + Names() ==> TakenBack(start, states, 0, Names(), ts))
    }

    /** Step 9. */
    ghost predicate Commits()
      requires commit <= |states|
    {
      Renames() ==>
        && AntiChain(clean) && DATA_TMP !in start && IsSwap(states, commit)
        && Committed(start, states[commit], clean, ts, skipped)
        && (!Faulted() ==> skipped == {})
    }

    /** Steps 10 and 11. */
    ghost predicate CleansUp()
      requires commit <= |states|
    {
      Renames() ==>
        && Prunes(states, commit, |states|, states[commit], Stale(), OldNames(DataTarget(start)))
        && (err == OK ==> Cleaned(states[commit], End(), Stale() + OldNames(DataTarget(start))))
        && (!Faulted() ==> CleanOutcome(states[commit], End(), err, Stale()))
    }

    /** No failed lookup and no unreadable directory was ignored. */
    predicate SeesAll()
    {
      walked == WalkPaths(start, DataTarget(start)) && skipped == {}
    }

    ghost predicate Obeys(p: Part)
      requires commit <= |states|
    {
      match p
      case Deciding => Decides()
      case Preparing => Prepares()
      case Committing => Commits()
      case CleaningUp => CleansUp()
    }

    ghost predicate Updates()
    {
      commit <= |states| && forall p: Part :: Obeys(p)
    }

    /** A payload with an unacceptable path: nothing happens. */
    ghost predicate Rejected()
    {
      err == INVALID_PATH && states == [] && commit == 0
    }

    ghost predicate Follows()
    {
      Rejected() || Updates()
    }
  }

  /** Where the data link points; nothing if there is none. */
  function DataTarget(d: Disk): Path
  {
    if DATA in d && d[DATA].Link? then d[DATA].target else []
  }

  /** Steps 2 to 4 decide to write. */
  ghost predicate GoesOn(d: Disk, clean: map<Path, Content>, walked: set<Path>)
  {
    var oldTs := DataTarget(d);
    && (DATA in d ==> d[DATA].Link?)
    && (oldTs != [] ==>
          || (Matches(d, oldTs, clean) && !(walked <= Closure(clean)))
          || SomeDiffers(d, oldTs, clean))
  }

  /** Why a call may end early with an error: the data link is something else, a name is taken, or shapes differ. */
  ghost predicate HasObstacle(d: Disk, clean: map<Path, Content>, ts: string)
  {
    || (DATA in d && !d[DATA].Link?)
    || !Fresh(ts, d)
    || (DataTarget(d) != [] && SomeClashes(d, DataTarget(d), clean))
  }

  /** A temporary link is in the way of step 8: only new links remain. */
  ghost predicate Refused(d: Disk, e: Disk, names: set<string>, ts: string)
  {
    DATA_TMP in d.Keys + names && LinksAdded(d, e, names) && names - {ts} <= e.Keys
  }

  /**
   After one failure the temporary link is not left behind: if it was made, step 9 failed, and then it and the new
   directory are removed again, so that only new links remain.
   */
  ghost predicate TakenBack(d: Disk, t: seq<Disk>, n: nat, names: set<string>, ts: string)
  {
    n < |t| ==>
      && DATA_TMP !in LastOf(t)
      && forall i :: n <= i < |t| && DATA_TMP in t[i] ==> LinksAdded(d, LastOf(t), names) && ts !in LastOf(t)
  }

  lemma ShiftTakenBack(d: Disk, t: seq<Disk>, n: nat, names: set<string>, ts: string)
    requires n <= |t| && TakenBack(d, t, n, names, ts)
    ensures TakenBack(d, t[n..], 0, names, ts)
  {
    if n < |t| {
      assert LastOf(t[n..]) == LastOf(t);
      forall i | 0 <= i < |t| - n && DATA_TMP in t[n..][i] ensures LinksAdded(d, LastOf(t), names) && ts !in LastOf(t) {
        assert t[n..][i] == t[n + i];
      }
    }
  }

  lemma ShiftStages(t: seq<Disk>, n: nat, to: nat, d: Disk, names: set<string>, ts: string, may: bool, last: nat)
    requires n <= last <= to <= |t| && Stages(t, n, to, d, names, ts) && TmpOnlyIf(t, n, last, may)
    ensures Stages(t[n..], 0, to - n, d, names, ts) && TmpOnlyIf(t[n..], 0, last - n, may)
  {
    forall i | 0 <= i < to - n ensures Staging(d, t[n..][i], names, ts) {
      assert t[n..][i] == t[n + i];
    }
    forall i | 0 <= i < last - n && DATA_TMP in t[n..][i] ensures may {
      assert t[n..][i] == t[n + i];
    }
  }

  lemma ShiftPrunes(t: seq<Disk>, n: nat, from: nat, d: Disk, stale: set<string>, oldNames: set<string>)
    requires n <= from <= |t| && Prunes(t, from, |t|, d, stale, oldNames)
    ensures Prunes(t[n..], from - n, |t| - n, d, stale, oldNames)
  {
    forall i | from - n <= i < |t| - n ensures Pruned(d, t[n..][i], stale, oldNames) {
      assert t[n..][i] == t[n + i];
    }
  }

  lemma EndOfTrace(a: Attempt, t: seq<Disk>, u: seq<Disk>)
    requires |t| > 0 && t <= u && a.states == u[|t|..] && a.start == t[|t| - 1]
    ensures a.End() == LastOf(u) && u == t + a.states
  {
  }

  /** The call ended in steps 2 to 4. */
  lemma EndsAtOnce(a: Attempt)
    requires a.states == [] && a.commit == 0 && a.skipped == {} && a.walked <= WalkPaths(a.start, DataTarget(a.start))
    requires !a.Faulted() ==> a.walked == WalkPaths(a.start, DataTarget(a.start))
    requires a.err == OK ==> a.Skips()
    requires !a.Faulted() && a.err != OK ==> !a.Skips() && HasObstacle(a.start, a.clean, a.ts)
    ensures a.Updates() && a.End() == a.start
  {
    assert a.Decides() && a.Prepares();
  }

  /** The swap failed: the call continued the trace `t0` to `u`. */
  lemma EndsBeforeSwap(a: Attempt, t0: seq<Disk>, u: seq<Disk>)
    requires |t0| > 0 && t0[|t0| - 1] == a.start && t0 <= u
    requires a.states == u[|t0|..] && a.commit == |u| - |t0| && a.err != OK
    requires GoesOn(a.start, a.clean, a.walked) && a.walked <= WalkPaths(a.start, DataTarget(a.start))
    requires !a.Faulted() ==> a.walked == WalkPaths(a.start, DataTarget(a.start))
    requires if |t0| < |u| then Fresh(a.ts, a.start) else a.skipped == {} && (!a.Faulted() ==> !Fresh(a.ts, a.start))
    requires Stages(u, |t0|, |u|, a.start, a.Names(), a.ts)
    requires !a.Faulted() ==> TmpOnlyIf(u, |t0|, |u|, DATA_TMP in a.start.Keys + a.Names())
    requires !a.Faulted() && |t0| < |u| && AntiChain(a.clean) ==> Refused(a.start, LastOf(u), a.Names(), a.ts)
    requires a.faults <= 1 && DATA_TMP !in a.start.Keys + a.Names() ==> TakenBack(a.start, u, |t0|, a.Names(), a.ts)
    ensures a.End() == LastOf(u) && u == t0 + a.states && a.Updates()
  {
    WritesDecided(a);
    EndOfTrace(a, t0, u);
    ShiftStages(u, |t0|, |u|, a.start, a.Names(), a.ts, a.Faulted() || DATA_TMP in a.start.Keys + a.Names(), |u|);
    if a.faults <= 1 && DATA_TMP !in a.start.Keys + a.Names() {
      ShiftTakenBack(a.start, u, |t0|, a.Names(), a.ts);
    }
  }

  function LastOf(t: seq<Disk>): Disk
    requires |t| > 0
  {
    t[|t| - 1]
  }

  /** The swap went through: `t` is the trace up to it, the call's own states starting at `n`. */
  ghost predicate SwapPhase(d0: Disk, clean: map<Path, Content>, ts: string, skipped: set<string>, t: seq<Disk>, n: nat)
  {
    && n + 1 < |t| && IsSwap(t, |t| - 1)
    && AntiChain(clean) && Fresh(ts, d0) && DATA_TMP !in d0 && Committed(d0, LastOf(t), clean, ts, skipped)
    && Stages(t, n, |t| - 1, d0, Heads(clean.Keys), ts)
    && TmpOnlyIf(t, n, |t| - 2, DATA_TMP in d0.Keys + Heads(clean.Keys))
  }

  /** The cleaning up continued `t` to `u`. */
  ghost predicate CleanPhase(t: seq<Disk>, u: seq<Disk>, err: Errno, stale: set<string>, oldNames: set<string>)
    requires |t| > 0
  {
    && t <= u && Prunes(u, |t|, |u|, LastOf(t), stale, oldNames)
    && (err == OK ==> Cleaned(LastOf(t), LastOf(u), stale + oldNames))
  }

  /** Without faults, the stale entries that can be removed are gone, and success means that all of them could. */
  ghost predicate CleanOutcome(d: Disk, e: Disk, err: Errno, stale: set<string>)
  {
    && (err == OK <==> forall n :: n in stale ==> Removable(d, n))
    && (forall n :: n in stale && Removable(d, n) ==> n !in e)
  }

  lemma EndsAfterSwap(a: Attempt, t0: seq<Disk>, t: seq<Disk>, u: seq<Disk>)
    requires |t0| > 0 && t0[|t0| - 1] == a.start && t0 <= t
    requires SwapPhase(a.start, a.clean, a.ts, a.skipped, t, |t0|)
    requires CleanPhase(t, u, a.err, a.Stale(), OldNames(DataTarget(a.start)))
    requires a.states == u[|t0|..] && a.commit == |t| - |t0| - 1
    requires GoesOn(a.start, a.clean, a.walked) && a.walked <= WalkPaths(a.start, DataTarget(a.start))
    requires !a.Faulted() ==> a.walked == WalkPaths(a.start, DataTarget(a.start))
    requires !a.Faulted() ==> CleanOutcome(LastOf(t), LastOf(u), a.err, a.Stale()) && a.skipped == {}
    ensures a.End() == LastOf(u) && u == t0 + a.states && a.Updates()
  {
    var n, stale, oldNames, d2 := |t0|, a.Stale(), OldNames(DataTarget(a.start)), LastOf(t);
    WritesDecided(a);
    EndOfTrace(a, t0, u);
    assert Stages(u, n, |t| - 1, a.start, a.Names(), a.ts);
    assert TmpOnlyIf(u, n, |t| - 2, DATA_TMP in a.start.Keys + a.Names());
    ShiftStages(u, n, |t| - 1, a.start, a.Names(), a.ts, DATA_TMP in a.start.Keys + a.Names(), |t| - 2);
    assert u[|t| - 1] == d2 && Pruned(d2, d2, stale, oldNames);
    assert Prunes(u, |t| - 1, |u|, d2, stale, oldNames);
    ShiftPrunes(u, n, |t| - 1, d2, stale, oldNames);
    assert a.states[a.commit] == d2 && a.states[a.commit - 1] == t[|t| - 2];
    assert a.Prepares();
    assert a.Commits();
    assert a.CleansUp();
    assert a.Obeys(Deciding) && a.Obeys(Preparing) && a.Obeys(Committing) && a.Obeys(CleaningUp);
  }

  // ----- The writer -----

  class Writer {
    const dir: FileSystem

    constructor (dir: FileSystem)
      ensures this.dir == dir
    {
      this.dir := dir;
    }

    method ShouldWriteFile(path: Path, content: Content) returns (r: SysResult<bool>)
      requires dir.Valid()
      modifies dir`faults
      ensures dir.Onward()
      ensures r.Err? ==> r.error != OK
      ensures r == Ok(false) ==> Lookup(dir.disk, path) == IsFile(content)
      ensures r == Ok(true) ==>
                LstatMissing(dir.disk, path)
                || (Lookup(dir.disk, path).IsFile? && Lookup(dir.disk, path) != IsFile(content))
      ensures dir.Smooth() ==> (r.Ok? <==> LstatMissing(dir.disk, path) || Lookup(dir.disk, path).IsFile?)
    {
      var e := dir.Lstat(path);
      if e == ENOENT {
        return Ok(true);
      }
      var onDisk := dir.ReadFile(path);
      if onDisk.Err? {
        return Err(onDisk.error);
      }
      return Ok(content != onDisk.value);
    }

    method ShouldWritePayload(payload: map<Path, Content>, oldTs: Path) returns (r: SysResult<bool>)
      requires dir.Valid()
      modifies dir`faults
      ensures dir.Onward()
      ensures r == Ok(false) ==> Matches(dir.disk, oldTs, payload)
      ensures r == Ok(true) ==> SomeDiffers(dir.disk, oldTs, payload)
      ensures r.Err? ==> r.error != OK
      ensures r.Err? && dir.Smooth() ==> SomeClashes(dir.disk, oldTs, payload)
    {
      var todo := payload.Keys;
      while todo != {}
        invariant dir.Onward() && todo <= payload.Keys
        invariant forall p :: p in payload && p !in todo ==> Lookup(dir.disk, oldTs + p) == IsFile(payload[p])
        decreases todo
      {
        var p :| p in todo;
        var should := ShouldWriteFile(oldTs + p, payload[p]);
        if should.Err? {
          return should;
        }
        if should.value {
          assert Differs(dir.disk, oldTs, payload, p);
          return Ok(true);
        }
        todo := todo - {p};
      }
      return Ok(false);
    }

    /** The walked paths that are neither in the payload nor an ancestor of it. */
    method PathsToRemove(payload: map<Path, Content>, oldTs: Path) returns (result: set<Path>, ghost walked: set<Path>)
      requires dir.Valid()
      modifies dir`faults, dir`drops
      ensures dir.Onward()
      ensures walked <= WalkPaths(dir.disk, oldTs)
      ensures dir.drops == old(dir.drops) ==> walked == WalkPaths(dir.disk, oldTs)
      ensures result == walked - Closure(payload)
    {
      var paths := dir.Walk(oldTs);
      walked := paths;
      var newPaths: set<Path> := {};
      var todo := payload.Keys;
      while todo != {}
        invariant todo <= payload.Keys
        invariant forall p :: p in payload && p !in todo ==> Prefixes(p) <= newPaths
        invariant newPaths <= Closure(payload)
        modifies {}
        decreases todo
      {
        var file :| file in todo;
        var subPath := file;
        while subPath != []
          invariant subPath <= file && newPaths <= Closure(payload)
          invariant forall p :: p in payload && p !in todo ==> Prefixes(p) <= newPaths
          invariant Prefixes(file) <= newPaths + Prefixes(subPath)
          decreases |subPath|
        {
          PrefixInClosure(payload, subPath, file);
          newPaths := newPaths + {subPath};
          subPath := subPath[..|subPath| - 1];
        }
        todo := todo - {file};
      }
      assert newPaths == Closure(payload);
      return paths - newPaths, walked;
    }

    /** One file of the payload, with its ancestors, beside the files already written. */
    method WriteProjection(p: Path, content: Content, ts: string, ghost done: map<Path, Content>) returns (e: Errno)
      requires dir.Valid() && ts in dir.disk && dir.disk[ts] == Directory(TreeOf(done))
      requires AntiChain(done) && p !in done
      modifies dir
      ensures dir.Onward() && dir.drops == old(dir.drops)
      ensures SinceOff(dir.trace, |old(dir.trace)|, old(dir.disk), {ts})
      ensures IsDirectory(dir.disk, ts) && AgreeOff(old(dir.disk), dir.disk, {ts})
      ensures e == OK ==> AntiChain(done[p := content]) && dir.disk[ts].tree == TreeOf(done[p := content])
      ensures e != OK && dir.Smooth() ==> NoRoom(done, p)
    {
      ghost var tree := TreeOf(done);
      if p == [] {
        return EISDIR;
      }
      PrefixesOfParent(p);
      e := dir.MkdirAll(ts, p[..|p| - 1]);
      if e != OK {
        if dir.Smooth() {
          ghost var q :| q in Ancestors(p) && q in tree && tree[q].File?;
          assert q in done;
        }
        return;
      }
      WithDirsAll(tree, Ancestors(p));
      assert forall q :: q in Ancestors(p) ==> q !in done by {
        forall q | q in Ancestors(p) ensures q !in done {
          if q in done {
            PrefixInClosure(done, q, q);
          }
        }
      }
      ghost var dirs := dir.disk[ts].tree;
      assert p in dirs ==> p in tree;
      e := dir.WriteFile(ts, p, content);
      if e != OK {
        return;
      }
      assert !NoRoom(done, p);
      StillAntiChain(done, p, content);
      TreeOfMore(done, p, content);
    }

    /** Writes every payload file below the new directory. */
    method WritePayloadToDir(payload: map<Path, Content>, ts: string) returns (e: Errno)
      requires dir.Valid() && ts in dir.disk && dir.disk[ts] == Directory(map[])
      modifies dir
      ensures dir.Onward() && dir.drops == old(dir.drops)
      ensures SinceOff(dir.trace, |old(dir.trace)|, old(dir.disk), {ts})
      ensures IsDirectory(dir.disk, ts) && AgreeOff(old(dir.disk), dir.disk, {ts})
      ensures e == OK ==> AntiChain(payload) && dir.disk[ts].tree == TreeOf(payload)
      ensures e != OK && dir.Smooth() ==> !AntiChain(payload)
    {
      ghost var done: map<Path, Content> := map[];
      var todo := payload.Keys;
      while todo != {}
        invariant dir.Onward() && dir.drops == old(dir.drops)
        invariant SinceOff(dir.trace, |old(dir.trace)|, old(dir.disk), {ts})
        invariant IsDirectory(dir.disk, ts) && AgreeOff(old(dir.disk), dir.disk, {ts})
        invariant todo <= payload.Keys && done.Keys == payload.Keys - todo
        invariant forall p :: p in done ==> done[p] == payload[p]
        invariant AntiChain(done) && dir.disk[ts].tree == TreeOf(done)
        decreases todo
      {
        var p :| p in todo;
        ghost var soFar, here := dir.trace, dir.disk;
        e := WriteProjection(p, payload[p], ts, done);
        SinceOffExtend(soFar, dir.trace, |old(dir.trace)|, old(dir.disk), here, {ts});
        if e != OK {
          if dir.Smooth() {
            NoRoomMeansNoAntiChain(payload, done, p);
          }
          return;
        }
        done := done[p := payload[p]];
        todo := todo - {p};
      }
      assert done == payload;
      return OK;
    }

    /** One visible link, if there is none yet. */
    method EnsureLink(linkname: string) returns (e: Errno)
      requires dir.Valid()
      modifies dir
      ensures dir.Onward()
      ensures SinceAdded(dir.trace, |old(dir.trace)|, old(dir.disk), {linkname})
      ensures LinksAdded(old(dir.disk), dir.disk, {linkname})
      ensures e == OK && dir.drops == old(dir.drops) ==> linkname in dir.disk
      ensures e != OK ==> !dir.Smooth()
    {
      var r := dir.Readlink(linkname);
      if r == Err(ENOENT) {
        e := dir.Symlink([DATA, linkname], linkname);
        return;
      }
      if r.Err? && linkname !in dir.disk {
        // any other lookup error counts as "the link is there"
        dir.drops := dir.drops + 1;
      }
      return OK;
    }

    /** A visible link per top name of the payload, where there is none yet. */
    method CreateUserVisibleFiles(payload: map<Path, Content>) returns (e: Errno)
      requires dir.Valid() && [] !in payload
      modifies dir
      ensures dir.Onward()
      ensures SinceAdded(dir.trace, |old(dir.trace)|, old(dir.disk), Heads(payload.Keys))
      ensures LinksAdded(old(dir.disk), dir.disk, Heads(payload.Keys))
      ensures e == OK && dir.drops == old(dir.drops) ==> Heads(payload.Keys) <= dir.disk.Keys
      ensures e != OK ==> !dir.Smooth()
    {
      var todo := payload.Keys;
      while todo != {}
        invariant dir.Onward() && todo <= payload.Keys
        invariant SinceAdded(dir.trace, |old(dir.trace)|, old(dir.disk), Heads(payload.Keys))
        invariant LinksAdded(old(dir.disk), dir.disk, Heads(payload.Keys))
        invariant dir.drops == old(dir.drops) ==> forall p :: p in payload && p !in todo ==> p[0] in dir.disk
        decreases todo
      {
        var p :| p in todo;
        assert p[0] in Heads(payload.Keys);
        ghost var soFar, here := dir.trace, dir.disk;
        e := EnsureLink(p[0]);
        SinceAddedExtend(soFar, dir.trace, |old(dir.trace)|, old(dir.disk), here, dir.disk, Heads(payload.Keys), p[0]);
        if e != OK {
          return;
        }
        todo := todo - {p};
      }
      return OK;
    }

    /** Prunes the entries of top names that the payload no longer has. Reports the last error, but goes on. */
    method RemoveUserVisiblePaths(paths: set<Path>) returns (lasterr: Errno)
      requires dir.Valid()
      modifies dir
      ensures dir.Onward() && dir.drops == old(dir.drops)
      ensures SinceRemoved(dir.trace, |old(dir.trace)|, old(dir.disk), RootNames(paths))
      ensures EntriesRemoved(old(dir.disk), dir.disk, RootNames(paths))
      ensures lasterr == OK ==> RootNames(paths) !! dir.disk.Keys
      ensures dir.Smooth() ==> CleanOutcome(old(dir.disk), dir.disk, lasterr, RootNames(paths))
    {
      lasterr := OK;
      var todo := paths;
      while todo != {}
        invariant dir.Onward() && dir.drops == old(dir.drops) && todo <= paths
        invariant SinceRemoved(dir.trace, |old(dir.trace)|, old(dir.disk), RootNames(paths))
        invariant Pruning(old(dir.disk), dir.disk, lasterr, dir.Smooth(), RootNames(paths - todo), RootNames(paths))
        invariant forall p :: p in todo && |p| == 1 && p[0] in old(dir.disk) ==> p[0] in dir.disk
        decreases todo
      {
        var p :| p in todo;
        RootNamesOfMore(paths - todo, p);
        assert paths - (todo - {p}) == paths - todo + {p};
        ghost var done := RootNames(paths - todo);
        todo := todo - {p};
        if |p| == 1 {
          assert p == [p[0]] && p[0] in RootNames(paths);
          assert forall q :: q in todo && |q| == 1 && q[0] == p[0] ==> q == [q[0]] == p;
          ghost var here := dir.disk;
          var e := dir.Remove(p[0]);
          PruneStep(old(dir.disk), here, dir.disk, lasterr, e, dir.Smooth(), done, RootNames(paths), p[0]);
          if e != OK {
            lasterr := e;
          }
        }
      }
      assert paths - todo == paths;
    }

    /** Steps 5 and 6: the new directory with the payload in it. */
    method FillNewDir(payload: map<Path, Content>, candidate: string) returns (err: Errno)
      requires dir.Valid()
      modifies dir
      ensures dir.Onward() && dir.drops == old(dir.drops)
      ensures SinceOff(dir.trace, |old(dir.trace)|, old(dir.disk), {candidate})
      ensures dir.trace != old(dir.trace) || err == OK ==> Fresh(candidate, old(dir.disk))
      ensures err == OK ==> AntiChain(payload) && dir.disk == old(dir.disk)[candidate := Directory(TreeOf(payload))]
      ensures dir.Smooth() && AntiChain(payload) && Fresh(candidate, old(dir.disk)) ==> err == OK
      ensures dir.Smooth() && dir.trace == old(dir.trace) ==> !Fresh(candidate, old(dir.disk))
    {
      // (5)
      var r := dir.MkdirTemp(candidate);
      if r.Err? {
        return r.error;
      }
      ghost var d1, t := dir.disk, dir.trace;
      // (6)
      err := WritePayloadToDir(payload, candidate);
      SinceOffExtend(t, dir.trace, |old(dir.trace)|, old(dir.disk), d1, {candidate});
    }

    /** Steps 5 to 7: the new directory and the visible links. */
    method Stage(payload: map<Path, Content>, candidate: string) returns (err: Errno, ghost skipped: set<string>)
      requires dir.Valid()
      modifies dir
      ensures dir.Onward()
      ensures dir.trace != old(dir.trace) || err == OK ==> Fresh(candidate, old(dir.disk))
      ensures Stages(dir.trace, |old(dir.trace)|, |dir.trace|, old(dir.disk), Heads(payload.Keys), candidate)
      ensures TmpOnlyIf(dir.trace, |old(dir.trace)|, |dir.trace|, DATA_TMP in old(dir.disk).Keys + Heads(payload.Keys))
      ensures err == OK ==> AntiChain(payload) && Staged(old(dir.disk), dir.disk, payload, candidate, skipped)
      ensures dir.drops == old(dir.drops) ==> skipped == {}
      ensures dir.Smooth() && AntiChain(payload) && Fresh(candidate, old(dir.disk)) ==> err == OK
      ensures dir.Smooth() && dir.trace == old(dir.trace) ==> !Fresh(candidate, old(dir.disk))
    {
      ghost var n, t0, d0, names := |dir.trace|, dir.trace, dir.disk, Heads(payload.Keys);
      skipped := {};
      err := FillNewDir(payload, candidate);
      FilledStages(dir.trace, n, d0, names, candidate);
      if err != OK {
        return;
      }
      // (7)
      ghost var d1, t := dir.disk, dir.trace;
      err := CreateUserVisibleFiles(payload);
      LinkedStages(t, dir.trace, n, d0, d1, names, candidate);
      if err == OK {
        skipped := names - dir.disk.Keys;
      }
    }

    /** Steps 8 and 9: the temporary link to the new directory, renamed over the data link. */
    method Swap(ts: string) returns (err: Errno)
      requires dir.Valid() && ts in dir.disk
      requires DATA in dir.disk ==> dir.disk[DATA].Link?
      modifies dir
      ensures dir.Onward() && dir.drops == old(dir.drops)
      ensures err == OK ==> DATA_TMP !in old(dir.disk) && dir.disk == Renamed(old(dir.disk)[DATA_TMP := Link([ts])])
      ensures err == OK ==> dir.trace == old(dir.trace) + [old(dir.disk)[DATA_TMP := Link([ts])], dir.disk]
      ensures err != OK ==> Stages(dir.trace, |old(dir.trace)|, |dir.trace|, old(dir.disk) - {ts}, {}, ts)
      ensures err != OK && dir.Smooth() ==> DATA_TMP in old(dir.disk)
      ensures err != OK && (dir.Smooth() || (DATA_TMP !in old(dir.disk) && dir.faults <= old(dir.faults) + 1)) ==>
                AgreeOff(old(dir.disk), LastOf(dir.trace), {ts}) && ts !in LastOf(dir.trace)
      ensures DATA_TMP in old(dir.disk) ==> err != OK
    {
      // (8)
      err := dir.Symlink([ts], DATA_TMP);
      if err != OK {
        var _ := dir.RemoveAll(ts);
        return;
      }
      // (9)
      err := dir.RenameTmp();
      if err != OK {
        var _ := dir.Remove(DATA_TMP);
        ghost var here := dir.disk;
        var _ := dir.RemoveAll(ts);
      }
    }

    /** Steps 10 and 11: the stale entries and the previous directory go. */
    method CleanUp(toRemove: set<Path>, oldTs: Path) returns (err: Errno)
      requires dir.Valid()
      modifies dir
      ensures dir.Onward() && dir.drops == old(dir.drops)
      ensures CleanPhase(old(dir.trace), dir.trace, err, RootNames(toRemove), OldNames(oldTs))
      ensures dir.Smooth() ==> CleanOutcome(LastOf(old(dir.trace)), LastOf(dir.trace), err, RootNames(toRemove))
      // an entry that cannot be removed ends the call before step 11
      ensures dir.Smooth() && err != OK && |oldTs| == 1 && oldTs[0] in old(dir.disk) ==>
                oldTs[0] in dir.disk || oldTs[0] in RootNames(toRemove)
    {
      ghost var d0, n, t := dir.disk, |dir.trace|, dir.trace;
      ghost var stale, oldNames := RootNames(toRemove), OldNames(oldTs);
      // (10)
      err := RemoveUserVisiblePaths(toRemove);
      if err != OK {
        return;
      }
      // (11)
      ghost var d1 := dir.disk;
      t := dir.trace;
      if |oldTs| == 1 {
        err := dir.RemoveAll(oldTs[0]);
        PrunesOn(t, dir.trace, n, d0, stale, oldNames);
      }
    }

    /** Steps 5 to 9: on success the last state of the trace is the one after the swap. */
    method Install(payload: map<Path, Content>, candidate: string) returns (err: Errno, ghost skipped: set<string>)
      requires dir.Valid()
      requires DATA in dir.disk ==> dir.disk[DATA].Link?
      modifies dir
      ensures dir.Onward()
      ensures err == OK ==>
                SwapPhase(old(dir.disk), payload, candidate, skipped, dir.trace, |old(dir.trace)|)
      ensures dir.drops == old(dir.drops) ==> skipped == {}
      ensures err != OK && dir.trace != old(dir.trace) ==> Fresh(candidate, old(dir.disk))
      ensures dir.Smooth() && dir.trace == old(dir.trace) ==> !Fresh(candidate, old(dir.disk))
      ensures err != OK ==>
                Stages(dir.trace, |old(dir.trace)|, |dir.trace|, old(dir.disk), Heads(payload.Keys), candidate)
      ensures err != OK && dir.Smooth() ==>
                TmpOnlyIf(dir.trace, |old(dir.trace)|, |dir.trace|,
                          DATA_TMP in old(dir.disk).Keys + Heads(payload.Keys))
      ensures err != OK && dir.Smooth() && AntiChain(payload) && Fresh(candidate, old(dir.disk)) ==>
                Refused(old(dir.disk), LastOf(dir.trace), Heads(payload.Keys), candidate)
      ensures err != OK && dir.faults <= old(dir.faults) + 1
              && DATA_TMP !in old(dir.disk).Keys + Heads(payload.Keys) ==>
                TakenBack(old(dir.disk), dir.trace, |old(dir.trace)|, Heads(payload.Keys), candidate)
    {
      ghost var n, d0, names := |dir.trace|, dir.disk, Heads(payload.Keys);
      err, skipped := Stage(payload, candidate);
      if err != OK {
        return;
      }
      ghost var staged, t1 := dir.disk, dir.trace;
      err := Swap(candidate);
      if err == OK {
        SwapStages(t1, dir.trace, n, d0, staged, payload, candidate, skipped);
      } else {
        RefusedStages(t1, dir.trace, n, d0, staged, payload, candidate, skipped);
        if DATA_TMP !in d0.Keys + names && dir.faults <= old(dir.faults) + 1 {
          SwapIsTakenBack(t1, dir.trace, n, d0, staged, payload, candidate, skipped);
        }
      }
    }

    /** Steps 3 and 4: what the live directory has too much, and whether anything has to be written at all. */
    method Compare(clean: map<Path, Content>, oldTs: Path)
      returns (err: Errno, skip: bool, toRemove: set<Path>, ghost walked: set<Path>)
      requires dir.Valid()
      modifies dir`faults, dir`drops
      ensures dir.Onward()
      ensures walked <= WalkPaths(dir.disk, oldTs) && toRemove == walked - Closure(clean)
      ensures dir.drops == old(dir.drops) ==> walked == WalkPaths(dir.disk, oldTs)
      ensures err == OK && skip ==> Matches(dir.disk, oldTs, clean) && walked <= Closure(clean)
      ensures err == OK && !skip ==>
                || (Matches(dir.disk, oldTs, clean) && !(walked <= Closure(clean)))
                || SomeDiffers(dir.disk, oldTs, clean)
      ensures err != OK && dir.Smooth() ==> SomeClashes(dir.disk, oldTs, clean)
      ensures dir.Smooth() && Matches(dir.disk, oldTs, clean) && walked <= Closure(clean) ==> err == OK && skip
    {
      toRemove, walked := PathsToRemove(clean, oldTs);
      var should := ShouldWritePayload(clean, oldTs);
      if should.Err? {
        return should.error, false, toRemove, walked;
      }
      assert toRemove == {} <==> walked <= Closure(clean) by {
        if toRemove == {} {
          assert forall p :: p in walked ==> p !in toRemove;
        }
      }
      return OK, !should.value && toRemove == {}, toRemove, walked;
    }

    method Write(payload: map<string, Content>, candidate: string) returns (err: Errno, ghost a: Attempt)
      requires dir.Valid()
      modifies dir
      ensures dir.Onward()
      ensures a.start == old(dir.disk) && a.End() == dir.disk && dir.trace == old(dir.trace) + a.states
      ensures a.ts == candidate && a.err == err && a.faults == dir.faults - old(dir.faults)
      ensures !AllAccepted(payload) ==> a.Rejected()
      ensures AllAccepted(payload) ==> CleanOf(payload, a.clean) && a.Updates()
      ensures dir.drops == old(dir.drops) ==> a.SeesAll()
    {
      // (1)
      var ok, clean := ValidatePayload(payload);
      if !ok {
        a := Attempt(dir.disk, clean, candidate, WalkPaths(dir.disk, DataTarget(dir.disk)), {}, [], 0, INVALID_PATH, 0);
        return INVALID_PATH, a;
      }
      err, a := Update(clean, candidate);
    }

    /** Steps 2 to 4: what the data link leads to, and whether the call is `done`. */
    method Decide(clean: map<Path, Content>, ghost candidate: string)
      returns (done: bool, err: Errno, oldTs: Path, toRemove: set<Path>, ghost walked: set<Path>)
      requires dir.Valid()
      modifies dir`faults, dir`drops
      ensures dir.Onward()
      ensures done ==>
                Attempt(dir.disk, clean, candidate, walked, {}, [], 0, err, dir.faults - old(dir.faults)).Updates()
      ensures !done ==>
                && oldTs == DataTarget(dir.disk) && GoesOn(dir.disk, clean, walked)
                && toRemove == walked - Closure(clean) && walked <= WalkPaths(dir.disk, oldTs)
      ensures dir.drops == old(dir.drops) ==> walked == WalkPaths(dir.disk, DataTarget(dir.disk))
    {
      // (2)
      done, err, oldTs, toRemove, walked := false, OK, [], {}, {};
      var link := dir.Readlink(DATA);
      if link.Err? && link.error != ENOENT {
        walked := WalkPaths(dir.disk, DataTarget(dir.disk));
        EndsAtOnce(Attempt(dir.disk, clean, candidate, walked, {}, [], 0, link.error, dir.faults - old(dir.faults)));
        return true, link.error, oldTs, toRemove, walked;
      }
      if link.Ok? {
        oldTs := link.value;
      }
      if oldTs != [] {
        // (3), (4)
        err, done, toRemove, walked := Compare(clean, oldTs);
        if err != OK || done {
          EndsAtOnce(Attempt(dir.disk, clean, candidate, walked, {}, [], 0, err, dir.faults - old(dir.faults)));
          done := true;
        }
      }
    }

    /** Steps 2 to 11. */
    method Update(clean: map<Path, Content>, candidate: string) returns (err: Errno, ghost a: Attempt)
      requires dir.Valid()
      modifies dir
      ensures dir.Onward()
      ensures a.start == old(dir.disk) && a.clean == clean && a.ts == candidate && a.err == err
      ensures a.End() == LastOf(dir.trace) && dir.trace == old(dir.trace) + a.states
      ensures a.faults == dir.faults - old(dir.faults) && a.Updates()
      ensures dir.drops == old(dir.drops) ==> a.SeesAll()
    {
      // (2) to (4)
      var done, oldTs, toRemove;
      ghost var walked;
      done, err, oldTs, toRemove, walked := Decide(clean, candidate);
      if done {
        a := Attempt(dir.disk, clean, candidate, walked, {}, [], 0, err, dir.faults - old(dir.faults));
        return err, a;
      }
      err, a := Publish(clean, oldTs, toRemove, walked, candidate, old(dir.faults), old(dir.drops));
    }

    /** Steps 5 to 11 of a call that began with the counts `faults0` and `drops0`. */
    method Publish(clean: map<Path, Content>, oldTs: Path, toRemove: set<Path>, ghost walked: set<Path>,
                   candidate: string, ghost faults0: nat, ghost drops0: nat)
      returns (err: Errno, ghost a: Attempt)
      requires dir.Valid() && faults0 <= dir.faults && drops0 <= dir.drops
      requires dir.faults == faults0 ==> dir.drops == drops0
      requires oldTs == DataTarget(dir.disk) && GoesOn(dir.disk, clean, walked)
      requires toRemove == walked - Closure(clean) && walked <= WalkPaths(dir.disk, oldTs)
      requires dir.drops == drops0 ==> walked == WalkPaths(dir.disk, oldTs)
      modifies dir
      ensures dir.Onward()
      ensures a.start == old(dir.disk) && a.clean == clean && a.ts == candidate && a.err == err
      ensures a.End() == LastOf(dir.trace) && dir.trace == old(dir.trace) + a.states
      ensures a.faults == dir.faults - faults0 && a.Updates()
      ensures dir.drops == drops0 ==> a.SeesAll()
    {
      ghost var d0, t0, n := dir.disk, dir.trace, |dir.trace|;
      // (5) to (9)
      ghost var skipped;
      err, skipped := Install(clean, candidate);
      if err != OK {
        a := Attempt(d0, clean, candidate, walked, {}, dir.trace[n..], |dir.trace| - n, err, dir.faults - faults0);
        assert |t0| > 0 && t0[|t0| - 1] == a.start;
        EndsBeforeSwap(a, t0, dir.trace);
        return err, a;
      }
      // (10), (11)
      ghost var t2 := dir.trace;
      err := CleanUp(toRemove, oldTs);
      a := Attempt(d0, clean, candidate, walked, skipped, dir.trace[n..], |t2| - n - 1, err, dir.faults - faults0);
      assert |t0| > 0 && t0[|t0| - 1] == a.start && t0 <= t2;
      assert a.Stale() == RootNames(toRemove) && DataTarget(a.start) == oldTs;
      EndsAfterSwap(a, t0, t2, dir.trace);
    }
  }
}

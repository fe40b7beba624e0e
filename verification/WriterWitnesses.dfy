/**
 Where the writer falls short of its promise, with inputs: reserved names that the path check lets through, a link
 whose lookup failed, and a directory that Walk could not read.
 */
module WriterWitnesses {
  import opened Contents
  import opened PathCleaning
  import opened Disk
  import opened FileSystem
  import opened AtomicWriter
  import opened Publication
  import opened WriterRuns

  // ----- First calls, state by state -----

  lemma AllParts(a: Attempt)
    requires a.commit <= |a.states| && a.Decides() && a.Prepares() && a.Commits() && a.CleansUp()
    ensures a.Updates()
  {
    forall p ensures a.Obeys(p) {
      match p {
        case Deciding =>
        case Preparing =>
        case Committing =>
        case CleaningUp =>
      }
    }
  }

  /** The new directory before and after it is filled with the one file `n`, and with its link. */
  function EmptyDir(ts: string): Disk
  {
    map[ts := Directory(map[])]
  }

  function FilledDir(n: string, ts: string): Disk
  {
    map[ts := Directory(TreeOf(map[[n] := EMPTY]))]
  }

  function WithLink(n: string, d: Disk): Disk
  {
    d[n := Link([DATA, n])]
  }

  function WithTmp(ts: string, d: Disk): Disk
  {
    d[DATA_TMP := Link([ts])]
  }

  /** A first call for the one file `n` on an empty directory; without `linked` the lookup of its link fails. */
  function FirstCallOf(n: string, ts: string, linked: bool): Attempt
  {
    var d2 := FilledDir(n, ts);
    var d3 := if linked then WithLink(n, d2) else d2;
    var states := [EmptyDir(ts), d2] + (if linked then [d3] else []) + [WithTmp(ts, d3), Renamed(WithTmp(ts, d3))];
    Attempt(map[], map[[n] := EMPTY], ts, {}, if linked then {} else {n}, states, |states| - 1, OK,
            if linked then 0 else 1)
  }

  /** The same call when the symlink of step 8 fails and the new directory is taken apart again. */
  function FailedCallOf(n: string, ts: string): Attempt
  {
    var d3 := WithLink(n, FilledDir(n, ts));
    var states := [EmptyDir(ts), FilledDir(n, ts), d3, WithLink(n, EmptyDir(ts)), d3 - {ts}];
    Attempt(map[], map[[n] := EMPTY], ts, {}, {}, states, |states|, EIO, 1)
  }

  /** The same call when step 9 fails, and so does the removal of the temporary link after it. */
  function FailedTwiceCallOf(n: string, ts: string): Attempt
  {
    var d3 := WithLink(n, FilledDir(n, ts));
    var states := [EmptyDir(ts), FilledDir(n, ts), d3, WithTmp(ts, d3), WithTmp(ts, WithLink(n, EmptyDir(ts))),
                   WithTmp(ts, d3) - {ts}];
    Attempt(map[], map[[n] := EMPTY], ts, {}, {}, states, |states|, EIO, 2)
  }

  lemma FirstCallDecides(n: string, ts: string, linked: bool)
    requires IsTsName(ts)
    ensures FirstCallOf(n, ts, linked).Decides()
  {
  }

  lemma FirstStates(n: string, ts: string, linked: bool)
    requires IsTsName(ts) && n != ts && n != DATA_TMP
    ensures var d3 := if linked then WithLink(n, FilledDir(n, ts)) else FilledDir(n, ts);
      && Staging(map[], d3, {n}, ts) && Staging(map[], WithTmp(ts, d3), {n}, ts) && DATA_TMP !in d3
    ensures Staging(map[], EmptyDir(ts), {n}, ts) && Staging(map[], FilledDir(n, ts), {n}, ts)
  {
  }

  lemma FirstCallPrepares(n: string, ts: string, linked: bool)
    requires IsTsName(ts) && n != ts && n != DATA_TMP
    ensures FirstCallOf(n, ts, linked).Prepares()
  {
    var a := FirstCallOf(n, ts, linked);
    OneName(a, n);
    FirstStates(n, ts, linked);
    var d3 := if linked then WithLink(n, FilledDir(n, ts)) else FilledDir(n, ts);
    forall i | 0 <= i < a.commit
      ensures Staging(a.start, a.states[i], a.Names(), ts)
      ensures DATA_TMP in a.states[i] ==> i == a.commit - 1
    {
      assert a.states[i] ==
             if i == 0 then EmptyDir(ts) else if i == 1 then FilledDir(n, ts)
             else if i == a.commit - 1 then WithTmp(ts, d3) else d3;
    }
  }

  lemma FirstCallEnds(n: string, ts: string, linked: bool)
    requires IsTsName(ts) && n != ts && n != DATA_TMP
    ensures var a := FirstCallOf(n, ts, linked);
      && a.End() == a.states[a.commit] && a.commit + 1 == |a.states|
      && (n != DATA ==> (n in a.End() <==> linked)) && ts in a.End() && DATA in a.End() && a.End()[DATA] == Link([ts])
  {
  }

  lemma FirstCallCommits(n: string, ts: string, linked: bool)
    requires IsTsName(ts) && n != ts && n != DATA_TMP
    ensures FirstCallOf(n, ts, linked).Commits()
  {
    var a := FirstCallOf(n, ts, linked);
    OneName(a, n);
    assert a.states[a.commit - 1] == WithTmp(ts, if linked then WithLink(n, FilledDir(n, ts)) else FilledDir(n, ts));
    assert a.states[a.commit] == Renamed(a.states[a.commit - 1]);
  }

  lemma FirstCallUpdates(n: string, ts: string, linked: bool)
    requires IsTsName(ts) && n != ts && n != DATA_TMP
    ensures FirstCallOf(n, ts, linked).Updates()
  {
    var a := FirstCallOf(n, ts, linked);
    FirstCallDecides(n, ts, linked);
    FirstCallPrepares(n, ts, linked);
    FirstCallCommits(n, ts, linked);
    FirstCallEnds(n, ts, linked);
    assert a.Stale() == {};
    AllParts(a);
  }

  lemma FailedCallHasNoTmp(n: string, ts: string)
    requires IsTsName(ts) && n != ts && n != DATA_TMP
    ensures TakenBack(map[], FailedCallOf(n, ts).states, 0, {n}, ts)
  {
    forall i | 0 <= i < 5 ensures DATA_TMP !in FailedCallOf(n, ts).states[i] {
    }
  }

  lemma FailedCallUpdates(n: string, ts: string)
    requires IsTsName(ts) && n != ts && n != DATA_TMP
    ensures FailedCallOf(n, ts).Updates()
  {
    OneName(FailedCallOf(n, ts), n);
    FailedCallHasNoTmp(n, ts);
    AllParts(FailedCallOf(n, ts));
  }

  lemma FailedTwiceUpdates(n: string, ts: string)
    requires IsTsName(ts) && n != ts && n != DATA_TMP
    ensures FailedTwiceCallOf(n, ts).Updates()
  {
    OneName(FailedTwiceCallOf(n, ts), n);
    AllParts(FailedTwiceCallOf(n, ts));
  }

  // ----- The name of the data link -----

  /**
   Two successful calls on any directory: once a payload with a file "..data" is in place, the next update without one
   removes the data link, and the reader sees nothing.
   */
  lemma DataNameIsErased(a1: Attempt, a2: Attempt)
    requires PlainUpdate(a1) && a1.Renames() && DATA in a1.Names()
    requires a2.start == a1.End() && PlainUpdate(a2) && a2.Renames() && DATA !in a2.Names()
    ensures DATA !in a2.End() && ViewIs(a2.End(), map[])
  {
    LiveAfterUpdate(a1);
    DroppedDataErasesTheView(a2);
  }

  lemma LiveAfterUpdate(a: Attempt)
    requires PlainUpdate(a) && a.Renames() && DATA !in Dropped(a)
    ensures Heads(LiveTree(a.End()).Keys) == a.Names()
  {
    SucceedsIff(a);
    var i: nat := |a.states| - 1;
    PrunedState(a, i);
    assert a.End() == a.states[i];
    HeadsOfFiles(LiveTree(a.End()));
  }

  /** A first call on an empty directory, for a payload of one file, ends with that file alone. */
  lemma FirstCall(a: Attempt, n: string)
    requires a.Updates() && !a.Faulted() && a.start == map[] && IsTsName(a.ts)
    requires a.clean == map[[n] := EMPTY] && n != DATA_TMP
    ensures PlainUpdate(a) && a.Renames() && a.err == OK && DATA_TMP !in a.End()
    ensures a.End().Keys <= {DATA, n, a.ts} && HasLive(a.End()) && LiveTree(a.End()) == TreeOf(a.clean)
  {
    assert PlainUpdate(a);
    OneName(a, n);
    RenamesIff(a);
    assert Dropped(a) == {};
    SucceedsIff(a);
    var i: nat := |a.states| - 1;
    assert a.End() == a.states[i];
    PrunedState(a, i);
    FirstNames(a, n, i);
  }

  lemma OneName(a: Attempt, n: string)
    requires a.clean == map[[n] := EMPTY]
    ensures a.Names() == {n}
  {
    assert [n] in a.clean && [n][0] == n;
  }

  lemma FirstNames(a: Attempt, n: string, i: nat)
    requires a.Updates() && a.start == map[] && a.Names() == {n} && a.commit <= i < |a.states|
    ensures DATA_TMP !in a.states[i] && a.states[i].Keys <= {DATA, n, a.ts}
  {
    assert a.Obeys(Committing) && a.Obeys(CleaningUp);
    assert Pruned(a.states[a.commit], a.states[i], a.Stale(), OldNames(DataTarget(a.start)));
  }

  lemma OnlyDataIsLive(d: Disk, n: string)
    requires Served(d) && HasLive(d) && LiveTree(d) == TreeOf(map[[DATA] := EMPTY]) && n != DATA
    ensures Heads(LiveTree(d).Keys) == {DATA} && LookupTree(LiveTree(d), [n]) == Missing
    ensures [n] !in LiveFiles(d)
  {
    var m := map[[DATA] := EMPTY];
    TreeOfIsPayloadTree(m);
    assert [DATA] in m && [DATA][0] == DATA && [n] !in m;
    assert [n] !in Closure(m);
    assert [n][..1] == [n];
  }

  lemma NothingInTheWay(d: Disk, n: string, ts: string)
    requires Served(d) && HasLive(d) && Fresh(ts, d) && LookupTree(LiveTree(d), [n]) == Missing
    ensures !HasObstacle(d, map[[n] := EMPTY], ts)
  {
    LookupBelow(d, LiveName(d), [n]);
    assert forall p :: p in map[[n] := EMPTY] ==> p == [n];
  }

  lemma SecondCall(a: Attempt, n: string)
    requires a.Updates() && !a.Faulted() && Served(a.start) && HasLive(a.start) && IsTsName(a.ts) && a.ts !in a.start
    requires DATA_TMP !in a.start && LiveTree(a.start) == TreeOf(map[[DATA] := EMPTY])
    requires a.clean == map[[n] := EMPTY] && n != DATA && !Hidden(n)
    ensures PlainUpdate(a) && a.Renames() && a.err == OK && DATA !in a.Names()
  {
    OnlyDataIsLive(a.start, n);
    NothingInTheWay(a.start, n, a.ts);
    OneName(a, n);
    assert [n] in a.clean && LiveFiles(a.start) != a.clean;
    assert PlainUpdate(a);
    RenamesIff(a);
    SucceedsIff(a);
  }

  lemma OneFile(raw: string, n: string, clean: map<Path, Content>)
    requires CleanOf(map[raw := EMPTY], clean) && Components(raw) == [n]
    ensures clean == map[[n] := EMPTY]
  {
    assert raw in map[raw := EMPTY];
    assert forall p :: p in clean ==> p == [n] && clean[p] == EMPTY;
    assert [n] in clean;
  }

  lemma PayloadsAreAccepted()
    ensures AllAccepted(map["./..data" := EMPTY]) && Components("./..data") == [DATA]
    ensures AllAccepted(map["a" := EMPTY]) && Components("a") == ["a"]
  {
    ReservedNameSlipsThrough();
    PlainNameIsClean("a");
  }

  /**
   The writer itself, on an empty directory, with payloads it accepts: without any fault both calls report success,
   and afterwards the file that the second one wrote cannot be seen.
   */
  method ReservedNameErasesTheView() returns (err1: Errno, err2: Errno, ghost disk: Disk, ghost faults: nat)
    ensures faults == 0 ==> err1 == OK && err2 == OK && DATA !in disk && Lookup(disk, ["a"]) == Missing
  {
    var dir := new FileSystem(map[]);
    var writer := new Writer(dir);
    ghost var a1, a2;
    PayloadsAreAccepted();
    err1, a1 := writer.Write(map["./..data" := EMPTY], "..1");
    ghost var quiet := dir.faults == 0;
    if quiet {
      OneFile("./..data", DATA, a1.clean);
      FirstCall(a1, DATA);
    }
    err2, a2 := writer.Write(map["a" := EMPTY], "..2");
    disk, faults := dir.disk, dir.faults;
    if faults == 0 {
      OneFile("a", "a", a2.clean);
      ErasedFile(a1, a2);
    }
  }

  lemma ErasedFile(a1: Attempt, a2: Attempt)
    requires a1.Updates() && !a1.Faulted() && a1.start == map[] && a1.ts == "..1" && a1.clean == map[[DATA] := EMPTY]
    requires a2.Updates() && !a2.Faulted() && a2.start == a1.End() && a2.ts == "..2" && a2.clean == map[["a"] := EMPTY]
    ensures a1.err == OK && a2.err == OK && DATA !in a2.End() && Lookup(a2.End(), ["a"]) == Missing
  {
    FirstCall(a1, DATA);
    EachState(a1, |a1.states|);
    SecondCall(a2, "a");
    OneName(a1, DATA);
    DataNameIsErased(a1, a2);
    EachState(a2, |a2.states|);
    var d := a2.End();
    if "a" in d {
      assert d["a"] == Link([DATA, "a"]);
      assert ([DATA, "a"] + ["a"][1..])[0] == DATA;
    }
  }

  /**
   A first call for such a payload makes a data link to itself in step 7, and only the rename replaces it: a crash
   before the rename leaves it behind, and so does an error in steps 7 to 9.
   */
  lemma SelfLinkArises(a: Attempt, cut: nat)
    requires a.Updates() && DATA !in a.start && cut <= a.commit
    ensures DATA in a.At(cut) ==> a.At(cut)[DATA] == SELF_LINK && DATA in a.Names()
  {
    if cut > 0 {
      assert a.Obeys(Preparing);
      assert Staging(a.start, a.states[cut - 1], a.Names(), a.ts);
    }
  }

  /** The first call for the payload "..data" alone, on an empty directory; its third state has the link to itself. */
  function FirstDataCall(): Attempt
  {
    FirstCallOf(DATA, "..1", true)
  }

  /** The same call when the symlink of step 8 fails: the new directory goes, the link to itself stays. */
  function FailedDataCall(): Attempt
  {
    FailedCallOf(DATA, "..1")
  }

  /** Both ways are real: a crash after the third step, and a call that returns its error. */
  lemma SelfLinkIsReached()
    ensures Run(map[], [Step(FirstDataCall(), 3)]) && FirstDataCall().At(3)[DATA] == SELF_LINK
    ensures Run(map[], [Step(FailedDataCall(), 5)]) && FailedDataCall().err != OK
    ensures FailedDataCall().End() == map[DATA := SELF_LINK]
  {
    FirstCallUpdates(DATA, "..1", true);
    FailedCallUpdates(DATA, "..1");
    OneStepRun(FirstDataCall(), 3);
    OneStepRun(FailedDataCall(), 5);
  }

  /**
   From then on every call with a payload that is not empty fails at once, and the link stays: nothing but a call for
   the empty payload succeeds, and that one changes nothing.
   */
  lemma SelfLinkBlocksForGood(a: Attempt)
    requires a.Updates() && Served(a.start) && DATA in a.start && a.start[DATA] == SELF_LINK
    ensures a.states == [] && a.End() == a.start
    ensures a.err == OK ==> a.clean == map[]
  {
    assert a.Obeys(Deciding) && a.Obeys(Preparing);
    if a.clean != map[] {
      SelfLinkIsNoFile(a.start, a.clean);
    }
  }

  lemma SelfLinkIsNoFile(d: Disk, m: map<Path, Content>)
    requires DATA in d && d[DATA] == SELF_LINK && m != map[]
    ensures !Matches(d, DataTarget(d), m) && !SomeDiffers(d, DataTarget(d), m)
  {
    forall q | q in m ensures Lookup(d, DataTarget(d) + q) == Loop {
      assert [DATA, DATA] + q == [DATA] + ([DATA] + q);
      SelfLinkLoops(d, [DATA] + q, MAX_LINKS);
    }
    var p :| p in m;
    assert Lookup(d, DataTarget(d) + p) == Loop;
  }

  // ----- The name of the temporary link -----

  /** A payload with a file "..data_tmp" cannot be written, and blocks every later update. */
  lemma TmpNameBlocksForGood(a1: Attempt, a2: Attempt)
    requires PlainUpdate(a1) && DATA_TMP in a1.Names()
    requires a2.start == a1.End() && a2.Updates() && !(a2.err == OK && a2.states == [])
    ensures a1.err != OK && SameLive(a1.start, a1.End()) && DATA_TMP in a1.End()
    ensures a2.err != OK && SameLive(a1.start, a2.End())
  {
    RenamesIff(a1);
    BeforeRename(a1, |a1.states|);
    assert a1.Obeys(Deciding) && a1.Obeys(Preparing);
    SkipsIff(a1);
    TmpBlocks(a2, |a2.states|);
  }

  /** Two failures in one call are enough to block: the rename, and the removal of the link that it should replace. */
  lemma TwoFailuresLeaveTheLink(a: Attempt)
    requires a.start == FailedTwiceCallOf("a", "..1").End() && a.Updates() && a.clean != map[]
    ensures Run(map[], [Step(FailedTwiceCallOf("a", "..1"), 6)]) && FailedTwiceCallOf("a", "..1").faults == 2
    ensures DATA_TMP in a.start && a.err != OK && LiveFiles(a.End()) == map[]
  {
    FailedTwiceUpdates("a", "..1");
    OneStepRun(FailedTwiceCallOf("a", "..1"), 6);
    assert Served(a.start) && DATA !in a.start;
    assert a.Obeys(Deciding);
    TmpBlocks(a, |a.states|);
  }

  // ----- A link whose lookup failed -----

  /** A first call for a payload of the one file "a": the lookup of the link fails, and nothing else. */
  function DroppedLink(): Attempt
  {
    FirstCallOf("a", "..1", false)
  }

  /** The call reports success, the whole payload is in the live directory, and the reader does not see it. */
  lemma DroppedLinkHidesAFile()
    ensures var a := DroppedLink();
      && Run(map[], [Step(a, |a.states|)]) && a.err == OK
      && ["a"] in LiveFiles(a.End()) && Lookup(a.End(), ["a"]) == Missing && !ViewIs(a.End(), a.clean)
  {
    var a := DroppedLink();
    FirstCallUpdates("a", "..1", false);
    OneStepRun(a, |a.states|);
    assert Served(a.start);
    EachState(a, |a.states|);
    FirstCallEnds("a", "..1", false);
    assert ["a"] in a.clean;
    assert !ReadsAs(a.End(), a.clean, ["a"]);
  }

  // ----- A directory that Walk could not read -----

  /** A directory in which `m` is live under `ts`. */
  function LiveDisk(ts: string, m: map<Path, Content>): Disk
  {
    (map n | n in Heads(m.Keys) :: Link([DATA, n])) + map[DATA := Link([ts]), ts := Directory(TreeOf(m))]
  }

  lemma LiveDiskIsLive(ts: string, m: map<Path, Content>)
    requires IsTsName(ts) && Unreserved(m)
    ensures HasLive(LiveDisk(ts, m)) && LiveName(LiveDisk(ts, m)) == ts && LiveTree(LiveDisk(ts, m)) == TreeOf(m)
  {
  }

  lemma LiveDiskLinks(ts: string, m: map<Path, Content>)
    requires IsTsName(ts) && Unreserved(m)
    ensures LinksOk(LiveDisk(ts, m)) && Heads(m.Keys) <= LiveDisk(ts, m).Keys
  {
    HeadsVisible(m);
    assert Hidden(DATA);
  }

  lemma LiveDiskHolds(ts: string, m: map<Path, Content>)
    requires IsTsName(ts) && AntiChain(m) && Unreserved(m)
    ensures Holds(LiveDisk(ts, m), m)
  {
    LiveDiskIsLive(ts, m);
    LiveDiskLinks(ts, m);
    TreeOfIsPayloadTree(m);
  }

  const TWO_FILES: map<Path, Content> := map[["a"] := EMPTY, ["b"] := EMPTY]

  /** "a" and "b" are live, the new payload is "a" alone, and the live directory cannot be read. */
  function DroppedWalk(): Attempt
  {
    Attempt(LiveDisk("..1", TWO_FILES), map[["a"] := EMPTY], "..2", {}, {}, [], 0, OK, 1)
  }

  lemma TwoFilesAreLive()
    ensures var d := DroppedWalk().start;
      Holds(d, TWO_FILES) && HasLive(d) && LiveTree(d) == TreeOf(TWO_FILES) && PayloadTree(LiveTree(d))
  {
    LiveDiskIsLive("..1", TWO_FILES);
    LiveDiskHolds("..1", TWO_FILES);
  }

  lemma AIsInPlace(d: Disk)
    requires Holds(d, TWO_FILES) && HasLive(d)
    ensures Matches(d, DataTarget(d), map[["a"] := EMPTY]) && WalkPaths(d, DataTarget(d)) == LiveTree(d).Keys
    ensures DataTarget(d) != []
  {
    MatchesLive(d, map[["a"] := EMPTY]);
    LookupClosed(LiveTree(d), ["a"]);
    assert ["a"] in TWO_FILES;
  }

  lemma DroppedWalkFollows()
    ensures DroppedWalk().Updates()
  {
    TwoFilesAreLive();
    AIsInPlace(DroppedWalk().start);
    AllParts(DroppedWalk());
  }

  lemma LiveFileIsSeen(d: Disk, m: map<Path, Content>, p: Path, other: map<Path, Content>)
    requires Holds(d, m) && p in m && p != [] && !Reserved(p) && p !in other
    ensures Lookup(d, p) == IsFile(m[p]) && !ViewIs(d, other)
  {
    InvView(d);
    assert ReadsAs(d, m, p);
    assert !ReadsAs(d, other, p);
  }

  /** The call skips the update with success, and the file that should go is still shown. */
  lemma DroppedWalkKeepsAFile()
    ensures var a := DroppedWalk();
      && Inv(a.start) && Run(a.start, [Step(a, 0)]) && a.err == OK && a.End() == a.start
      && ["b"] !in a.clean && Lookup(a.start, ["b"]) == IsFile(EMPTY) && !ViewIs(a.start, a.clean)
  {
    TwoFilesAreLive();
    LiveFileIsSeen(DroppedWalk().start, TWO_FILES, ["b"], DroppedWalk().clean);
    DroppedWalkFollows();
    OneStepRun(DroppedWalk(), 0);
  }

  lemma OneStepRun(a: Attempt, cut: nat)
    requires a.Updates() && (a.Renames() ==> DrawsNewName(a)) && cut <= |a.states|
    ensures Run(a.start, [Step(a, cut)])
  {
    assert Run(a.At(cut), []);
    assert [Step(a, cut)][1..] == [];
  }
}

/**
 Runs of the atomic writer: any number of calls with any payloads, each of which may succeed, fail, ignore errors, or
 be cut off by a crash between two file operations.
 */
module WriterRuns {
  import opened Contents
  import opened PathCleaning
  import opened Disk
  import opened FileSystem
  import opened AtomicWriter
  import opened Publication

  /** A call of which only the first `cut` steps happened; `cut == |attempt.states|` when it returned. */
  datatype Step = Step(attempt: Attempt, cut: nat)

  ghost predicate Run(d: Disk, steps: seq<Step>)
    decreases |steps|
  {
    steps == [] ||
    (var Step(a, cut) := steps[0];
     && a.start == d && cut <= |a.states| && a.Follows()
     && (a.Renames() ==> DrawsNewName(a))
     && Run(a.At(cut), steps[1..]))
  }

  ghost function Last(d: Disk, steps: seq<Step>): Disk
    requires Run(d, steps)
    decreases |steps|
  {
    if steps == [] then d else Last(steps[0].attempt.At(steps[0].cut), steps[1..])
  }

  // ----- Safety, with no premise on payloads, faults or ignored errors -----

  /** The payload of the last rename; nothing if step 10 removed the data link after it. */
  function Committed(files: map<Path, Content>, steps: seq<Step>): map<Path, Content>
    requires forall i :: 0 <= i < |steps| ==> steps[i].cut <= |steps[i].attempt.states|
    decreases |steps|
  {
    if steps == [] then files
    else
      var Step(a, cut) := steps[0];
      Committed(if cut <= a.commit then files else if DATA in a.At(cut) then a.clean else map[], steps[1..])
  }

  lemma {:induction false} RunCuts(d: Disk, steps: seq<Step>)
    requires Run(d, steps)
    ensures forall i :: 0 <= i < |steps| ==> steps[i].cut <= |steps[i].attempt.states|
    decreases |steps|
  {
    if steps == [] {
    } else {
      RunCuts(steps[0].attempt.At(steps[0].cut), steps[1..]);
      assert forall i :: 0 < i < |steps| ==> steps[i] == steps[1..][i - 1];
    }
  }

  /**
   However the calls, faults, ignored errors and crashes fall: the reader sees files of one payload only, the last one
   whose rename happened, and of that payload exactly the files whose top name has its link and is not reserved.
   */
  lemma {:induction false} RunIsSafe(d: Disk, steps: seq<Step>)
    requires Served(d) && Run(d, steps)
    requires forall i :: 0 <= i < |steps| ==> steps[i].cut <= |steps[i].attempt.states|
    ensures Served(Last(d, steps)) && LiveFiles(Last(d, steps)) == Committed(LiveFiles(d), steps)
    ensures ViewIs(Last(d, steps), Shown(Last(d, steps)))
    decreases |steps|
  {
    if steps == [] {
      ShownIsView(d);
    } else {
      var Step(a, cut) := steps[0];
      EachState(a, cut);
      assert forall i :: 0 <= i < |steps[1..]| ==> steps[1..][i] == steps[i + 1];
      RunIsSafe(a.At(cut), steps[1..]);
    }
  }

  // ----- When everything is shown -----

  /** The payload of the last rename. */
  function LastRenamed(files: map<Path, Content>, steps: seq<Step>): map<Path, Content>
    decreases |steps|
  {
    if steps == [] then files
    else
      var Step(a, cut) := steps[0];
      LastRenamed(if cut <= a.commit then files else a.clean, steps[1..])
  }

  /** A payload that leaves the name of the data link alone, whose links were all looked up. */
  predicate Careful(s: Step)
  {
    DATA !in s.attempt.Names() && s.attempt.skipped == {}
  }

  /** All of the live files are shown, and none of them has the name of the data link. */
  ghost predicate FullyShown(d: Disk)
  {
    Served(d) && LiveLinked(d) && DATA !in Heads(LiveTree(d).Keys)
  }

  lemma RenamedIsShown(a: Attempt, cut: nat)
    requires a.Updates() && FullyShown(a.start) && DrawsNewName(a) && a.commit < cut <= |a.states|
    requires DATA !in a.Names() && a.skipped == {}
    ensures FullyShown(a.At(cut)) && LiveFiles(a.At(cut)) == a.clean
  {
    var i: nat := cut - 1;
    StaleAreOld(a);
    PrunedState(a, i);
    NewViewAt(a, i);
    ViewNeedsEveryLink(a.states[i]);
    TreeOfIsPayloadTree(a.clean) by { assert a.Obeys(Committing); }
    assert a.At(cut) == a.states[i];
  }

  lemma StepStaysShown(a: Attempt, cut: nat)
    requires a.Follows() && FullyShown(a.start) && (a.Renames() ==> DrawsNewName(a)) && cut <= |a.states|
    requires DATA !in a.Names() && (cut > a.commit ==> a.skipped == {})
    ensures FullyShown(a.At(cut))
    ensures LiveFiles(a.At(cut)) == if cut <= a.commit then LiveFiles(a.start) else a.clean
  {
    EachState(a, cut);
    if a.Rejected() {
    } else if cut <= a.commit {
      BeforeRename(a, cut);
    } else {
      RenamedIsShown(a, cut);
    }
  }

  /**
   The view is all of the last renamed payload, in every reachable state, as long as no failed link lookup was ignored
   and no payload has a file "..data". Other reserved names, faults, crashes and unreadable directories do not matter.
   */
  lemma {:induction false} CarefulRunIsComplete(d: Disk, steps: seq<Step>)
    requires FullyShown(d) && Run(d, steps) && forall i :: 0 <= i < |steps| ==> Careful(steps[i])
    ensures FullyShown(Last(d, steps)) && LiveFiles(Last(d, steps)) == LastRenamed(LiveFiles(d), steps)
    ensures ViewIs(Last(d, steps), LastRenamed(LiveFiles(d), steps))
    decreases |steps|
  {
    if steps == [] {
      ViewNeedsEveryLink(d);
    } else {
      var Step(a, cut) := steps[0];
      assert Careful(steps[0]);
      StepStaysShown(a, cut);
      assert forall i :: 0 <= i < |steps[1..]| ==> steps[1..][i] == steps[i + 1];
      CarefulRunIsComplete(a.At(cut), steps[1..]);
    }
  }

  /** With the documented premise, no reserved names at all, every reachable state keeps the full invariant. */
  lemma {:induction false} UnreservedRunKeepsInv(d: Disk, steps: seq<Step>)
    requires Inv(d) && Run(d, steps)
    requires forall i :: 0 <= i < |steps| ==> Unreserved(steps[i].attempt.clean) && steps[i].attempt.skipped == {}
    ensures Holds(Last(d, steps), LastRenamed(LiveFiles(d), steps))
    ensures DATA in Last(d, steps) ==> HasLive(Last(d, steps))
    decreases |steps|
  {
    if steps == [] {
    } else {
      var Step(a, cut) := steps[0];
      ManagedState(a, cut);
      assert forall i :: 0 <= i < |steps[1..]| ==> steps[1..][i] == steps[i + 1];
      UnreservedRunKeepsInv(a.At(cut), steps[1..]);
    }
  }

  // ----- Recovery -----

  /**
   After any run, a fault-free call with a writable payload that has to write puts the payload in place and restores
   every link, unless a temporary link was left behind or a reserved name is in the way. It reports an error although
   the payload is in place exactly if a dropped top name cannot be unlinked, because its link was left out before.
   */
  lemma RunRecovers(d: Disk, steps: seq<Step>, a: Attempt)
    requires Served(d) && Run(d, steps) && a.start == Last(d, steps)
    requires a.Updates() && !a.Faulted() && DrawsNewName(a) && Writable(a) && !UpToDate(a.start, a.clean)
    requires DATA_TMP !in a.start.Keys + a.Names() && DATA !in Dropped(a)
    ensures a.Renames() && Served(a.End()) && LiveFiles(a.End()) == a.clean && ViewIs(a.End(), a.clean)
    ensures a.err == OK <==> forall n :: n in Dropped(a) ==> Removable(a.start, n)
  {
    RunCuts(d, steps);
    RunIsSafe(d, steps);
    RenamesIff(a);
    SucceedsIff(a);
    ErasedView(a);
    var i: nat := |a.states| - 1;
    PrunedState(a, i);
    assert a.End() == a.states[i];
  }

  /** A call that returned after at most one failed system call, with a payload that leaves the temporary name alone. */
  predicate Steady(s: Step)
  {
    s.cut == |s.attempt.states| && s.attempt.faults <= 1 && DATA_TMP !in s.attempt.Names()
  }

  lemma {:induction false} SteadyRunLeavesNoTmp(d: Disk, steps: seq<Step>)
    requires Run(d, steps) && DATA_TMP !in d && forall i :: 0 <= i < |steps| ==> Steady(steps[i])
    ensures DATA_TMP !in Last(d, steps)
    decreases |steps|
  {
    if steps == [] {
    } else {
      var Step(a, cut) := steps[0];
      assert Steady(steps[0]);
      OneFailureLeavesNoTmp(a);
      assert forall i :: 0 <= i < |steps[1..]| ==> steps[1..][i] == steps[i + 1];
      SteadyRunLeavesNoTmp(a.At(cut), steps[1..]);
    }
  }

  /**
   So no single failure in a call stands in the way of the next one: after any number of calls that returned, each with
   at most one failed system call, a fault-free call with a writable payload puts it in place. Only a crash between
   steps 8 and 9, or a second failure while step 9 is taken back, leaves the link that blocks.
   */
  lemma SteadyRunRecovers(d: Disk, steps: seq<Step>, a: Attempt)
    requires Served(d) && Run(d, steps) && a.start == Last(d, steps)
    requires DATA_TMP !in d && forall i :: 0 <= i < |steps| ==> Steady(steps[i])
    requires a.Updates() && !a.Faulted() && DrawsNewName(a) && Writable(a) && !UpToDate(a.start, a.clean)
    requires DATA_TMP !in a.Names() && DATA !in Dropped(a)
    ensures a.Renames() && Served(a.End()) && LiveFiles(a.End()) == a.clean && ViewIs(a.End(), a.clean)
    ensures a.err == OK <==> forall n :: n in Dropped(a) ==> Removable(a.start, n)
  {
    SteadyRunLeavesNoTmp(d, steps);
    RunRecovers(d, steps, a);
  }

  /** A call that has nothing to write does not restore missing links: it shows the payload only if none is missing. */
  lemma SkipDoesNotRecover(d: Disk, steps: seq<Step>, a: Attempt)
    requires Served(d) && Run(d, steps) && a.start == Last(d, steps)
    requires a.Updates() && !a.Faulted() && UpToDate(a.start, a.clean)
    ensures a.err == OK && a.End() == a.start
    ensures ViewIs(a.End(), a.clean) <==> LiveLinked(a.start)
  {
    RunCuts(d, steps);
    RunIsSafe(d, steps);
    SkipsIff(a);
    ViewNeedsEveryLink(a.start);
  }

  /** A temporary link left by a crash blocks every later update; the live files stay what they were, in every state. */
  lemma RunIsBlockedByTmp(d: Disk, steps: seq<Step>, a: Attempt, cut: nat)
    requires Served(d) && Run(d, steps) && a.start == Last(d, steps)
    requires a.Updates() && DATA_TMP in a.start && !(a.err == OK && a.states == []) && cut <= |a.states|
    ensures a.err != OK && SameLive(a.start, a.At(cut))
    ensures !a.Faulted() && Writable(a) ==> DATA_TMP in a.End() && TsDirs(a.End()) == TsDirs(a.start)
  {
    RunCuts(d, steps);
    RunIsSafe(d, steps);
    TmpBlocks(a, cut);
  }

  // ----- Runs without accidents leave nothing behind -----

  /** Nothing in the directory but the live tree and its links. */
  ghost predicate Tidy(d: Disk)
  {
    && Inv(d)
    && VisibleNames(d) == Heads(LiveTree(d).Keys)
    && TsDirs(d) == OldNames(DataTarget(d))
  }

  /** A call that returned success and ignored no error. */
  predicate Succeeds(s: Step)
  {
    s.cut == |s.attempt.states| && s.attempt.err == OK && s.attempt.SeesAll()
  }

  /** The directory holds `m`, its links and its timestamp directory, and nothing else. */
  ghost predicate TidyWith(d: Disk, m: map<Path, Content>)
  {
    && Holds(d, m) && HasLive(d) && ViewIs(d, m)
    && VisibleNames(d) == Heads(m.Keys)
    && TsDirs(d) == {LiveName(d)}
  }

  lemma NamesAreTidy(a: Attempt)
    requires Tidy(a.start) && a.Updates() && Unreserved(a.clean) && a.Renames() && a.err == OK && a.SeesAll()
    ensures VisibleNames(a.End()) == a.Names() && TsDirs(a.End()) == {a.ts}
    ensures HasLive(a.End()) && LiveName(a.End()) == a.ts
  {
    ManagedHasNoSpecialNames(a);
    NamesInTheEnd(a);
    StaleAreOld(a);
    var i: nat := |a.states| - 1;
    PrunedState(a, i);
    assert a.End() == a.states[i];
    forall n ensures n in a.Names() - a.skipped && !Hidden(n) <==> n in a.Names() {
    }
  }

  lemma StepStaysTidy(a: Attempt)
    requires Tidy(a.start) && a.Updates() && Unreserved(a.clean) && a.err == OK && a.SeesAll()
    ensures TidyWith(a.End(), a.clean)
  {
    ManagedSuccess(a);
    InvView(a.End());
    if a.Renames() {
      NamesAreTidy(a);
    } else {
      assert a.states == [] by { assert a.Obeys(Preparing); }
      HeadsOfFiles(LiveTree(a.start));
    }
  }

  lemma TidyWithIsTidy(d: Disk, m: map<Path, Content>)
    requires TidyWith(d, m)
    ensures Tidy(d)
  {
    HeadsOfFiles(LiveTree(d));
  }

  /**
   After calls that all succeed, the visible links are the top names of the last payload, and one timestamp
   directory remains, the live one.
   */
  lemma {:induction false} SuccessfulRunsAreTidy(d: Disk, steps: seq<Step>)
    requires Tidy(d) && Run(d, steps)
    requires forall i :: 0 <= i < |steps| ==> Succeeds(steps[i]) && Unreserved(steps[i].attempt.clean)
    ensures steps != [] ==> TidyWith(Last(d, steps), steps[|steps| - 1].attempt.clean)
    decreases |steps|
  {
    if steps == [] {
    } else {
      var Step(a, cut) := steps[0];
      assert Succeeds(steps[0]);
      StepStaysTidy(a);
      TidyWithIsTidy(a.End(), a.clean);
      assert forall i :: 0 <= i < |steps[1..]| ==> steps[1..][i] == steps[i + 1];
      SuccessfulRunsAreTidy(a.At(cut), steps[1..]);
    }
  }

  // ----- Where the premise on names comes from -----

  /** A caller whose paths do not start with "." (nor, as documented, with "..") gives no reserved name. */
  lemma PlainPathsAreUnreserved(payload: map<string, Content>, clean: map<Path, Content>)
    requires CleanOf(payload, clean)
    requires forall k :: k in payload ==> Split(k)[0] != "."
    ensures Unreserved(clean)
  {
    forall p | p in clean ensures !Reserved(p) {
      var k :| k in payload && Components(k) == p;
      CleanedIsAcceptedIff(k);
    }
  }
}

/**
 What one call of Write means to a reader: which files are shown in each of its states, when the call publishes its
 payload, and what an ignored error or a reserved name costs. Everything follows from the steps of the call.
 */
module Publication {
  import opened Contents
  import opened PathCleaning
  import opened Disk
  import opened FileSystem
  import opened AtomicWriter

  // ----- The states before the rename -----

  lemma StagingKeepsLive(d: Disk, e: Disk, names: set<string>, ts: string)
    requires Served(d) && Staging(d, e, names, ts) && Fresh(ts, d)
    ensures Served(e) && SameLive(d, e) && d.Keys <= e.Keys
  {
    if DATA !in d && DATA in e {
      assert e[DATA] == SELF_LINK;
    }
  }

  lemma StagedState(a: Attempt, i: nat)
    requires a.Updates() && Served(a.start) && i < a.commit
    ensures Served(a.states[i]) && SameLive(a.start, a.states[i]) && a.start.Keys <= a.states[i].Keys
  {
    assert a.Obeys(Preparing);
    assert Staging(a.start, a.states[i], a.Names(), a.ts);
    StagingKeepsLive(a.start, a.states[i], a.Names(), a.ts);
  }

  // ----- The state after the rename -----

  lemma CommittedIsServed(d: Disk, e: Disk, m: map<Path, Content>, ts: string, skipped: set<string>)
    requires Served(d) && Committed(d, e, m, ts, skipped) && IsTsName(ts) && AntiChain(m)
    ensures Served(e) && HasLive(e) && LiveName(e) == ts && LiveTree(e) == TreeOf(m) && LiveFiles(e) == m
  {
    TreeOfIsPayloadTree(m);
  }

  // ----- The states of the cleaning up -----

  lemma PrunedKeepsLive(d: Disk, e: Disk, stale: set<string>, oldNames: set<string>)
    requires Served(d) && HasLive(d) && Pruned(d, e, stale, oldNames)
    requires LiveName(d) !in stale + oldNames && forall n :: n in oldNames ==> IsTsName(n)
    ensures Served(e)
    ensures if DATA in e then SameLive(d, e) else !HasLive(e) && LiveTree(e) == map[] && DATA in stale
  {
    if DATA in e {
      assert e[DATA] == d[DATA] && LiveName(d) in e;
    }
  }

  /** What step 10 removes are top names of the live tree that the payload does not use. */
  lemma StaleAreOld(a: Attempt)
    requires a.Updates() && Served(a.start)
    ensures a.Stale() <= Heads(LiveTree(a.start).Keys) - a.Names()
    ensures a.walked == WalkPaths(a.start, DataTarget(a.start)) ==>
              a.Stale() == Heads(LiveTree(a.start).Keys) - a.Names()
    ensures forall n :: n in OldNames(DataTarget(a.start)) ==> IsTsName(n)
  {
    assert a.Obeys(Deciding);
    var tree := LiveTree(a.start);
    assert WalkPaths(a.start, DataTarget(a.start)) == tree.Keys;
    StaleNames(tree, a.clean);
    assert a.Stale() <= RootNames(tree.Keys - Closure(a.clean));
  }

  /** MkdirTemp never draws the name of a live top entry; those without a link are the only ones it could draw. */
  predicate DrawsNewName(a: Attempt)
  {
    a.ts !in Heads(LiveTree(a.start).Keys)
  }

  lemma PrunedState(a: Attempt, i: nat)
    requires a.Updates() && Served(a.start) && DrawsNewName(a) && a.commit <= i < |a.states|
    ensures Served(a.states[i])
    ensures LiveFiles(a.states[i]) == if DATA in a.states[i] then a.clean else map[]
    ensures DATA in a.states[i] ==> HasLive(a.states[i]) && LiveName(a.states[i]) == a.ts
    ensures DATA in a.states[i] ==> LiveTree(a.states[i]) == TreeOf(a.clean)
    ensures DATA !in a.states[i] ==> DATA in a.Stale() && !HasLive(a.states[i])
  {
    assert a.Obeys(Preparing) && a.Obeys(Committing) && a.Obeys(CleaningUp);
    CommittedIsServed(a.start, a.states[a.commit], a.clean, a.ts, a.skipped);
    StaleAreOld(a);
    PrunedKeepsLive(a.states[a.commit], a.states[i], a.Stale(), OldNames(DataTarget(a.start)));
  }

  lemma BeforeRename(a: Attempt, cut: nat)
    requires a.Updates() && Served(a.start) && cut <= a.commit <= |a.states|
    ensures Served(a.At(cut)) && SameLive(a.start, a.At(cut)) && a.start.Keys <= a.At(cut).Keys
  {
    if cut > 0 {
      StagedState(a, cut - 1);
    }
  }

  lemma AfterRename(a: Attempt, cut: nat)
    requires a.Updates() && Served(a.start) && DrawsNewName(a) && a.commit < cut <= |a.states|
    ensures Served(a.At(cut)) && LiveFiles(a.At(cut)) == if DATA in a.At(cut) then a.clean else map[]
    ensures DATA !in a.At(cut) ==> DATA in a.Stale()
  {
    PrunedState(a, cut - 1);
  }

  /**
   Every state of every call, whatever the payload and whatever fails or is ignored: up to the rename the live files
   are the old ones, from then on the new ones, and none if step 10 removed the data link.
   */
  lemma EachState(a: Attempt, cut: nat)
    requires a.Follows() && Served(a.start) && (cut > a.commit ==> DrawsNewName(a)) && cut <= |a.states|
    ensures Served(a.At(cut))
    ensures LiveFiles(a.At(cut)) ==
              if cut <= a.commit then LiveFiles(a.start) else if DATA in a.At(cut) then a.clean else map[]
    ensures cut > a.commit && DATA !in a.At(cut) ==> DATA in a.Stale()
  {
    if a.Rejected() {
      return;
    }
    if cut <= a.commit {
      BeforeRename(a, cut);
    } else {
      AfterRename(a, cut);
    }
  }

  // ----- What a reader sees -----

  /** All but the skipped links of the payload are there from the rename on. */
  lemma LinkAfterRename(a: Attempt, i: nat, n: string)
    requires a.Updates() && Served(a.start) && a.commit <= i < |a.states| && n in a.Names() && !Hidden(n)
    ensures n in a.states[i] <==> n !in a.skipped
  {
    assert a.Obeys(Committing) && a.Obeys(CleaningUp);
    StaleAreOld(a);
    assert Committed(a.start, a.states[a.commit], a.clean, a.ts, a.skipped);
    assert Pruned(a.states[a.commit], a.states[i], a.Stale(), OldNames(DataTarget(a.start)));
  }

  lemma SkippedStaysMissing(a: Attempt, n: string)
    requires a.Updates() && Served(a.start) && a.err == OK && n in a.skipped
    ensures n in a.Names() && (!Hidden(n) ==> n !in a.End())
  {
    assert a.states != [] by { assert a.Obeys(Deciding); }
    assert a.Renames() by { assert a.Obeys(Preparing); }
    assert n in a.Names() by { assert a.Obeys(Committing); }
    var i: nat := |a.states| - 1;
    if !Hidden(n) {
      LinkAfterRename(a, i, n);
    }
    assert a.End() == a.states[i];
  }

  /** What a reader can be shown of a payload when the links of some names are missing. */
  function Without(m: map<Path, Content>, names: set<string>): map<Path, Content>
  {
    map p | p in m && p != [] && !Reserved(p) && p[0] !in names :: m[p]
  }

  lemma ShownWithout(d: Disk, m: map<Path, Content>, names: set<string>)
    requires LiveFiles(d) == m
    requires forall n :: n in Heads(m.Keys) && !Hidden(n) ==> (n in d <==> n !in names)
    ensures Shown(d) == Without(m, names)
  {
    forall p | p in m && p != [] && !Reserved(p) ensures p[0] in d <==> p[0] !in names {
      assert p[0] in Heads(m.Keys);
    }
  }

  /** A state after the rename shows the payload except for the files under skipped names. */
  lemma ShownAfterRename(a: Attempt, i: nat)
    requires a.Updates() && Served(a.start) && DrawsNewName(a) && a.commit <= i < |a.states|
    ensures Shown(a.states[i]) == if DATA in a.states[i] then Without(a.clean, a.skipped) else map[]
  {
    PrunedState(a, i);
    if DATA in a.states[i] {
      forall n | n in a.Names() && !Hidden(n) ensures n in a.states[i] <==> n !in a.skipped {
        LinkAfterRename(a, i, n);
      }
      ShownWithout(a.states[i], a.clean, a.skipped);
    }
  }

  /**
   The view after the rename, with no premise on what failed or was ignored: unless step 10 removes the data link,
   every state shows exactly the payload if and only if no link was left out because its lookup failed; and then the
   full invariant holds.
   */
  lemma NewViewIff(a: Attempt)
    requires a.Updates() && Served(a.start) && DrawsNewName(a) && a.Renames() && DATA !in a.Stale()
    ensures (forall i :: a.commit <= i < |a.states| ==> ViewIs(a.states[i], a.clean)) <==>
              forall n :: n in a.skipped ==> Hidden(n)
    ensures Unreserved(a.clean) ==>
              (Stays(a.states, a.commit, |a.states|, a.clean) <==> a.Names() <= a.states[a.commit].Keys)
  {
    assert a.Obeys(Committing) && a.Obeys(Preparing);
    forall i | a.commit <= i < |a.states|
      ensures ViewIs(a.states[i], a.clean) <==> forall n :: n in a.skipped ==> Hidden(n)
      ensures Unreserved(a.clean) ==> (Holds(a.states[i], a.clean) <==> a.Names() <= a.states[a.commit].Keys)
    {
      PrunedState(a, i);
      NewViewAt(a, i);
    }
  }

  ghost predicate Stays(trace: seq<Disk>, from: nat, to: nat, m: map<Path, Content>)
    requires to <= |trace|
  {
    forall i :: from <= i < to ==> Holds(trace[i], m)
  }

  lemma NewViewAt(a: Attempt, i: nat)
    requires a.Updates() && Served(a.start) && DrawsNewName(a) && a.commit <= i < |a.states| && DATA in a.states[i]
    ensures ViewIs(a.states[i], a.clean) <==> forall n :: n in a.skipped ==> Hidden(n)
    ensures Unreserved(a.clean) ==> (Holds(a.states[i], a.clean) <==> a.Names() <= a.states[a.commit].Keys)
  {
    assert a.Obeys(Committing);
    var e := a.states[i];
    PrunedState(a, i);
    TreeOfIsPayloadTree(a.clean);
    ViewNeedsEveryLink(e);
    HeadsOfFiles(LiveTree(e));
    forall n | n in a.Names() && !Hidden(n) ensures n in e <==> n !in a.skipped {
      LinkAfterRename(a, i, n);
      LinkAfterRename(a, a.commit, n);
    }
    assert LiveLinked(e) <==> forall n :: n in a.skipped ==> Hidden(n);
    if Unreserved(a.clean) {
      assert forall n :: n in a.Names() ==> !Hidden(n);
    }
  }

  /** Up to the rename a reader who saw all of the old files sees exactly these. */
  lemma OldViewStays(a: Attempt, cut: nat)
    requires a.Updates() && Served(a.start) && LiveLinked(a.start) && cut <= a.commit <= |a.states|
    ensures ViewIs(a.At(cut), LiveFiles(a.start))
  {
    BeforeRename(a, cut);
    ViewNeedsEveryLink(a.At(cut));
  }

  // ----- The decision to skip -----

  /** The live files are the payload already. */
  predicate UpToDate(d: Disk, m: map<Path, Content>)
  {
    DATA in d && LiveFiles(d) == m
  }

  lemma LookupBelow(d: Disk, ts: string, p: Path)
    requires IsDirectory(d, ts)
    ensures Lookup(d, [ts] + p) == LookupTree(d[ts].tree, p)
  {
    assert ([ts] + p)[1..] == p;
  }

  /** What the comparison with the data link's target looks at is the live tree. */
  lemma MatchesLive(d: Disk, m: map<Path, Content>)
    requires Served(d) && DATA in d
    ensures DataTarget(d) != [] && WalkPaths(d, DataTarget(d)) == LiveTree(d).Keys
    ensures Matches(d, DataTarget(d), m) <==>
              forall p {:trigger LookupTree(LiveTree(d), p)} :: p in m ==> LookupTree(LiveTree(d), p) == IsFile(m[p])
  {
    if HasLive(d) {
      forall p ensures Lookup(d, DataTarget(d) + p) == LookupTree(LiveTree(d), p) {
        LookupBelow(d, LiveName(d), p);
      }
    } else {
      forall p ensures !Lookup(d, DataTarget(d) + p).IsFile? && !LookupTree(LiveTree(d), p).IsFile? {
        assert [DATA, DATA] + p == [DATA] + ([DATA] + p);
        SelfLinkLoops(d, [DATA] + p, MAX_LINKS);
      }
    }
  }

  /**
   A skipped call found every payload file in place. It is wrong, with files in the view that the payload does not
   have, exactly if a live path outside the payload and its ancestors was left out by Walk.
   */
  lemma SkipIsRightIff(a: Attempt)
    requires a.Updates() && Served(a.start) && a.err == OK && a.states == []
    ensures forall p :: p in a.clean ==> p in LiveFiles(a.start) && LiveFiles(a.start)[p] == a.clean[p]
    ensures UpToDate(a.start, a.clean) <==> LiveTree(a.start).Keys - a.walked <= Closure(a.clean)
  {
    assert a.Obeys(Deciding);
    var tree, m := LiveTree(a.start), a.clean;
    MatchesLive(a.start, m);
    SkipIsExact(tree, m);
    forall p | p in m ensures p in Files(tree) && Files(tree)[p] == m[p] {
      assert LookupTree(tree, p) == IsFile(m[p]);
      UnchangedIsLive(tree, m, p);
    }
    assert a.walked <= Closure(m);
    assert tree.Keys - a.walked <= Closure(m) <==> tree.Keys <= Closure(m);
  }

  /** Without faults the call ends with nothing done and success exactly if the live files are the payload. */
  lemma SkipsIff(a: Attempt)
    requires a.Updates() && Served(a.start) && !a.Faulted()
    ensures a.err == OK && a.states == [] <==> UpToDate(a.start, a.clean)
  {
    assert a.Obeys(Deciding);
    if DATA in a.start {
      MatchesLive(a.start, a.clean);
      SkipIsExact(LiveTree(a.start), a.clean);
      assert LiveTree(a.start).Keys <= Closure(a.clean) <==>
             forall p {:trigger p in Closure(a.clean)} :: p in LiveTree(a.start) ==> p in Closure(a.clean);
    }
  }

  // ----- Calls without faults: when the payload is published -----

  /** Nothing in the directory or in the shape of the payload keeps the call from coming to the swap. */
  ghost predicate Writable(a: Attempt)
  {
    AntiChain(a.clean) && !HasObstacle(a.start, a.clean, a.ts)
  }

  /** The call has to write, and nothing but the names in the payload decides how it ends. */
  ghost predicate PlainUpdate(a: Attempt)
  {
    && a.Updates() && !a.Faulted() && Served(a.start) && DrawsNewName(a)
    && Writable(a) && DATA_TMP !in a.start && !UpToDate(a.start, a.clean)
  }

  /** The top names that the payload no longer has. */
  function Dropped(a: Attempt): set<string>
  {
    Heads(LiveTree(a.start).Keys) - a.Names()
  }

  lemma StaleIsDropped(a: Attempt)
    requires a.Updates() && !a.Faulted() && Served(a.start)
    ensures a.Stale() == Dropped(a)
  {
    assert a.Obeys(Deciding);
    StaleAreOld(a);
  }

  /** The rename happens unless the payload itself has a file under the name of the temporary link. */
  lemma RenamesIff(a: Attempt)
    requires PlainUpdate(a)
    ensures a.Renames() <==> DATA_TMP !in a.Names()
  {
    assert a.Obeys(Deciding) && a.Obeys(Preparing) && a.Obeys(Committing);
    SkipsIff(a);
  }

  lemma RemovableAfterRename(a: Attempt, n: string)
    requires PlainUpdate(a) && a.Renames() && n in Dropped(a)
    ensures Removable(a.states[a.commit], n) <==> Removable(a.start, n)
  {
    assert a.Obeys(Committing);
    assert n == DATA ==> HasLive(a.start);
  }

  /** It then succeeds exactly if all dropped names can be unlinked, and loses the data link if that is one of them. */
  lemma SucceedsIff(a: Attempt)
    requires PlainUpdate(a) && a.Renames()
    ensures a.err == OK <==> forall n :: n in Dropped(a) ==> Removable(a.start, n)
    ensures DATA !in a.End() <==> DATA in Dropped(a)
  {
    assert a.Obeys(Committing) && a.Obeys(CleaningUp);
    StaleIsDropped(a);
    forall n | n in Dropped(a) ensures Removable(a.states[a.commit], n) <==> Removable(a.start, n) {
      RemovableAfterRename(a, n);
    }
    var i: nat := |a.states| - 1;
    assert a.End() == a.states[i];
    PrunedState(a, i);
    if DATA in Dropped(a) {
      assert HasLive(a.start) && Removable(a.start, DATA);
    }
  }

  /**
   Where something else stands in the place of a payload file, the call ends with an error and has done nothing, unless
   it finds a file to write first: the order of the payload files is not determined.
   */
  lemma ClashIsRefused(a: Attempt)
    requires a.Updates() && DataTarget(a.start) != []
    requires SomeClashes(a.start, DataTarget(a.start), a.clean) && !SomeDiffers(a.start, DataTarget(a.start), a.clean)
    ensures a.err != OK && a.states == []
  {
    assert a.Obeys(Deciding) && a.Obeys(Preparing);
  }

  /** A payload with one path above another is never put in place; a call that has to write reports an error. */
  lemma OnlyAntiChainsAreRenamed(a: Attempt)
    requires a.Updates() && Served(a.start) && !AntiChain(a.clean)
    ensures !a.Renames() && (a.err == OK ==> a.states == [])
    ensures !a.Faulted() && !UpToDate(a.start, a.clean) ==> a.err != OK
    ensures forall i :: 0 <= i < |a.states| ==> SameLive(a.start, a.states[i])
  {
    assert a.Obeys(Preparing) && a.Obeys(Committing);
    if !a.Faulted() {
      SkipsIff(a);
    }
    forall i | 0 <= i < |a.states| ensures SameLive(a.start, a.states[i]) {
      StagedState(a, i);
    }
  }

  /**
   A call in which at most one system call fails leaves no temporary link, whichever it is: a failed rename is taken
   back, and only new links remain.
   */
  lemma OneFailureLeavesNoTmp(a: Attempt)
    requires a.Follows() && a.faults <= 1 && DATA_TMP !in a.start.Keys + a.Names()
    ensures DATA_TMP !in a.End()
    ensures !a.Rejected() && !a.Renames() ==>
              forall i :: 0 <= i < |a.states| && DATA_TMP in a.states[i] ==>
                LinksAdded(a.start, a.End(), a.Names()) && a.ts !in a.End()
  {
    if a.Updates() {
      assert a.Obeys(Preparing) && a.Obeys(Committing) && a.Obeys(CleaningUp);
      if a.Renames() {
        var i: nat := |a.states| - 1;
        assert Pruned(a.states[a.commit], a.states[i], a.Stale(), OldNames(DataTarget(a.start)));
      } else if a.states != [] {
        assert LastOf(a.states) == a.End();
      }
    }
  }

  /** What the writer promises: success, all old files before the rename, all new ones from then on. */
  ghost predicate Publishes(a: Attempt)
    requires a.commit <= |a.states|
  {
    && a.err == OK && a.Renames()
    && (forall cut :: 0 <= cut <= a.commit ==> ViewIs(a.At(cut), LiveFiles(a.start)))
    && (forall i :: a.commit <= i < |a.states| ==> ViewIs(a.states[i], a.clean))
  }

  lemma ErasedView(a: Attempt)
    requires PlainUpdate(a) && a.Renames()
    ensures (forall i :: a.commit <= i < |a.states| ==> ViewIs(a.states[i], a.clean)) <==>
              (DATA in Dropped(a) ==> Offered(a.clean) == map[])
  {
    assert a.Obeys(Committing);
    SucceedsIff(a);
    StaleIsDropped(a);
    assert Without(a.clean, {}) == Offered(a.clean);
    forall i | a.commit <= i < |a.states|
      ensures ViewIs(a.states[i], a.clean) <==> DATA in a.states[i] || Offered(a.clean) == map[]
    {
      PrunedState(a, i);
      ShownAfterRename(a, i);
      ViewIff(a.states[i], a.clean);
    }
    if DATA !in Dropped(a) {
      forall i | a.commit <= i < |a.states| ensures DATA in a.states[i] {
        PrunedState(a, i);
      }
    } else {
      assert a.End() == a.states[|a.states| - 1];
    }
  }

  /**
   The promise holds, for payloads with any names, exactly if the payload has no file under the name of the temporary
   link, the name of the data link is not dropped while there is something to show, and every dropped name can be
   unlinked. All of it can be read off the names before the call.
   */
  lemma PublishesIff(a: Attempt)
    requires PlainUpdate(a) && LiveLinked(a.start)
    ensures Publishes(a) <==>
              && DATA_TMP !in a.Names()
              && (DATA in Dropped(a) ==> Offered(a.clean) == map[])
              && (forall n :: n in Dropped(a) ==> Removable(a.start, n))
  {
    assert a.Obeys(Preparing);
    RenamesIff(a);
    forall cut | 0 <= cut <= a.commit ensures ViewIs(a.At(cut), LiveFiles(a.start)) {
      OldViewStays(a, cut);
    }
    if a.Renames() {
      SucceedsIff(a);
      ErasedView(a);
    }
  }

  // ----- Reserved names -----

  /**
   A weaker invariant that allows reserved names in the live payload: every live top name has its own link, none is
   the data link or the temporary link, and no temporary link was left behind.
   */
  ghost predicate Tracked(d: Disk)
  {
    && Served(d) && DATA_TMP !in d
    && (forall n :: n in Heads(LiveTree(d).Keys) ==> n in d && d[n] == Link([DATA, n]) && n != DATA)
  }

  /** No top name of the payload is one that the writer itself uses in this directory. */
  ghost predicate Harmless(a: Attempt)
  {
    && DATA !in a.Names() && DATA_TMP !in a.Names() && a.ts !in a.Names()
    && forall n :: n in a.Names() && n in a.start ==> a.start[n] == Link([DATA, n])
  }

  lemma HarmlessLink(a: Attempt, i: nat, n: string)
    requires a.Updates() && Served(a.start) && Harmless(a) && a.skipped == {} && a.commit <= i < |a.states|
    requires n in a.Names()
    ensures n in a.states[i] && a.states[i][n] == Link([DATA, n])
  {
    assert a.Obeys(Committing) && a.Obeys(CleaningUp);
    StaleAreOld(a);
    var d2 := a.states[a.commit];
    assert n in d2 && d2[n] == Link([DATA, n]);
    assert n !in OldNames(DataTarget(a.start));
    assert Pruned(d2, a.states[i], a.Stale(), OldNames(DataTarget(a.start)));
  }

  lemma HarmlessStaysTracked(a: Attempt, i: nat)
    requires a.Updates() && Tracked(a.start) && Harmless(a) && a.skipped == {} && a.commit <= i < |a.states|
    requires DrawsNewName(a)
    ensures Tracked(a.states[i])
  {
    PrunedState(a, i);
    TreeOfIsPayloadTree(a.clean);
    forall n | n in a.Names() ensures n in a.states[i] && a.states[i][n] == Link([DATA, n]) {
      HarmlessLink(a, i, n);
    }
    assert DATA_TMP !in a.states[i] by {
      assert a.Obeys(Committing) && a.Obeys(CleaningUp);
    }
  }

  /**
   Names that merely look reserved, such as "..foo", do no harm: the payload is published, and the weaker invariant
   holds again.
   */
  lemma HarmlessIsPublished(a: Attempt)
    requires a.Updates() && !a.Faulted() && Tracked(a.start) && Writable(a) && !UpToDate(a.start, a.clean)
    requires Harmless(a)
    ensures Publishes(a) && Tracked(a.End())
  {
    TrackedIsPlain(a);
    PublishesIff(a);
    var i: nat := |a.states| - 1;
    assert a.skipped == {} by { assert a.Obeys(Committing); }
    HarmlessStaysTracked(a, i);
    assert a.End() == a.states[i];
  }

  lemma TrackedIsPlain(a: Attempt)
    requires a.Updates() && !a.Faulted() && Tracked(a.start) && Writable(a) && !UpToDate(a.start, a.clean)
    ensures PlainUpdate(a) && LiveLinked(a.start) && DATA !in Dropped(a)
    ensures forall n :: n in Dropped(a) ==> Removable(a.start, n)
  {
  }

  /**
   The name "..data" does: once a file of that name is live, the next payload without it makes step 10 remove the data
   link itself. The call reports what it reports, but the reader sees nothing any more.
   */
  lemma DroppedDataErasesTheView(a: Attempt)
    requires PlainUpdate(a) && a.Renames() && DATA in Dropped(a)
    ensures DATA !in a.End() && Shown(a.End()) == map[] && ViewIs(a.End(), map[])
    ensures a.err == OK <==> forall n :: n in Dropped(a) ==> Removable(a.start, n)
  {
    SucceedsIff(a);
    var i: nat := |a.states| - 1;
    assert a.End() == a.states[i];
    PrunedState(a, i);
    ShownAfterRename(a, i);
    ViewIff(a.End(), map[]);
  }

  // ----- The temporary link -----

  /** A temporary link that was left behind blocks every update: no rename, an error, and the old view throughout. */
  lemma TmpBlocks(a: Attempt, cut: nat)
    requires a.Updates() && Served(a.start) && cut <= |a.states|
    requires DATA_TMP in a.start && !(a.err == OK && a.states == [])
    ensures !a.Renames() && a.err != OK && SameLive(a.start, a.At(cut))
    ensures LiveLinked(a.start) ==> ViewIs(a.At(cut), LiveFiles(a.start))
    ensures !a.Faulted() && Writable(a) ==>
              DATA_TMP in a.End() && TsDirs(a.End()) == TsDirs(a.start) && LinksAdded(a.start, a.End(), a.Names())
  {
    assert a.Obeys(Preparing) && a.Obeys(Committing) && a.Obeys(Deciding);
    BeforeRename(a, cut);
    if LiveLinked(a.start) {
      OldViewStays(a, cut);
    }
  }

  /**
   In a call without faults that starts without a temporary link and has no file of that name, the link exists in the
   one state before the rename: only a crash there leaves it behind.
   */
  lemma TmpOnlyBeforeRename(a: Attempt, cut: nat)
    requires a.Updates() && !a.Faulted() && DATA_TMP !in a.start.Keys + a.Names() && cut <= |a.states|
    ensures DATA_TMP in a.At(cut) <==> a.Renames() && cut == a.commit
  {
    assert a.Obeys(Preparing) && a.Obeys(Committing) && a.Obeys(CleaningUp);
    if 0 < cut <= a.commit {
      assert a.At(cut) == a.states[cut - 1];
    } else if a.commit < cut {
      assert Pruned(a.states[a.commit], a.states[cut - 1], a.Stale(), OldNames(DataTarget(a.start)));
    }
  }

  // ----- What a successful call leaves -----

  /**
   The names in the directory after a successful update, with no premise on what was ignored: the old ones without
   those the walk reported as stale, and those of the payload without the skipped ones. One more directory is the new
   one, and the old one is gone.
   */
  lemma NamesInTheEnd(a: Attempt)
    requires a.Updates() && Served(a.start) && DrawsNewName(a) && a.Renames() && a.err == OK
    ensures VisibleNames(a.End()) ==
              (VisibleNames(a.start) - a.Stale()) + set n | n in a.Names() - a.skipped && !Hidden(n)
    ensures TsDirs(a.End()) == (TsDirs(a.start) - OldNames(DataTarget(a.start)) - a.Stale()) + {a.ts}
  {
    StaleAreOld(a);
    forall n {
      NameInTheEnd(a, n);
    }
  }

  /** What a missed directory costs: a stale name that the walk did not report keeps its link, which leads nowhere. */
  lemma MissedNameStays(a: Attempt, n: string)
    requires a.Updates() && Served(a.start) && DrawsNewName(a) && a.Renames() && a.err == OK
    requires n in VisibleNames(a.start) && n in Dropped(a)
    ensures n in VisibleNames(a.End()) <==> n !in a.Stale()
    ensures forall p :: p in Shown(a.End()) ==> p[0] != n
  {
    NamesInTheEnd(a);
    ShownAfterRename(a, |a.states| - 1);
    assert a.End() == a.states[|a.states| - 1];
  }

  lemma NameInTheEnd(a: Attempt, n: string)
    requires a.Updates() && Served(a.start) && DrawsNewName(a) && a.Renames() && a.err == OK
    ensures n in VisibleNames(a.End()) <==>
              (n in VisibleNames(a.start) && n !in a.Stale()) || (n in a.Names() - a.skipped && !Hidden(n))
    ensures n in TsDirs(a.End()) <==>
              (n in TsDirs(a.start) && n !in OldNames(DataTarget(a.start)) + a.Stale()) || n == a.ts
  {
    assert a.Obeys(Committing) && a.Obeys(CleaningUp) && a.Obeys(Preparing);
    StaleAreOld(a);
    var e, old' := a.states[a.commit], OldNames(DataTarget(a.start));
    assert n in a.End() <==> n in e && n !in a.Stale() + old';
    assert n in a.End() ==> a.End()[n] == e[n];
    assert Hidden(DATA) && Hidden(DATA_TMP) && Hidden(a.ts);
    assert old' != {} ==> DATA in a.start;
    assert a.ts !in a.Stale() + old';
  }

  /** The names a call can leave: those it found, those of the payload, and the writer's own. */
  lemma KeysInTheEnd(a: Attempt)
    requires a.Updates()
    ensures a.End().Keys <= a.start.Keys + a.Names() + {DATA, DATA_TMP, a.ts}
    ensures !a.Faulted() && a.err == OK && DATA_TMP !in a.start.Keys + a.Names() ==> DATA_TMP !in a.End()
  {
    if a.states != [] {
      var i: nat := |a.states| - 1;
      assert a.End() == a.states[i];
      assert a.Obeys(Preparing) && a.Obeys(Committing) && a.Obeys(CleaningUp);
      if i < a.commit {
        assert Staging(a.start, a.states[i], a.Names(), a.ts);
      } else {
        assert Committed(a.start, a.states[a.commit], a.clean, a.ts, a.skipped);
        assert Pruned(a.states[a.commit], a.states[i], a.Stale(), OldNames(DataTarget(a.start)));
      }
    }
  }

  // ----- Payloads without reserved names -----

  lemma HeadsVisible(payload: map<Path, Content>)
    requires Unreserved(payload)
    ensures forall x :: x in Heads(payload.Keys) ==> !Hidden(x)
  {
  }

  /** The invariant and the documented premise exclude every special name. */
  lemma ManagedHasNoSpecialNames(a: Attempt)
    requires a.Updates() && Inv(a.start) && Unreserved(a.clean)
    ensures a.states != [] ==> DrawsNewName(a)
    ensures forall n :: n in Heads(LiveTree(a.start).Keys) + a.Names() ==> !Hidden(n)
    ensures forall n :: n in Heads(LiveTree(a.start).Keys) ==> Removable(a.start, n)
    ensures DATA !in a.Stale()
  {
    assert a.Obeys(Preparing);
    HeadsOfFiles(LiveTree(a.start));
    HeadsVisible(LiveFiles(a.start));
    HeadsVisible(a.clean);
    StaleAreOld(a);
    assert Hidden(DATA);
  }

  lemma ManagedStagedState(a: Attempt, i: nat)
    requires a.Updates() && Inv(a.start) && Unreserved(a.clean) && i < a.commit
    ensures Holds(a.states[i], LiveFiles(a.start))
  {
    assert a.Obeys(Preparing);
    StagedState(a, i);
    HeadsVisible(a.clean);
    assert Hidden(DATA);
    assert Staging(a.start, a.states[i], a.Names(), a.ts);
    assert DATA in a.states[i] ==> DATA in a.start;
  }

  lemma ManagedPrunedState(a: Attempt, i: nat)
    requires a.Updates() && Inv(a.start) && Unreserved(a.clean) && a.commit <= i < |a.states| && a.skipped == {}
    ensures Holds(a.states[i], a.clean)
  {
    assert a.Obeys(Preparing);
    ManagedHasNoSpecialNames(a);
    NewViewIff(a);
  }

  /** Every state keeps the invariant and holds all old or all new files, depending on the rename only. */
  lemma ManagedState(a: Attempt, cut: nat)
    requires a.Follows() && Inv(a.start) && Unreserved(a.clean) && cut <= |a.states|
    requires cut > a.commit ==> a.skipped == {}
    ensures Holds(a.At(cut), if cut > a.commit then a.clean else LiveFiles(a.start))
  {
    if 0 < cut <= a.commit {
      ManagedStagedState(a, cut - 1);
    } else if a.commit < cut {
      ManagedPrunedState(a, cut - 1);
    }
  }

  /** So an update that succeeds and left out no link holds the payload. */
  lemma ManagedUpdate(a: Attempt)
    requires a.Updates() && Inv(a.start) && Unreserved(a.clean) && a.err == OK && a.states != [] && a.skipped == {}
    ensures Holds(a.End(), a.clean) && HasLive(a.End())
  {
    assert a.Obeys(Preparing);
    var i: nat := |a.states| - 1;
    ManagedPrunedState(a, i);
    ManagedHasNoSpecialNames(a);
    PrunedState(a, i);
    assert a.End() == a.states[i];
  }

  /** A call that walked everything updates only what is not there. */
  lemma UpdatesOnlyIfNeeded(a: Attempt)
    requires a.Updates() && Served(a.start) && a.SeesAll() && UpToDate(a.start, a.clean)
    ensures a.states == []
  {
    assert a.Obeys(Deciding);
    MatchesLive(a.start, a.clean);
    SkipIsExact(LiveTree(a.start), a.clean);
  }

  /** A success that ignored nothing holds the payload. */
  lemma ManagedSuccess(a: Attempt)
    requires a.Updates() && Inv(a.start) && Unreserved(a.clean) && a.SeesAll() && a.err == OK
    ensures Holds(a.End(), a.clean) && HasLive(a.End())
    ensures UpToDate(a.start, a.clean) <==> a.states == []
  {
    if a.states == [] {
      SkipIsRightIff(a);
    } else {
      ManagedUpdate(a);
      if UpToDate(a.start, a.clean) {
        UpdatesOnlyIfNeeded(a);
      }
    }
  }
}

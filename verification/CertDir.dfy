/**
 The certificate directory: the certificates as six files under the atomic writer, and the certificate writer that
 keeps its certificates only there.
 */
module CertDir {
  import opened Contents
  import opened PathCleaning
  import opened Disk
  import opened FileSystem
  import opened AtomicWriter
  import opened Publication
  import opened Calendar
  import opened Certificates
  import Secrets = SecretWriter

  /** The six names and what a reader finds under them. */
  ghost predicate ShowsFiles(d: Disk, certs: Artifacts)
  {
    && Lookup(d, ["ca-key.pem"]) == IsFile(certs.caKey) && Lookup(d, ["ca-cert.pem"]) == IsFile(certs.caCert)
    && Lookup(d, ["key.pem"]) == IsFile(certs.key) && Lookup(d, ["tls.key"]) == IsFile(certs.key)
    && Lookup(d, ["cert.pem"]) == IsFile(certs.cert) && Lookup(d, ["tls.crt"]) == IsFile(certs.cert)
  }

  const FILE_NAMES := [
    Secrets.CA_KEY_NAME, Secrets.CA_CERT_NAME, Secrets.SERVER_CERT_NAME,
    Secrets.SERVER_CERT_NAME2, Secrets.SERVER_KEY_NAME, Secrets.SERVER_KEY_NAME2]

  /** The payload of the atomic writer holds the same names and contents as the Secret. */
  function ProjectionMap(certs: Artifacts): map<string, Content>
  {
    Secrets.CertsToData(certs)
  }

  /** A payload of plain file names, as the files it becomes. */
  function AsFiles(m: map<string, Content>): map<Path, Content>
  {
    map n | n in m :: [n] := m[n]
  }

  function CertFiles(certs: Artifacts): map<Path, Content>
  {
    AsFiles(ProjectionMap(certs))
  }

  ghost predicate PlainNames(m: map<string, Content>)
  {
    forall n :: n in m ==> Accepted(n) && Components(n) == [n] && !Hidden(n)
  }

  lemma NameIsPlain(n: string)
    requires n in FILE_NAMES
    ensures Accepted(n) && Components(n) == [n] && !Hidden(n)
  {
    assert n[0] != '.' && 1 < |n| <= 11 && '/' !in n;
    PlainNameIsClean(n);
  }

  lemma ProjectionNames(certs: Artifacts)
    ensures forall n :: n in ProjectionMap(certs) <==> n in FILE_NAMES
  {
  }

  lemma ProjectionIsPlain(certs: Artifacts)
    ensures PlainNames(ProjectionMap(certs)) && AllAccepted(ProjectionMap(certs))
  {
    ProjectionNames(certs);
    forall n | n in ProjectionMap(certs) ensures Accepted(n) && Components(n) == [n] && !Hidden(n) {
      NameIsPlain(n);
    }
  }

  lemma AsFilesAt(m: map<string, Content>, n: string)
    requires n in m
    ensures [n] in AsFiles(m) && AsFiles(m)[[n]] == m[n]
  {
  }

  lemma PlainNamesClean(m: map<string, Content>, clean: map<Path, Content>)
    requires PlainNames(m) && CleanOf(m, clean)
    ensures clean == AsFiles(m)
  {
    forall p | p in clean ensures p in AsFiles(m) && AsFiles(m)[p] == clean[p] {
      var k :| k in m && Components(k) == p && m[k] == clean[p];
      AsFilesAt(m, k);
    }
    forall p | p in AsFiles(m) ensures p in clean {
      var n :| n in m && p == [n];
      assert Components(n) in clean;
    }
  }

  lemma PlainNamesWritable(m: map<string, Content>)
    requires PlainNames(m)
    ensures Unreserved(AsFiles(m)) && AntiChain(AsFiles(m))
    ensures Heads(AsFiles(m).Keys) == m.Keys
  {
    var files := AsFiles(m);
    forall p, q | p in files && q in files && p <= q ensures p == q {
    }
    forall n | n in m ensures n in Heads(files.Keys) {
      assert [n] in files && [n][0] == n;
    }
  }

  // ----- Reading the directory -----

  predicate StatOk(d: Disk, n: string)
  {
    Lookup(d, [n]).IsFile? || Lookup(d, [n]).IsDir?
  }

  /** What `read` returns when no call fails: all six names must be there, four of them are read. */
  function ReadBack(d: Disk): Option<Artifacts>
  {
    if (forall n :: n in FILE_NAMES ==> StatOk(d, n))
       && Lookup(d, [Secrets.CA_KEY_NAME]).IsFile? && Lookup(d, [Secrets.CA_CERT_NAME]).IsFile?
       && Lookup(d, [Secrets.SERVER_CERT_NAME]).IsFile? && Lookup(d, [Secrets.SERVER_KEY_NAME]).IsFile?
    then Some(Artifacts(
      Lookup(d, [Secrets.SERVER_KEY_NAME]).data, Lookup(d, [Secrets.SERVER_CERT_NAME]).data,
      Lookup(d, [Secrets.CA_KEY_NAME]).data, Lookup(d, [Secrets.CA_CERT_NAME]).data))
    else None
  }

  /** What is read: four of the files, and something must be under the other two names. */
  ghost predicate FilesRead(d: Disk, certs: Artifacts)
  {
    && Lookup(d, ["ca-key.pem"]) == IsFile(certs.caKey) && Lookup(d, ["ca-cert.pem"]) == IsFile(certs.caCert)
    && Lookup(d, ["key.pem"]) == IsFile(certs.key) && Lookup(d, ["cert.pem"]) == IsFile(certs.cert)
    && StatOk(d, "tls.key") && StatOk(d, "tls.crt")
  }

  lemma ReadBackMeans(d: Disk, certs: Artifacts)
    ensures ReadBack(d) == Some(certs) <==> FilesRead(d, certs)
  {
    NamedFiles();
    assert FILE_NAMES[3] == "tls.crt" && FILE_NAMES[5] == "tls.key";
  }

  /** `d` shows every file of `m`, and perhaps more. */
  ghost predicate Shows(d: Disk, m: map<Path, Content>)
  {
    Served(d) && LiveLinked(d) && forall p :: p in m ==> p in LiveFiles(d) && LiveFiles(d)[p] == m[p]
  }

  lemma FileIsRead(d: Disk, m: map<string, Content>, n: string)
    requires Shows(d, AsFiles(m)) && PlainNames(m) && n in m
    ensures Lookup(d, [n]) == IsFile(m[n])
  {
    assert [n] in AsFiles(m) && [n][0] == n;
    HeadsOfFiles(LiveTree(d));
    assert n in Heads(LiveFiles(d).Keys);
    ShownIsView(d);
    assert ReadsAs(d, Shown(d), [n]);
  }

  lemma AllFilesAreRead(d: Disk, m: map<string, Content>)
    requires Shows(d, AsFiles(m)) && PlainNames(m)
    ensures forall n :: n in m ==> Lookup(d, [n]) == IsFile(m[n])
  {
    forall n | n in m ensures Lookup(d, [n]) == IsFile(m[n]) {
      FileIsRead(d, m, n);
    }
  }

  lemma ReadBackOf(d: Disk, m: map<string, Content>)
    requires forall n :: n in m ==> Lookup(d, [n]) == IsFile(m[n])
    requires forall n :: n in FILE_NAMES ==> n in m
    ensures ReadBack(d) == Some(Secrets.DataToCerts(m))
  {
    assert FILE_NAMES[0] in FILE_NAMES && FILE_NAMES[1] in FILE_NAMES && FILE_NAMES[2] in FILE_NAMES
      && FILE_NAMES[4] in FILE_NAMES;
  }

  /** The round trip: a directory that holds the certificates reads back as exactly these certificates. */
  lemma DirRoundTrip(d: Disk, certs: Artifacts)
    requires Shows(d, CertFiles(certs))
    ensures ReadBack(d) == Some(certs) && ShowsFiles(d, certs)
  {
    Secrets.DataHasFields(certs);
    ProjectionIsPlain(certs);
    ProjectionNames(certs);
    AllFilesAreRead(d, ProjectionMap(certs));
    ReadBackOf(d, ProjectionMap(certs));
    Secrets.SecretRoundTrip(certs);
  }

  lemma NamedFiles()
    ensures Secrets.CA_KEY_NAME in FILE_NAMES && Secrets.CA_CERT_NAME in FILE_NAMES
    ensures Secrets.SERVER_CERT_NAME in FILE_NAMES && Secrets.SERVER_KEY_NAME in FILE_NAMES
  {
    assert FILE_NAMES[0] in FILE_NAMES && FILE_NAMES[1] in FILE_NAMES && FILE_NAMES[2] in FILE_NAMES
      && FILE_NAMES[4] in FILE_NAMES;
  }

  /** Under each of the six names there is a file or nothing. */
  ghost predicate FilesOrNothing(d: Disk)
  {
    forall n :: n in FILE_NAMES ==> Lookup(d, [n]).IsFile? || Lookup(d, [n]) == Missing
  }

  // ----- Directories the writer can start from -----

  /** Not under the atomic writer yet: no data link, and at most regular files at the six names. */
  ghost predicate Unmanaged(d: Disk)
  {
    DATA !in d && CleanedUpTo(d, 0)
  }

  /** Every visible entry is a proper link, or a regular file at one of the six names from position `i` on. */
  ghost predicate CleanedUpTo(d: Disk, i: nat)
    requires i <= |FILE_NAMES|
  {
    forall n :: n in d && !Hidden(n) ==> d[n] == Link([DATA, n]) || (n in FILE_NAMES[i..] && d[n].Regular?)
  }

  ghost predicate SameHidden(d: Disk, e: Disk)
  {
    forall n :: Hidden(n) ==> (n in d <==> n in e) && (n in d ==> d[n] == e[n])
  }

  lemma CleanedIsManaged(d: Disk)
    requires DATA !in d && CleanedUpTo(d, |FILE_NAMES|)
    ensures Holds(d, map[])
  {
    assert FILE_NAMES[|FILE_NAMES|..] == [];
    assert LiveFiles(d) == map[];
  }

  lemma CleanedOneMore(d: Disk, i: nat)
    requires i < |FILE_NAMES| && CleanedUpTo(d, i)
    requires FILE_NAMES[i] in d ==> d[FILE_NAMES[i]].Link?
    ensures CleanedUpTo(d, i + 1)
  {
    assert FILE_NAMES[i..] == [FILE_NAMES[i]] + FILE_NAMES[i + 1..];
  }

  lemma CleanedSmaller(d: Disk, e: Disk, i: nat)
    requires i <= |FILE_NAMES| && CleanedUpTo(d, i)
    requires forall n :: n in e ==> n in d && e[n] == d[n]
    ensures CleanedUpTo(e, i)
  {
  }

  /** A success that left out no link shows the payload, even if Walk missed something. */
  lemma SuccessShows(a: Attempt)
    requires a.Updates() && Inv(a.start) && Unreserved(a.clean) && a.err == OK && a.skipped == {}
    ensures Shows(a.End(), a.clean)
  {
    if a.states == [] {
      SkipIsRightIff(a);
    } else {
      assert a.Obeys(Preparing);
      ManagedState(a, |a.states|);
    }
  }

  lemma MissingIsNotRead(d: Disk, n: string)
    requires n in FILE_NAMES && n !in d
    ensures ReadBack(d) == None
  {
    assert !StatOk(d, n);
  }

  lemma CertHeads(certs: Artifacts)
    ensures Unreserved(CertFiles(certs)) && AntiChain(CertFiles(certs))
    ensures forall n :: n in Heads(CertFiles(certs).Keys) ==> n in FILE_NAMES && !Hidden(n)
  {
    ProjectionIsPlain(certs);
    ProjectionNames(certs);
    PlainNamesWritable(ProjectionMap(certs));
  }

  /** A success that left out a link cannot be read back. */
  lemma SkippedIsMissing(a: Attempt, certs: Artifacts)
    requires a.Updates() && Inv(a.start) && a.clean == CertFiles(certs) && a.err == OK && a.skipped != {}
    ensures ReadBack(a.End()) == None
  {
    var n :| n in a.skipped;
    CertHeads(certs);
    SkippedStaysMissing(a, n);
    MissingIsNotRead(a.End(), n);
  }

  lemma ProjectionIsWritten(certs: Artifacts, clean: map<Path, Content>)
    ensures AllAccepted(ProjectionMap(certs))
    ensures CleanOf(ProjectionMap(certs), clean) ==> clean == CertFiles(certs) && Unreserved(clean) && AntiChain(clean)
  {
    ProjectionIsPlain(certs);
    PlainNamesWritable(ProjectionMap(certs));
    if CleanOf(ProjectionMap(certs), clean) {
      PlainNamesClean(ProjectionMap(certs), clean);
    }
  }

  /** What one call of the atomic writer means for the certificates. */
  lemma WrittenMeans(a: Attempt, certs: Artifacts)
    requires a.Updates() && Inv(a.start) && a.clean == CertFiles(certs)
    ensures a.err == OK ==> (ReadBack(a.End()) == Some(certs) <==> a.skipped == {})
    ensures a.err == OK && a.SeesAll() ==>
              Holds(a.End(), CertFiles(certs)) && HasLive(a.End()) && ShowsFiles(a.End(), certs)
    ensures UpToDate(a.start, a.clean) && !a.Faulted() ==> a.err == OK && a.states == []
    ensures forall i :: 0 <= i < |a.states| ==>
              Holds(a.states[i], LiveFiles(a.start)) || LiveFiles(a.states[i]) == CertFiles(certs)
  {
    CertHeads(certs);
    if a.err == OK && a.skipped == {} {
      SuccessShows(a);
      DirRoundTrip(a.End(), certs);
    } else if a.err == OK {
      SkippedIsMissing(a, certs);
    }
    if a.err == OK && a.SeesAll() {
      ManagedSuccess(a);
    }
    if !a.Faulted() {
      SkipsIff(a);
    }
    forall i | 0 <= i < |a.states|
      ensures Holds(a.states[i], LiveFiles(a.start)) || LiveFiles(a.states[i]) == CertFiles(certs)
    {
      ManagedHasNoSpecialNames(a);
      if i < a.commit {
        ManagedStagedState(a, i);
      } else {
        PrunedState(a, i);
      }
    }
  }

  // ----- Directories that only ever held certificates -----

  ghost predicate OnlyCerts(d: Disk)
  {
    forall p :: p in LiveFiles(d) ==> |p| == 1 && p[0] in FILE_NAMES
  }

  /** A directory that synchronizations keep: unmanaged, or under the writer with nothing but certificates in it. */
  ghost predicate Usable(d: Disk)
  {
    (Inv(d) || Unmanaged(d)) && OnlyCerts(d)
  }

  /** Names of the shape that MkdirTemp makes. */
  ghost predicate TsNames(names: set<string>)
  {
    forall n :: n in names ==> IsTsName(n)
  }

  /** No temporary link was left behind, and MkdirTemp can make these names. */
  ghost predicate Room(d: Disk, names: set<string>)
  {
    DATA_TMP !in d && names !! d.Keys
  }

  lemma RoomForLess(d: Disk, names: set<string>, fewer: set<string>)
    requires fewer <= names
    ensures Room(d, names) ==> Room(d, fewer)
  {
  }

  lemma NothingDropped(a: Attempt, certs: Artifacts)
    requires Inv(a.start) && OnlyCerts(a.start) && a.clean == CertFiles(certs)
    ensures Dropped(a) == {}
  {
    HeadsOfFiles(LiveTree(a.start));
    ProjectionIsPlain(certs);
    ProjectionNames(certs);
    PlainNamesWritable(ProjectionMap(certs));
  }

  lemma NothingClashes(d: Disk, certs: Artifacts)
    requires Inv(d) && OnlyCerts(d) && HasLive(d)
    ensures !SomeClashes(d, DataTarget(d), CertFiles(certs))
  {
    var tree := LiveTree(d);
    CertHeads(certs);
    forall p | p in CertFiles(certs) ensures !Clashes(d, DataTarget(d), p) {
      LookupBelow(d, LiveName(d), p);
      LookupClosed(tree, p);
      assert |p| == 1 by { ProjectionNames(certs); }
      NameIsLiveOrMissing(d, p);
    }
  }

  lemma NameIsLiveOrMissing(d: Disk, p: Path)
    requires Inv(d) && OnlyCerts(d) && |p| == 1
    ensures p in LiveFiles(d) || LookupTree(LiveTree(d), p) == Missing
  {
    var tree := LiveTree(d);
    if p in tree && tree[p].Dir? {
      var q :| q in tree && tree[q].File? && p <= q;
      assert q in LiveFiles(d) && q == p;
    }
    assert p[..1] == p;
  }

  lemma LiveNameIsLinked(d: Disk, p: Path)
    requires Inv(d) && p in LiveFiles(d) && p != []
    ensures p[0] in d
  {
    assert p[0] in Heads(LiveTree(d).Keys);
  }

  /** On such a directory, under the invariant, each of the six names is a live file or nothing. */
  lemma NameLooksUp(d: Disk, n: string)
    requires Inv(d) && OnlyCerts(d) && n in FILE_NAMES
    ensures Lookup(d, [n]) == if [n] in LiveFiles(d) then IsFile(LiveFiles(d)[[n]]) else Missing
  {
    NameIsPlain(n);
    if [n] in LiveFiles(d) {
      LiveNameIsLinked(d, [n]);
    }
    if n in d && DATA !in d {
      assert ([DATA, n] + [n][1..])[0] == DATA;
    } else if n in d {
      ResolveThroughData(d, [n]);
      LookupClosed(LiveTree(d), [n]);
      NameIsLiveOrMissing(d, [n]);
    }
  }

  /** What is read back depends on the live files only. */
  lemma SameFilesReadSame(d: Disk, e: Disk)
    requires Inv(d) && Inv(e) && OnlyCerts(d) && LiveFiles(d) == LiveFiles(e)
    ensures ReadBack(d) == ReadBack(e)
  {
    forall n | n in FILE_NAMES ensures Lookup(d, [n]) == Lookup(e, [n]) {
      NameLooksUp(d, n);
      NameLooksUp(e, n);
    }
    NamedFiles();
  }

  lemma UsableIsReadable(d: Disk)
    requires Usable(d)
    ensures FilesOrNothing(d)
  {
    forall n | n in FILE_NAMES ensures Lookup(d, [n]).IsFile? || Lookup(d, [n]) == Missing {
      NameIsPlain(n);
      if Inv(d) {
        NameLooksUp(d, n);
      } else if n in d && d[n].Link? {
        assert ([DATA, n] + [n][1..])[0] == DATA;
      }
    }
  }

  lemma RoomStays(a: Attempt, names: set<string>)
    requires a.Updates() && !a.Faulted() && a.err == OK && Room(a.start, names) && a.ts in names
    requires TsNames(names) && forall n :: n in a.Names() ==> !Hidden(n)
    ensures Room(a.End(), names - {a.ts})
  {
    assert Hidden(DATA_TMP);
    KeysInTheEnd(a);
  }

  /** Without faults, on such a directory, the certificates get in, and the next call has room again. */
  lemma CertWriteSucceeds(a: Attempt, certs: Artifacts, names: set<string>)
    requires a.Updates() && !a.Faulted() && Inv(a.start) && OnlyCerts(a.start) && a.clean == CertFiles(certs)
    requires Room(a.start, names) && a.ts in names && TsNames(names)
    ensures a.err == OK && Room(a.End(), names - {a.ts})
  {
    CertHeads(certs);
    NothingDropped(a, certs);
    if HasLive(a.start) {
      NothingClashes(a.start, certs);
    }
    assert Writable(a) && Hidden(DATA_TMP);
    SkipsIff(a);
    if !UpToDate(a.start, a.clean) {
      HeadsOfFiles(LiveTree(a.start));
      HeadsVisible(LiveFiles(a.start));
      assert DrawsNewName(a);
      RenamesIff(a);
      SucceedsIff(a);
    }
    RoomStays(a, names);
  }

  lemma CertWriteKeepsUsable(a: Attempt, certs: Artifacts)
    requires a.Updates() && Inv(a.start) && OnlyCerts(a.start) && a.clean == CertFiles(certs) && a.skipped == {}
    ensures Inv(a.End()) && Usable(a.End())
  {
    CertHeads(certs);
    ManagedState(a, |a.states|);
    ProjectionNames(certs);
  }

  /** Every state of a stretch reads back as before, or as the new certificates. */
  ghost predicate ReadsOldOrNew(states: seq<Disk>, from: nat, before: Option<Artifacts>, certs: Artifacts)
  {
    forall i :: from <= i < |states| ==> ReadBack(states[i]) == before || ReadBack(states[i]) == Some(certs)
  }

  lemma WritesOldOrNew(a: Attempt, certs: Artifacts)
    requires a.Updates() && Inv(a.start) && OnlyCerts(a.start) && a.clean == CertFiles(certs) && a.skipped == {}
    ensures ReadsOldOrNew(a.states, 0, ReadBack(a.start), certs)
  {
    CertHeads(certs);
    forall i | 0 <= i < |a.states|
      ensures ReadBack(a.states[i]) == ReadBack(a.start) || ReadBack(a.states[i]) == Some(certs)
    {
      if i < a.commit {
        ManagedStagedState(a, i);
        SameFilesReadSame(a.start, a.states[i]);
      } else {
        ManagedPrunedState(a, i);
        DirRoundTrip(a.states[i], certs);
      }
    }
  }

  /** What `prepareToWrite` makes of a directory it can handle, when it loses nothing. */
  ghost predicate Prepared(d0: Disk, d1: Disk)
  {
    || (Inv(d0) && d1 == d0)
    || (Unmanaged(d0) && SameHidden(d0, d1) && Holds(d1, map[]))
  }

  /** The call of the writer after a preparation: what it achieves. */
  lemma PreparedWrite(d0: Disk, a: Attempt, certs: Artifacts, names: set<string>)
    requires Prepared(d0, a.start) && a.Updates() && a.clean == CertFiles(certs) && TsNames(names)
    ensures a.err == OK ==> (ReadBack(a.End()) == Some(certs) <==> a.skipped == {})
    ensures a.err == OK && a.SeesAll() ==>
              Holds(a.End(), CertFiles(certs)) && HasLive(a.End()) && ShowsFiles(a.End(), certs)
    ensures !a.Faulted() && OnlyCerts(d0) && a.ts in names && Room(d0, names) ==>
              a.err == OK && Room(a.End(), names - {a.ts})
  {
    WrittenMeans(a, certs);
    if !a.Faulted() && OnlyCerts(d0) && a.ts in names && Room(d0, names) {
      assert Hidden(DATA_TMP) && forall n :: n in names ==> Hidden(n);
      assert Room(a.start, names);
      CertWriteSucceeds(a, certs, names);
    }
  }

  lemma PreparedIsCerts(d0: Disk, d1: Disk)
    requires Prepared(d0, d1) && OnlyCerts(d0)
    ensures Inv(d1) && OnlyCerts(d1)
  {
  }

  class CertDirWriter {
    const writer: Writer

    constructor (writer: Writer)
      ensures this.writer == writer
    {
      this.writer := writer;
    }

    function Dir(): FileSystem
    {
      writer.dir
    }

    /** Under the atomic writer, and with nothing but certificates in it. */
    ghost predicate Managed()
      reads Dir()
    {
      Inv(Dir().disk) && OnlyCerts(Dir().disk)
    }

    /**
     One name of `prepareToWrite`: whatever is there and does not read as a link is removed. Errors are ignored;
     `lost`: a working link went because its lookup failed, or a regular file stayed.
     */
    method PrepareName(f: string) returns (ghost lost: bool)
      requires Dir().Valid() && !Hidden(f)
      modifies Dir()
      ensures Dir().Onward() && (Dir().drops == old(Dir().drops) ==> !lost)
      ensures Dir().disk == old(Dir().disk) || Dir().disk == old(Dir().disk) - {f}
      ensures !lost && (f in old(Dir().disk) ==> old(Dir().disk)[f].Link?) ==>
                Dir().disk == old(Dir().disk) && Dir().trace == old(Dir().trace)
      ensures !lost && f in old(Dir().disk) && old(Dir().disk)[f].Regular? ==> f !in Dir().disk
    {
      lost := false;
      var e := Dir().Stat([f]);
      if e == ENOENT {
        return;
      }
      var r := Dir().Readlink(f);
      if r.Err? {
        ghost var wasLink := f in Dir().disk && Dir().disk[f].Link?;
        e := Dir().Remove(f);
        lost := wasLink || (e != OK && f in Dir().disk && Dir().disk[f].Regular?);
        if lost {
          writer.dir.drops := writer.dir.drops + 1;
        }
      }
    }

    /** `prepareToWrite`. A missing directory is an empty one here; making it may fail. */
    method PrepareToWrite() returns (err: Errno, ghost lost: bool)
      requires Dir().Valid()
      modifies Dir()
      ensures Dir().Onward() && (Dir().drops == old(Dir().drops) ==> !lost)
      ensures Dir().Smooth() ==> err == OK
      ensures err != OK ==> Dir().disk == old(Dir().disk)
      ensures SameHidden(old(Dir().disk), Dir().disk)
      ensures Inv(old(Dir().disk)) && !lost ==>
                Dir().disk == old(Dir().disk) && Dir().trace == old(Dir().trace)
      ensures err == OK && (Inv(old(Dir().disk)) || Unmanaged(old(Dir().disk))) && !lost ==>
                Prepared(old(Dir().disk), Dir().disk)
    {
      lost := false;
      if * {
        writer.dir.faults := writer.dir.faults + 1;
        return EIO, false;
      }
      ghost var d0 := Dir().disk;
      var i := 0;
      while i < |FILE_NAMES|
        invariant 0 <= i <= |FILE_NAMES|
        invariant Dir().Onward() && (Dir().drops == old(Dir().drops) ==> !lost)
        invariant SameHidden(d0, Dir().disk)
        invariant Inv(d0) && !lost ==> Dir().disk == d0 && Dir().trace == old(Dir().trace)
        invariant Unmanaged(d0) && !lost ==> CleanedUpTo(Dir().disk, i)
      {
        NameIsPlain(FILE_NAMES[i]);
        ghost var d1 := Dir().disk;
        ghost var lostHere := PrepareName(FILE_NAMES[i]);
        lost := lost || lostHere;
        if Unmanaged(d0) && !lost {
          CleanedSmaller(d1, Dir().disk, i);
          CleanedOneMore(Dir().disk, i);
        }
        i := i + 1;
      }
      assert Hidden(DATA);
      if Unmanaged(d0) && !lost {
        CleanedIsManaged(Dir().disk);
      }
      return OK, lost;
    }

    /** The atomic writer on the six files. */
    method WriteProjection(certs: Artifacts, candidate: string) returns (err: Errno, ghost a: Attempt)
      requires Dir().Valid()
      modifies Dir()
      ensures Dir().Onward() && Dir().trace == old(Dir().trace) + a.states
      ensures a.start == old(Dir().disk) && a.clean == CertFiles(certs) && a.End() == Dir().disk
      ensures a.err == err && a.ts == candidate && a.Updates() && a.faults == Dir().faults - old(Dir().faults)
      ensures Dir().drops == old(Dir().drops) ==> a.SeesAll()
      ensures DATA_TMP !in a.start && a.faults <= 1 ==> DATA_TMP !in a.End()
    {
      err, a := writer.Write(ProjectionMap(certs), candidate);
      ProjectionIsWritten(certs, a.clean);
      CertHeads(certs);
      assert Hidden(DATA_TMP);
      if DATA_TMP !in a.start && a.faults <= 1 {
        OneFailureLeavesNoTmp(a);
      }
    }

    /**
     `WriteCertsToDir`. A success is read back exactly if no link was left out because its lookup failed, whatever
     else was ignored; and where the certificates are in place already, nothing happens.
     */
    method WriteCertsToDir(certs: Artifacts, candidate: string, ghost names: set<string>)
      returns (err: Errno, ghost skipped: set<string>, ghost lost: bool)
      requires Dir().Valid() && TsNames(names)
      modifies Dir()
      ensures Dir().Onward()
      ensures Dir().drops == old(Dir().drops) ==> skipped == {} && !lost
      // no single failure leaves the temporary link that would block the next call
      ensures DATA_TMP !in old(Dir().disk) && Dir().faults <= old(Dir().faults) + 1 ==> DATA_TMP !in Dir().disk
      ensures (Inv(old(Dir().disk)) || Unmanaged(old(Dir().disk))) && err == OK && !lost ==>
                (ReadBack(Dir().disk) == Some(certs) <==> skipped == {})
      ensures (Inv(old(Dir().disk)) || Unmanaged(old(Dir().disk))) && err == OK
              && Dir().drops == old(Dir().drops) ==>
                Holds(Dir().disk, CertFiles(certs)) && HasLive(Dir().disk) && ShowsFiles(Dir().disk, certs)
      ensures Inv(old(Dir().disk)) && !lost ==>
                forall i :: |old(Dir().trace)| <= i < |Dir().trace| ==>
                  Holds(Dir().trace[i], LiveFiles(old(Dir().disk)))
                  || LiveFiles(Dir().trace[i]) == CertFiles(certs)
      ensures Inv(old(Dir().disk)) && UpToDate(old(Dir().disk), CertFiles(certs)) && Dir().Smooth() ==>
                err == OK && Dir().disk == old(Dir().disk) && Dir().trace == old(Dir().trace)
      ensures old(Usable(Dir().disk)) && Dir().drops == old(Dir().drops) ==> Usable(Dir().disk)
      ensures old(Managed()) && Dir().drops == old(Dir().drops) ==>
                && Managed()
                && ReadsOldOrNew(Dir().trace, |old(Dir().trace)|, old(ReadBack(Dir().disk)), certs)
      ensures Dir().Smooth() && candidate in names && old(Usable(Dir().disk))
              && old(Room(Dir().disk, names)) ==>
                err == OK && Room(Dir().disk, names - {candidate})
    {
      ghost var d0, t0 := Dir().disk, Dir().trace;
      assert Hidden(DATA_TMP);
      err, lost := PrepareToWrite();
      skipped := {};
      if err != OK {
        return;
      }
      if * {
        // the check of NewAtomicWriter
        writer.dir.faults := writer.dir.faults + 1;
        return EIO, skipped, lost;
      }
      ghost var a;
      err, a := WriteProjection(certs, candidate);
      skipped := a.skipped;
      if (Inv(d0) || Unmanaged(d0)) && !lost {
        PreparedWrite(d0, a, certs, names);
        if OnlyCerts(d0) && skipped == {} {
          PreparedIsCerts(d0, a.start);
          CertWriteKeepsUsable(a, certs);
          WritesOldOrNew(a, certs);
        }
        if Inv(d0) {
          WrittenMeans(a, certs);
          assert Dir().trace == t0 + a.states;
        }
      }
    }

    // ----- Reading -----

    method EnsureExist() returns (r: Result<(), ReadError>)
      requires Dir().Valid()
      modifies Dir()`faults
      ensures Dir().Onward()
      ensures r.Ok? ==> forall n :: n in FILE_NAMES ==> StatOk(Dir().disk, n)
      ensures r == Err(NotFound) ==> exists n :: n in FILE_NAMES && Lookup(Dir().disk, [n]) == Missing
      ensures r.Err? && Dir().Smooth() ==> exists n :: n in FILE_NAMES && !StatOk(Dir().disk, n)
      ensures r == Err(Unreadable) && Dir().Smooth() ==> !FilesOrNothing(Dir().disk)
    {
      var i := 0;
      while i < |FILE_NAMES|
        invariant 0 <= i <= |FILE_NAMES|
        invariant Dir().Onward()
        invariant forall j :: 0 <= j < i ==> StatOk(Dir().disk, FILE_NAMES[j])
      {
        var n := FILE_NAMES[i];
        assert n in FILE_NAMES;
        var e := Dir().Stat([n]);
        if e == ENOENT {
          return Err(NotFound);
        }
        if e != OK {
          return Err(Unreadable);
        }
        i := i + 1;
      }
      return Result.Ok(());
    }

    /** The six names must exist, and four of them are read. */
    method Read() returns (r: Result<Artifacts, ReadError>)
      requires Dir().Valid()
      modifies Dir()`faults
      ensures Dir().Onward()
      ensures r.Ok? ==> ReadBack(Dir().disk) == Some(r.value) && FilesRead(Dir().disk, r.value)
      ensures r == Err(NotFound) ==> ReadBack(Dir().disk) == None
      ensures Dir().Smooth() && ReadBack(Dir().disk).Some? ==> r.Ok?
      ensures Dir().Smooth() && FilesOrNothing(Dir().disk) ==> r != Err(Unreadable)
    {
      var exist := EnsureExist();
      if exist.Err? {
        return Err(exist.error);
      }
      NamedFiles();
      var caKey := Dir().ReadFile([Secrets.CA_KEY_NAME]);
      if caKey.Err? {
        return Err(Unreadable);
      }
      var caCert := Dir().ReadFile([Secrets.CA_CERT_NAME]);
      if caCert.Err? {
        return Err(Unreadable);
      }
      var cert := Dir().ReadFile([Secrets.SERVER_CERT_NAME]);
      if cert.Err? {
        return Err(Unreadable);
      }
      var key := Dir().ReadFile([Secrets.SERVER_KEY_NAME]);
      if key.Err? {
        return Err(Unreadable);
      }
      ReadBackMeans(Dir().disk, Artifacts(key.value, cert.value, caKey.value, caCert.value));
      return Result.Ok(Artifacts(key.value, cert.value, caKey.value, caCert.value));
    }
  }

  /** The directory can be read, and its certificates pass the test. */
  ghost predicate HasValid(d: Disk, host: Host, check: Date)
    requires IsDate(check)
  {
    match ReadBack(d)
    case None => false
    case Some(certs) => ValidCert(certs, host, check)
  }

  /** `notFoundError` is the only error the protocol reacts to. */
  datatype ReadError = NotFound | Unreadable

  // ----- The certificate writer on the file system -----

  /** Every state of a stretch reads back as before, or as certificates made at `c`. */
  ghost predicate OnlyMade(trace: seq<Disk>, n: nat, before: Option<Artifacts>, own: Secrets.CAPair, host: Host,
                           c: Secrets.Clock)
    requires Secrets.Ticks(c)
  {
    forall i :: n <= i < |trace| ==>
      var now := ReadBack(trace[i]);
      now == before || (now.Some? && Secrets.MadeAt(now.value, own, host, c))
  }

  /** Every state of a stretch reads back as before, or as renewed. */
  ghost predicate OnlyRenewed(trace: seq<Disk>, n: nat, before: Option<Artifacts>, own: Secrets.CAPair, host: Host,
                              c1: Secrets.Clock, check: Date, c2: Secrets.Clock)
    requires Secrets.InOrder(c1, check, c2)
  {
    forall i :: n <= i < |trace| ==>
      var now := ReadBack(trace[i]);
      now == before || Secrets.Renewed(before, now, own, false, host, c1, check, c2)
  }

  /** Between the halves: `mid` was read or created, and every state so far reads back as before or as created. */
  ghost predicate Created(t: seq<Disk>, n: nat, before: Option<Artifacts>, mid: Option<Artifacts>,
                          own: Secrets.CAPair, host: Host, c1: Secrets.Clock)
    requires Secrets.Ticks(c1)
  {
    && 0 < n <= |t| && OnlyMade(t, n, before, own, host, c1) && (|t| > n ==> before == None)
    && (mid == before || (before == None && mid.Some? && Secrets.MadeAt(mid.value, own, host, c1)))
  }

  lemma MadeIsRenewed(t: seq<Disk>, n: nat, before: Option<Artifacts>, own: Secrets.CAPair, host: Host,
                      c1: Secrets.Clock, check: Date, c2: Secrets.Clock)
    requires Secrets.InOrder(c1, check, c2) && OnlyMade(t, n, before, own, host, c1) && (|t| > n ==> before == None)
    ensures OnlyRenewed(t, n, before, own, host, c1, check, c2)
  {
  }

  /** Creation, and then the replacement of what is no good. */
  lemma CreatedIsRenewed(t: seq<Disk>, u: seq<Disk>, n: nat, before: Option<Artifacts>, mid: Option<Artifacts>,
                         own: Secrets.CAPair, host: Host, c1: Secrets.Clock, check: Date, c2: Secrets.Clock)
    requires Secrets.InOrder(c1, check, c2) && t <= u && Created(t, n, before, mid, own, host, c1)
    requires |u| > |t| ==>
               mid.Some? && !ValidCert(mid.value, host, check) && OnlyMade(u, |t|, mid, own, host, c2)
    ensures OnlyRenewed(u, n, before, own, host, c1, check, c2)
  {
    forall i | n <= i < |u|
      ensures ReadBack(u[i]) == before || Secrets.Renewed(before, ReadBack(u[i]), own, false, host, c1, check, c2)
    {
      assert i < |t| ==> u[i] == t[i];
    }
  }

  /** What a success comes to, by the fields of the certificates. */
  lemma OutcomeMeans(before: Option<Artifacts>, now: Artifacts, own: Secrets.CAPair, host: Host,
                     c1: Secrets.Clock, check: Date, c2: Secrets.Clock, changed: bool)
    requires Secrets.InOrder(c1, check, c2) && host != NoHost
    requires !changed ==> before == Some(now) && ValidCert(now, host, check)
    requires changed && before.Some? ==> !ValidCert(before.value, host, check) && Secrets.MadeAt(now, own, host, c2)
    requires changed && before.None? ==>
               (Secrets.MadeAt(now, own, host, c1) && ValidCert(now, host, check)) || Secrets.MadeAt(now, own, host, c2)
    ensures before.Some? ==> Secrets.Repairs(before.value, now, own, host, check, c2, changed)
    ensures before.None? ==> Secrets.IssuedUnder(now, own, host, c1) || Secrets.IssuedUnder(now, own, host, c2)
    ensures Presentable(now, host, check.inSixMonths)
    ensures !host.IPv6? && Secrets.MaySign(own.cert, c2.leaf) && c2.leaf <= check.inSixMonths ==>
              FitToServe(now, host, check.inSixMonths)
  {
    if before.Some? {
      ValidMeans(before.value, host, check);
    }
    Secrets.ServedIsFit(before, now, own, false, host, check, c2);
    if changed && Secrets.MadeAt(now, own, host, c2) {
      Secrets.MadeMeans(now, own, host, c2);
    } else if changed {
      Secrets.MadeMeans(now, own, host, c1);
    }
  }

  class FsCertWriter {
    const certDir: CertDirWriter
    const generator: SelfSignedCertGenerator

    constructor (certDir: CertDirWriter, generator: SelfSignedCertGenerator)
      ensures this.certDir == certDir && this.generator == generator
    {
      this.certDir, this.generator := certDir, generator;
    }

    function Dir(): FileSystem
    {
      certDir.writer.dir
    }

    /** The pair of the generator. It is never given the one on disk. */
    function Own(): Secrets.CAPair
      reads generator
    {
      Secrets.CAPair(generator.caKey, generator.caCert)
    }

    ghost predicate Managed()
      reads Dir()
    {
      certDir.Managed()
    }

    /** The directory and the random source failed in nothing. */
    twostate predicate Smooth()
      reads Dir(), generator
    {
      Dir().Smooth() && generator.faults == old(generator.faults)
    }

    /** Generates and installs. At every moment the directory reads back as before or as the new certificates. */
    method DoWrite(dnsName: Host, c: Secrets.Clock, candidate: string, ghost names: set<string>)
      returns (r: Option<Artifacts>)
      requires Dir().Valid() && Secrets.Ticks(c) && TsNames(names)
      modifies Dir(), generator`faults
      ensures Dir().Onward() && generator.faults >= old(generator.faults)
      ensures r.Some? ==> Secrets.MadeAt(r.value, Own(), dnsName, c)
      ensures old(Managed()) && Dir().drops == old(Dir().drops) ==>
                Managed() && OnlyMade(Dir().trace, |old(Dir().trace)|, old(ReadBack(Dir().disk)), Own(), dnsName, c)
      ensures r.Some? && Dir().drops == old(Dir().drops)
              && (Inv(old(Dir().disk)) || Unmanaged(old(Dir().disk))) ==>
                Holds(Dir().disk, CertFiles(r.value)) && ReadBack(Dir().disk) == r
      ensures old(Usable(Dir().disk)) && Dir().drops == old(Dir().drops) ==> Usable(Dir().disk)
      ensures Smooth() && dnsName != NoHost && candidate in names && old(Usable(Dir().disk))
              && old(Room(Dir().disk, names)) ==>
                r.Some? && Room(Dir().disk, names - {candidate})
    {
      var certs := generator.Generate(dnsName, c.test, c.ca, c.leaf);
      if certs.None? {
        return None;
      }
      var err, _, _ := certDir.WriteCertsToDir(certs.value, candidate, names);
      return if err == OK then certs else None;
    }

    /** `createIfNotExists`: here nobody else can create first. */
    method CreateIfNotExists(dnsName: Host, c: Secrets.Clock, candidate: string, ghost names: set<string>)
      returns (r: Option<Artifacts>, changed: bool)
      requires Dir().Valid() && Secrets.Ticks(c) && TsNames(names)
      modifies Dir(), generator`faults
      ensures Dir().Onward() && generator.faults >= old(generator.faults)
      ensures r.Some? && Dir().drops == old(Dir().drops)
              && (Inv(old(Dir().disk)) || Unmanaged(old(Dir().disk))) ==>
                ReadBack(Dir().disk) == r && (changed ==> Holds(Dir().disk, CertFiles(r.value)))
      ensures r.Some? && changed ==> Secrets.MadeAt(r.value, Own(), dnsName, c)
      ensures old(Managed()) && Dir().drops == old(Dir().drops) ==>
                && Managed()
                && (|Dir().trace| > |old(Dir().trace)| ==> old(ReadBack(Dir().disk)) == None)
                && OnlyMade(Dir().trace, |old(Dir().trace)|, old(ReadBack(Dir().disk)), Own(), dnsName, c)
                && (r.Some? ==>
                      Created(Dir().trace, |old(Dir().trace)|, old(ReadBack(Dir().disk)), r, Own(), dnsName, c))
      ensures !changed ==> Dir().disk == old(Dir().disk) && Dir().trace == old(Dir().trace)
      ensures !changed && r.Some? ==> ReadBack(Dir().disk) == r
      ensures changed ==> old(ReadBack(Dir().disk)) == None
      ensures Dir().Smooth() && ReadBack(old(Dir().disk)).Some? ==> r == ReadBack(old(Dir().disk)) && !changed
      ensures old(Usable(Dir().disk)) && Dir().drops == old(Dir().drops) ==> Usable(Dir().disk)
      ensures Smooth() && dnsName != NoHost && candidate in names && old(Usable(Dir().disk))
              && old(Room(Dir().disk, names)) ==>
                r.Some? && Room(Dir().disk, names - {candidate})
    {
      if Usable(Dir().disk) {
        UsableIsReadable(Dir().disk);
      }
      var read := certDir.Read();
      if read.Ok? {
        return Some(read.value), false;
      }
      if read.error != NotFound {
        return None, false;
      }
      r := DoWrite(dnsName, c, candidate, names);
      return r, true;
    }

    /** The second half: what was read or created stays if it is valid, and is replaced if not. */
    method RecreateIfInvalid(certs: Artifacts, dnsName: Host, check: Date, c2: Secrets.Clock, candidate: string,
                             ghost names: set<string>, ghost n: nat, ghost before: Option<Artifacts>,
                             ghost c1: Secrets.Clock)
      returns (r: Option<Artifacts>, recreated: bool)
      requires Dir().Valid() && Secrets.InOrder(c1, check, c2) && TsNames(names)
      modifies Dir(), generator`faults
      ensures Dir().Onward() && generator.faults >= old(generator.faults)
      ensures ValidCert(certs, dnsName, check) ==>
                r == Some(certs) && !recreated && Dir().disk == old(Dir().disk) && Dir().trace == old(Dir().trace)
      ensures !ValidCert(certs, dnsName, check) && r.Some? ==> recreated && Secrets.MadeAt(r.value, Own(), dnsName, c2)
      ensures recreated && r.Some? && Dir().drops == old(Dir().drops)
              && (Inv(old(Dir().disk)) || Unmanaged(old(Dir().disk))) ==>
                Holds(Dir().disk, CertFiles(r.value)) && ReadBack(Dir().disk) == r
      ensures old(Usable(Dir().disk)) && Dir().drops == old(Dir().drops) ==> Usable(Dir().disk)
      ensures old(Managed()) && Dir().drops == old(Dir().drops) && old(ReadBack(Dir().disk)) == Some(certs)
              && old(Created(Dir().trace, n, before, Some(certs), Own(), dnsName, c1)) ==>
                Managed() && OnlyRenewed(Dir().trace, n, before, Own(), dnsName, c1, check, c2)
      ensures Smooth() && dnsName != NoHost && candidate in names && old(Usable(Dir().disk))
              && old(Room(Dir().disk, names)) ==>
                r.Some? && Room(Dir().disk, names - {candidate})
    {
      ghost var t, judging := Dir().trace, Created(Dir().trace, n, before, Some(certs), Own(), dnsName, c1);
      if ValidCert(certs, dnsName, check) {
        if judging {
          CreatedIsRenewed(t, t, n, before, Some(certs), Own(), dnsName, c1, check, c2);
        }
        return Some(certs), false;
      }
      ghost var managed, drops := Managed() && ReadBack(Dir().disk) == Some(certs), Dir().drops;
      r := DoWrite(dnsName, c2, candidate, names);
      if judging && managed && Dir().drops == drops {
        CreatedIsRenewed(t, Dir().trace, n, before, Some(certs), Own(), dnsName, c1, check, c2);
      }
      return r, r.Some?;
    }

    /**
     The common protocol on the directory. What it returns is what the directory holds; valid certificates on disk are
     returned without touching it; anything else is replaced by certificates signed for `dnsName`. Without faults it
     succeeds on every usable directory, and leaves room for the other names.
     */
    method HandleCommon(dnsName: Host, c1: Secrets.Clock, check: Date, c2: Secrets.Clock,
                        candidate1: string, candidate2: string, ghost names: set<string>)
      returns (r: Option<Artifacts>, changed: bool)
      requires Dir().Valid() && Secrets.InOrder(c1, check, c2) && TsNames(names)
      modifies Dir(), generator`faults
      ensures Dir().Onward() && generator.faults >= old(generator.faults)
      ensures dnsName == NoHost ==> r == None
      ensures r.Some? && Dir().drops == old(Dir().drops)
              && (Inv(old(Dir().disk)) || Unmanaged(old(Dir().disk))) ==>
                ReadBack(Dir().disk) == r && (changed ==> Holds(Dir().disk, CertFiles(r.value)))
      ensures r.Some? && changed ==>
                || (old(ReadBack(Dir().disk)).None? && Secrets.MadeAt(r.value, Own(), dnsName, c1)
                    && ValidCert(r.value, dnsName, check))
                || (!HasValid(old(Dir().disk), dnsName, check) && Secrets.MadeAt(r.value, Own(), dnsName, c2))
      // at every moment the directory reads back as before or as renewed
      ensures old(Managed()) && Dir().drops == old(Dir().drops) ==>
                && Managed()
                && OnlyRenewed(Dir().trace, |old(Dir().trace)|, old(ReadBack(Dir().disk)), Own(), dnsName, c1, check,
                               c2)
      ensures r.Some? && !changed ==>
                && Dir().disk == old(Dir().disk) && Dir().trace == old(Dir().trace)
                && ReadBack(Dir().disk) == r && HasValid(Dir().disk, dnsName, check)
      ensures dnsName != NoHost && Dir().Smooth() && HasValid(old(Dir().disk), dnsName, check) ==>
                r == ReadBack(old(Dir().disk)) && !changed
      ensures old(Usable(Dir().disk)) && Dir().drops == old(Dir().drops) ==> Usable(Dir().disk)
      ensures Smooth() && dnsName != NoHost && candidate1 != candidate2 && candidate1 in names && candidate2 in names
              && old(Usable(Dir().disk)) && old(Room(Dir().disk, names)) ==>
                r.Some? && Room(Dir().disk, names - {candidate1} - {candidate2})
    {
      if dnsName == NoHost {
        return None, false;
      }
      ghost var n, before := |Dir().trace|, ReadBack(Dir().disk);
      r, changed := CreateIfNotExists(dnsName, c1, candidate1, names);
      if r.None? {
        if old(Managed()) && Dir().drops == old(Dir().drops) {
          MadeIsRenewed(Dir().trace, n, before, Own(), dnsName, c1, check, c2);
        }
        return;
      }
      ghost var rest := names - {candidate1};
      assert candidate1 != candidate2 && candidate2 in names ==> candidate2 in rest;
      var recreated;
      r, recreated := RecreateIfInvalid(r.value, dnsName, check, c2, candidate2, rest, n, before, c1);
      changed := r.Some? && (changed || recreated);
    }

    /** EnsureCert for one host name. */
    method EnsureCert(dnsName: Host, c1: Secrets.Clock, check: Date, c2: Secrets.Clock,
                      candidate1: string, candidate2: string, ghost names: set<string>)
      returns (r: Option<Artifacts>, changed: bool)
      requires Dir().Valid() && Secrets.InOrder(c1, check, c2) && TsNames(names)
      modifies Dir(), generator`faults
      ensures Dir().Onward() && generator.faults >= old(generator.faults)
      ensures dnsName == NoHost ==> r == None
      ensures r.Some? && Dir().drops == old(Dir().drops)
              && (Inv(old(Dir().disk)) || Unmanaged(old(Dir().disk))) ==>
                ReadBack(Dir().disk) == r && (changed ==> Holds(Dir().disk, CertFiles(r.value)))
      ensures r.Some? && changed ==>
                || (Secrets.MadeAt(r.value, Own(), dnsName, c1) && ValidCert(r.value, dnsName, check))
                || Secrets.MadeAt(r.value, Own(), dnsName, c2)
      // at every moment the directory reads back as before or as renewed
      ensures old(Managed()) && Dir().drops == old(Dir().drops) ==>
                && Managed()
                && OnlyRenewed(Dir().trace, |old(Dir().trace)|, old(ReadBack(Dir().disk)), Own(), dnsName, c1, check,
                               c2)
      ensures r.Some? && !changed ==>
                && Dir().disk == old(Dir().disk) && Dir().trace == old(Dir().trace)
                && ReadBack(Dir().disk) == r && HasValid(Dir().disk, dnsName, check)
      // and by fields: what was fit stays, anything else is replaced, and what is returned can be presented
      ensures r.Some? && old(ReadBack(Dir().disk)).Some? ==>
                Secrets.Repairs(old(ReadBack(Dir().disk)).value, r.value, Own(), dnsName, check, c2, changed)
      ensures r.Some? && old(ReadBack(Dir().disk)).None? ==>
                Secrets.IssuedUnder(r.value, Own(), dnsName, c1) || Secrets.IssuedUnder(r.value, Own(), dnsName, c2)
      ensures r.Some? ==>
                && Presentable(r.value, dnsName, check.inSixMonths)
                && (!dnsName.IPv6? && Secrets.MaySign(Own().cert, c2.leaf) && c2.leaf <= check.inSixMonths ==>
                      FitToServe(r.value, dnsName, check.inSixMonths))
      ensures dnsName != NoHost && Dir().Smooth() && HasValid(old(Dir().disk), dnsName, check) ==>
                r == ReadBack(old(Dir().disk)) && !changed
      ensures old(Usable(Dir().disk)) && Dir().drops == old(Dir().drops) ==> Usable(Dir().disk)
      ensures Smooth() && dnsName != NoHost && candidate1 != candidate2 && candidate1 in names && candidate2 in names
              && old(Usable(Dir().disk)) && old(Room(Dir().disk, names)) ==>
                r.Some? && Room(Dir().disk, names - {candidate1} - {candidate2})
    {
      ghost var before := ReadBack(Dir().disk);
      r, changed := HandleCommon(dnsName, c1, check, c2, candidate1, candidate2, names);
      if r.Some? {
        OutcomeMeans(before, r.value, Own(), dnsName, c1, check, c2, changed);
      }
    }
  }
}

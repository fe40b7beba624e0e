/**
 Any number of replicas run the certificate protocol on one Secret at the same time: live reads, create-if-absent,
 updates that name the version they read, replies that get lost, errors and retries. The replicas share the host
 name; nobody else edits the Secret and no certificate expires during the run.
 */
module Replicas {
  import opened Contents
  import opened Calendar
  import opened Certificates
  import opened SecretWriter

  /** What all replicas judge by: the host and the moment. */
  datatype Config = Config(host: Host, now: Date)

  predicate Good(cfg: Config, certs: Artifacts)
    requires IsDate(cfg.now)
  {
    ValidCert(certs, cfg.host, cfg.now)
  }

  /** Where a replica is between two API calls, with the certificates it has generated for its next write. */
  datatype PC =
    | Idle
    | Creating(g: Artifacts)
    | Rereading
    | Overwriting(version: nat, g: Artifacts)
    | Done(certs: Artifacts)
    | Failed

  datatype State = State(secret: Option<Secret>, nextVersion: nat, pcs: seq<PC>, writes: nat)

  function Certs(s: Secret): Artifacts
  {
    DataToCerts(s.data)
  }

  ghost predicate Init(cfg: Config, s: State)
  {
    && IsDate(cfg.now)
    && s.writes == 0
    && (s.secret.Some? ==> s.secret.value.version < s.nextVersion)
    && forall i :: 0 <= i < |s.pcs| ==> s.pcs[i] == Idle
  }

  /** What a replica does with a Secret it has read: return it, or prepare to overwrite it. */
  ghost predicate Decides(cfg: Config, read: Secret, pc: PC)
    requires IsDate(cfg.now)
  {
    if Good(cfg, Certs(read)) then pc == Done(Certs(read))
    else pc.Overwriting? && pc.version == read.version && Good(cfg, pc.g)
  }

  function Written(s: State, g: Artifacts): State
  {
    s.(secret := Some(Secret(CertsToData(g), s.nextVersion)), nextVersion := s.nextVersion + 1, writes := s.writes + 1)
  }

  /** One API call of replica `i`, or its retry. The generator only makes certificates that pass the test. */
  ghost predicate Step(cfg: Config, s: State, t: State, i: nat)
    requires IsDate(cfg.now)
  {
    && i < |s.pcs| == |t.pcs|
    && (forall j :: 0 <= j < |s.pcs| && j != i ==> t.pcs[j] == s.pcs[j])
    && var pc, pc' := s.pcs[i], t.pcs[i];
       var s' := s.(pcs := t.pcs);
       // the API call fails without effect
       || (pc' == Failed && t == s')
       // the next synchronization starts over
       || ((pc.Failed? || pc.Done?) && pc' == Idle && t == s')
       || (pc.Idle? && t == s' &&
           match s.secret
           case None => pc'.Creating? && Good(cfg, pc'.g)
           case Some(read) => Decides(cfg, read, pc'))
       || (pc.Creating? &&
           if s.secret.None? then t == Written(s', pc.g) && (pc' == Done(pc.g) || pc' == Failed)
           else t == s' && pc' == Rereading)
       || (pc.Rereading? && t == s' && s.secret.Some? && Decides(cfg, s.secret.value, pc'))
       || (pc.Overwriting? && s.secret.Some? && s.secret.value.version == pc.version &&
           t == Written(s', pc.g) && (pc' == Done(pc.g) || pc' == Failed))
  }

  ghost predicate Next(cfg: Config, s: State, t: State)
    requires IsDate(cfg.now)
  {
    exists i: nat :: Step(cfg, s, t, i)
  }

  ghost predicate StepAt(cfg: Config, run: seq<State>, k: nat)
    requires IsDate(cfg.now)
  {
    k + 1 < |run| ==> Next(cfg, run[k], run[k + 1])
  }

  ghost predicate IsRun(cfg: Config, run: seq<State>)
  {
    && |run| > 0 && Init(cfg, run[0])
    && forall k: nat :: StepAt(cfg, run, k)
  }

  ghost predicate HasGood(cfg: Config, secret: Option<Secret>)
    requires IsDate(cfg.now)
  {
    secret.Some? && Good(cfg, Certs(secret.value))
  }

  /** Of every replica: prepared writes are good, and a prepared overwrite is for a bad Secret or comes too late. */
  ghost predicate PcOk(cfg: Config, s: State, pc: PC)
    requires IsDate(cfg.now)
  {
    match pc
    case Creating(g) => Good(cfg, g)
    case Overwriting(v, g) =>
      Good(cfg, g) && v < s.nextVersion &&
      (s.secret.Some? && s.secret.value.version == v ==> !HasGood(cfg, s.secret))
    case Rereading => s.secret.Some?
    case Done(certs) => HasGood(cfg, s.secret) && certs == Certs(s.secret.value)
    case _ => true
  }

  ghost predicate Inv(cfg: Config, init: State, s: State)
  {
    && IsDate(cfg.now)
    && (s.secret.Some? ==> s.secret.value.version < s.nextVersion)
    && (if s.writes == 0 then s.secret == init.secret
        else s.writes == 1 && HasGood(cfg, s.secret) && !HasGood(cfg, init.secret))
    && forall i :: 0 <= i < |s.pcs| ==> PcOk(cfg, s, s.pcs[i])
  }

  lemma WriteKeepsInv(cfg: Config, init: State, s: State, t: State, i: nat, g: Artifacts)
    requires Inv(cfg, init, s) && i < |s.pcs| == |t.pcs| && Good(cfg, g)
    requires !HasGood(cfg, s.secret)
    requires forall j :: 0 <= j < |s.pcs| && j != i ==> t.pcs[j] == s.pcs[j]
    requires t == Written(s.(pcs := t.pcs), g) && (t.pcs[i] == Done(g) || t.pcs[i] == Failed)
    ensures Inv(cfg, init, t)
  {
    SecretRoundTrip(g);
    forall j | 0 <= j < |t.pcs| ensures PcOk(cfg, t, t.pcs[j]) {
      if j != i {
        assert PcOk(cfg, s, s.pcs[j]);
      }
    }
  }

  lemma StepKeepsInv(cfg: Config, init: State, s: State, t: State, i: nat)
    requires Inv(cfg, init, s) && Step(cfg, s, t, i)
    ensures Inv(cfg, init, t)
  {
    assert PcOk(cfg, s, s.pcs[i]);
    if t.writes != s.writes {
      WriteKeepsInv(cfg, init, s, t, i, s.pcs[i].g);
    } else {
      forall j | 0 <= j < |t.pcs| ensures PcOk(cfg, t, t.pcs[j]) {
        assert PcOk(cfg, s, s.pcs[j]);
      }
    }
  }

  lemma {:induction false} RunKeepsInv(cfg: Config, run: seq<State>, k: nat)
    requires IsRun(cfg, run) && k < |run|
    ensures Inv(cfg, run[0], run[k])
    decreases k
  {
    if k == 0 {
    } else {
      RunKeepsInv(cfg, run, k - 1);
      assert StepAt(cfg, run, k - 1);
      var i: nat :| Step(cfg, run[k - 1], run[k], i);
      StepKeepsInv(cfg, run[0], run[k - 1], run[k], i);
    }
  }

  /** In every run the Secret is written at most once, and not at all if it was valid from the start. */
  lemma AtMostOneWrite(cfg: Config, run: seq<State>, k: nat)
    requires IsRun(cfg, run) && k < |run|
    ensures run[k].writes <= 1
    ensures HasGood(cfg, run[0].secret) ==> run[k].writes == 0 && run[k].secret == run[0].secret
    ensures HasGood(cfg, run[0].secret) <==>
              run[0].secret.Some? && FitToServe(Certs(run[0].secret.value), cfg.host, cfg.now.inSixMonths)
  {
    if run[0].secret.Some? {
      ValidMeans(Certs(run[0].secret.value), cfg.host, cfg.now);
    }
    RunKeepsInv(cfg, run, k);
  }

  lemma GoodStays(cfg: Config, init: State, s: State, t: State, i: nat)
    requires Inv(cfg, init, s) && Step(cfg, s, t, i) && HasGood(cfg, s.secret)
    ensures t.secret == s.secret
  {
    assert PcOk(cfg, s, s.pcs[i]);
  }

  /** A valid Secret is final: once it is valid it never changes again. */
  lemma {:induction false} ValidIsFinal(cfg: Config, run: seq<State>, k: nat, l: nat)
    requires IsRun(cfg, run) && k <= l < |run| && HasGood(cfg, run[k].secret)
    ensures run[l].secret == run[k].secret
    decreases l
  {
    if k == l {
    } else {
      ValidIsFinal(cfg, run, k, l - 1);
      RunKeepsInv(cfg, run, l - 1);
      assert StepAt(cfg, run, l - 1);
      var i: nat :| Step(cfg, run[l - 1], run[l], i);
      GoodStays(cfg, run[0], run[l - 1], run[l], i);
    }
  }

  /**
   Agreement: all replicas that finish, whenever in the run they do, return the same certificates, those are in the
   Secret from then on, and a client accepts them in six months.
   */
  lemma FinishersAgree(cfg: Config, run: seq<State>, k: nat, l: nat, i: nat, j: nat)
    requires IsRun(cfg, run) && k <= l < |run|
    requires i < |run[k].pcs| && j < |run[l].pcs| && run[k].pcs[i].Done? && run[l].pcs[j].Done?
    ensures run[l].secret.Some? && run[k].pcs[i].certs == run[l].pcs[j].certs == Certs(run[l].secret.value)
    ensures FitToServe(run[k].pcs[i].certs, cfg.host, cfg.now.inSixMonths)
    ensures run[l].writes == if HasGood(cfg, run[0].secret) then 0 else 1
  {
    ValidMeans(run[k].pcs[i].certs, cfg.host, cfg.now);
    RunKeepsInv(cfg, run, k);
    RunKeepsInv(cfg, run, l);
    assert PcOk(cfg, run[k], run[k].pcs[i]) && PcOk(cfg, run[l], run[l].pcs[j]);
    ValidIsFinal(cfg, run, k, l);
  }

  // ----- Progress -----

  /** A replica that is alone and has no failure: its next state, if it would generate `g`. */
  function Alone(cfg: Config, s: State, i: nat, g: Artifacts): State
    requires IsDate(cfg.now) && i < |s.pcs|
  {
    match s.pcs[i]
    case Idle => s.(pcs := s.pcs[i := if s.secret.None? then Creating(g) else Judged(cfg, s.secret.value, g)])
    case Creating(own) =>
      if s.secret.None? then Written(s.(pcs := s.pcs[i := Done(own)]), own) else s.(pcs := s.pcs[i := Rereading])
    case Rereading => if s.secret.None? then s else s.(pcs := s.pcs[i := Judged(cfg, s.secret.value, g)])
    case Overwriting(version, own) =>
      if s.secret.Some? && s.secret.value.version == version then Written(s.(pcs := s.pcs[i := Done(own)]), own)
      else s.(pcs := s.pcs[i := Failed])
    case Done(_) => s
    case Failed => s.(pcs := s.pcs[i := Idle])
  }

  function Judged(cfg: Config, read: Secret, g: Artifacts): PC
    requires IsDate(cfg.now)
  {
    if Good(cfg, Certs(read)) then Done(Certs(read)) else Overwriting(read.version, g)
  }

  /** Each of these is a step of the protocol. A replica that rereads finds a Secret, since nobody deletes it. */
  lemma AloneIsAStep(cfg: Config, s: State, i: nat, g: Artifacts)
    requires IsDate(cfg.now) && i < |s.pcs| && Good(cfg, g) && !s.pcs[i].Done?
    requires s.pcs[i].Rereading? ==> s.secret.Some?
    ensures Step(cfg, s, Alone(cfg, s, i, g), i)
  {
  }

  function Steps(cfg: Config, s: State, i: nat, g: Artifacts, n: nat): State
    requires IsDate(cfg.now) && i < |s.pcs|
    decreases n
  {
    if n == 0 then s else Steps(cfg, Alone(cfg, s, i, g), i, g, n - 1)
  }

  /** How far a replica that is alone is from its end. */
  function Distance(s: State, i: nat): nat
    requires i < |s.pcs|
  {
    match s.pcs[i]
    case Idle => 2
    case Creating(_) => if s.secret.None? then 1 else 3
    case Rereading => 2
    case Overwriting(version, _) => if s.secret.Some? && s.secret.value.version == version then 1 else 4
    case Done(_) => 0
    case Failed => 3
  }

  /** From every state of a run a replica needs at most four steps of its own to finish, wherever the others are. */
  lemma {:induction false} EachCanFinish(cfg: Config, init: State, s: State, i: nat, g: Artifacts) returns (n: nat)
    requires Inv(cfg, init, s) && i < |s.pcs| && Good(cfg, g)
    ensures n <= 4 && n <= Distance(s, i) && Inv(cfg, init, Steps(cfg, s, i, g, n))
    ensures |Steps(cfg, s, i, g, n).pcs| == |s.pcs| && Steps(cfg, s, i, g, n).pcs[i].Done?
    decreases Distance(s, i)
  {
    assert PcOk(cfg, s, s.pcs[i]);
    if s.pcs[i].Done? {
      n := 0;
    } else {
      AloneIsAStep(cfg, s, i, g);
      StepKeepsInv(cfg, init, s, Alone(cfg, s, i, g), i);
      var rest := EachCanFinish(cfg, init, Alone(cfg, s, i, g), i, g);
      n := rest + 1;
    }
  }

  // ----- The same from the contract of HandleCommon, over real time -----

  /** The log from position 1 on consists of writes that each satisfy what HandleCommon promises of its own. */
  datatype LoggedWrite = LoggedWrite(event: WriteEvent, check: Date)

  ghost predicate OnlyReplicasWrite(host: Host, log: seq<Option<Secret>>, ws: seq<LoggedWrite>)
  {
    && |log| == |ws| + 1
    && forall k :: 0 <= k < |ws| ==> WriteAt(host, log, ws, k)
  }

  ghost predicate WriteAt(host: Host, log: seq<Option<Secret>>, ws: seq<LoggedWrite>, k: nat)
    requires k < |ws|
  {
    IsDate(ws[k].check) && ws[k].event.at == k + 1 && IsWrite(log, ws[k].event, host, ws[k].check)
  }

  /** The certificate of the first write still passes the test when the second writer judges it. */
  ghost predicate StillPasses(host: Host, w: LoggedWrite, later: Date)
  {
    && IsDate(later) && IsDate(w.event.c.test) && SoonAfter(w.event.c.test, w.event.c.leaf, later)
    && OwnCertsPass(w.event.caKey, w.event.caCert, host, w.event.c.test, later)
  }

  /** No second write can follow within 181 days: HandleCommon never replaces what still passes. */
  lemma NoWriteFollows(host: Host, log: seq<Option<Secret>>, ws: seq<LoggedWrite>, k: nat)
    requires OnlyReplicasWrite(host, log, ws) && k + 1 < |ws|
    ensures !StillPasses(host, ws[k], ws[k + 1].check)
  {
    assert WriteAt(host, log, ws, k) && WriteAt(host, log, ws, k + 1);
    var w := ws[k].event;
    if StillPasses(host, ws[k], ws[k + 1].check) {
      OwnCertIsValid(DataToCerts(log[k + 1].value.data), w.caKey, w.caCert, host, w.c, ws[k + 1].check);
      assert false;
    }
  }

  /**
   So replicas that run HandleCommon as it is, with their own clocks, write the Secret at most once in such a window,
   and not at all while what is stored passes at every check.
   */
  lemma OneWritePerWindow(host: Host, log: seq<Option<Secret>>, ws: seq<LoggedWrite>)
    requires OnlyReplicasWrite(host, log, ws)
    requires forall k, l :: 0 <= k < l < |ws| ==> StillPasses(host, ws[k], ws[l].check)
    ensures |ws| <= 1
    ensures log[0].Some?
            && (forall k :: 0 <= k < |ws| ==> IsDate(ws[k].check)
                                              && ValidCert(DataToCerts(log[0].value.data), host, ws[k].check)) ==>
              ws == []
  {
    if |ws| > 1 {
      NoWriteFollows(host, log, ws, 0);
    }
    if |ws| > 0 {
      assert WriteAt(host, log, ws, 0);
    }
  }
}

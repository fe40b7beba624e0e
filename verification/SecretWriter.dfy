/**
 The certificate writer that keeps its certificates in one Kubernetes Secret, shared with other replicas and with
 anyone who edits the cluster. Before every API call the rest of the world may act; the ghost log of the server
 records each state the Secret is ever in.
 */
module SecretWriter {
  import opened Contents
  import opened Calendar
  import opened Certificates

  const CA_KEY_NAME := "ca-key.pem"
  const CA_CERT_NAME := "ca-cert.pem"
  const SERVER_KEY_NAME := "key.pem"
  const SERVER_KEY_NAME2 := "tls.key"
  const SERVER_CERT_NAME := "cert.pem"
  const SERVER_CERT_NAME2 := "tls.crt"

  /** A missing data map and an empty one read the same. */
  datatype Secret = Secret(data: map<string, Content>, version: nat)

  datatype ApiError = NotFound | AlreadyExists | Conflict | EmptyName | Other

  type ApiResult<+T> = Result<T, ApiError>

  // ----- Conversions -----

  function Field(data: map<string, Content>, name: string): Content
  {
    if name in data then data[name] else EMPTY
  }

  function DataToCerts(data: map<string, Content>): Artifacts
  {
    Artifacts(Field(data, SERVER_KEY_NAME), Field(data, SERVER_CERT_NAME),
              Field(data, CA_KEY_NAME), Field(data, CA_CERT_NAME))
  }

  function CertsToData(certs: Artifacts): map<string, Content>
  {
    map[
      CA_KEY_NAME := certs.caKey,
      CA_CERT_NAME := certs.caCert,
      SERVER_KEY_NAME := certs.key,
      SERVER_KEY_NAME2 := certs.key,
      SERVER_CERT_NAME := certs.cert,
      SERVER_CERT_NAME2 := certs.cert
    ]
  }

  lemma NamesDiffer()
    ensures CA_KEY_NAME != CA_CERT_NAME && CA_KEY_NAME != SERVER_KEY_NAME && CA_KEY_NAME != SERVER_KEY_NAME2
    ensures CA_KEY_NAME != SERVER_CERT_NAME && CA_KEY_NAME != SERVER_CERT_NAME2
    ensures CA_CERT_NAME != SERVER_KEY_NAME && CA_CERT_NAME != SERVER_KEY_NAME2
    ensures CA_CERT_NAME != SERVER_CERT_NAME && CA_CERT_NAME != SERVER_CERT_NAME2
    ensures SERVER_KEY_NAME != SERVER_KEY_NAME2 && SERVER_KEY_NAME != SERVER_CERT_NAME
    ensures SERVER_KEY_NAME != SERVER_CERT_NAME2 && SERVER_KEY_NAME2 != SERVER_CERT_NAME
    ensures SERVER_KEY_NAME2 != SERVER_CERT_NAME2 && SERVER_CERT_NAME != SERVER_CERT_NAME2
  {
    assert CA_KEY_NAME[3] == 'k' && CA_CERT_NAME[3] == 'c' && SERVER_KEY_NAME[3] == '.';
    assert SERVER_KEY_NAME2[3] == '.' && SERVER_CERT_NAME[3] == 't' && SERVER_CERT_NAME2[3] == '.';
    assert SERVER_KEY_NAME[4] == 'p' && SERVER_KEY_NAME2[4] == 'k' && SERVER_CERT_NAME2[4] == 'c';
  }

  /** What is written is what is read back. */
  lemma SecretRoundTrip(certs: Artifacts)
    ensures DataToCerts(CertsToData(certs)) == certs
  {
    NamesDiffer();
  }

  // ----- The API server -----

  /** An update that names this version is accepted. */
  predicate Allows(secret: Option<Secret>, version: Option<nat>)
  {
    secret.Some? && (version.Some? ==> version.value == secret.value.version)
  }

  class ApiServer {
    var secret: Option<Secret>
    var nextVersion: nat
    /** Every state of the Secret, oldest first. */
    ghost var log: seq<Option<Secret>>
    /** Where in the log this process wrote, including writes whose reply was lost. */
    ghost var writes: seq<nat>
    /** How often somebody else changed the Secret. */
    ghost var foreign: nat
    /** How many calls failed, or lost their reply, although the Secret allowed them. */
    ghost var faults: nat

    ghost predicate Valid()
      reads this
    {
      && |log| > 0 && log[|log| - 1] == secret
      && (secret.Some? ==> secret.value.version < nextVersion)
      && (forall i :: 0 <= i < |writes| ==> 0 < writes[i] < |log|)
    }

    /** What every stretch of calls does: the log goes on. */
    twostate predicate Onward()
      reads this
    {
      && Valid() && old(log) <= log && old(writes) <= writes
      && old(foreign) <= foreign && old(faults) <= faults
      && (Undisturbed() && writes == old(writes) ==> secret == old(secret) && log == old(log))
    }

    /** Nobody else changed the Secret. */
    twostate predicate Undisturbed()
      reads this
    {
      foreign == old(foreign)
    }

    /** No call failed without a reason in the Secret. */
    twostate predicate Smooth()
      reads this
    {
      faults == old(faults)
    }

    constructor (secret: Option<Secret>, nextVersion: nat)
      requires secret.Some? ==> secret.value.version < nextVersion
      ensures Valid() && this.secret == secret && log == [secret] && writes == [] && foreign == 0 && faults == 0
    {
      this.secret, this.nextVersion := secret, nextVersion;
      log, writes, foreign, faults := [secret], [], 0, 0;
    }

    /** The rest of the world: any number of creations, edits and deletions, each with a version of its own. */
    method Interfere()
      requires Valid()
      modifies this`secret, this`nextVersion, this`log, this`foreign
      ensures Valid() && old(log) <= log && foreign >= old(foreign) && nextVersion >= old(nextVersion)
      ensures foreign == old(foreign) ==> secret == old(secret) && log == old(log)
      ensures secret.Some? && secret.value.version < old(nextVersion) ==> secret == old(secret)
    {
      var n: nat := *;
      while n > 0
        invariant Valid() && old(log) <= log && foreign >= old(foreign) && nextVersion >= old(nextVersion)
        invariant foreign == old(foreign) ==> secret == old(secret) && log == old(log)
        invariant secret.Some? && secret.value.version < old(nextVersion) ==> secret == old(secret)
      {
        if * {
          secret := None;
        } else {
          var data: map<string, Content> := *;
          secret, nextVersion := Some(Secret(data, nextVersion)), nextVersion + 1;
        }
        log, foreign := log + [secret], foreign + 1;
        n := n - 1;
      }
    }

    method Get() returns (r: ApiResult<Secret>)
      requires Valid()
      modifies this`secret, this`nextVersion, this`log, this`foreign, this`faults
      ensures Onward()
      ensures r.Ok? ==> secret == Some(r.value)
      ensures r == Err(NotFound) ==> secret == None
      ensures Smooth() ==> r.Ok? || r == Err(NotFound)
      ensures r != Err(AlreadyExists)
    {
      Interfere();
      if * {
        faults := faults + 1;
        return Err(Other);
      }
      match secret
      case None => return Err(NotFound);
      case Some(s) => return Ok(s);
    }

    /** The write itself; the reply to it may still be lost. */
    method Put(data: map<string, Content>) returns (r: ApiResult<()>)
      requires Valid()
      modifies this
      ensures Onward() && foreign == old(foreign)
      ensures secret == Some(Secret(data, old(nextVersion))) && log == old(log) + [secret]
      ensures writes == old(writes) + [|old(log)|]
      ensures r.Ok? || r == Err(Other)
      ensures Smooth() ==> r.Ok?
    {
      writes := writes + [|log|];
      secret, nextVersion := Some(Secret(data, nextVersion)), nextVersion + 1;
      log := log + [secret];
      if * {
        faults := faults + 1;
        return Err(Other);
      }
      return Ok(());
    }

    method Create(data: map<string, Content>) returns (r: ApiResult<()>)
      requires Valid()
      modifies this
      ensures Onward()
      ensures r.Ok? ==> writes != old(writes)
      ensures r == Err(AlreadyExists) ==> writes == old(writes) && secret.Some?
      ensures writes != old(writes) ==> Wrote(old(|log|), old(writes), data) && log[|log| - 2] == None
      ensures writes != old(writes) && Undisturbed() ==> old(secret) == None && log == old(log) + [secret]
      ensures Smooth() ==> r.Ok? || r == Err(AlreadyExists)
    {
      Interfere();
      if * {
        faults := faults + 1;
        return Err(Other);
      }
      if secret.Some? {
        return Err(AlreadyExists);
      }
      r := Put(data);
    }

    /** Without a version the update is unconditional. */
    method Update(data: map<string, Content>, version: Option<nat>) returns (r: ApiResult<()>)
      requires Valid()
      modifies this
      ensures Onward()
      ensures r.Ok? ==> writes != old(writes)
      ensures writes != old(writes) ==>
                && Wrote(old(|log|), old(writes), data) && log[|log| - 2].Some?
                && (version.Some? ==> log[|log| - 2].value.version == version.value)
                && (version.Some? && version.value < old(nextVersion) ==> log[|log| - 2] == old(secret))
      ensures writes != old(writes) && Undisturbed() ==> log[|log| - 2] == old(secret) && log == old(log) + [secret]
      ensures Smooth() && Undisturbed() && Allows(old(secret), version) ==> r.Ok?
      ensures Smooth() ==> r.Ok? || r == Err(NotFound) || r == Err(Conflict)
      ensures r != Err(AlreadyExists)
    {
      Interfere();
      if * {
        faults := faults + 1;
        return Err(Other);
      }
      if secret.None? {
        return Err(NotFound);
      }
      if version.Some? && version.value != secret.value.version {
        return Err(Conflict);
      }
      r := Put(data);
    }

    /** The last log entry is this process's only write since `writes` was `before`. */
    ghost predicate Wrote(n: nat, before: seq<nat>, data: map<string, Content>)
      reads this
    {
      && |log| > n > 0 && |log| >= 2
      && writes == before + [|log| - 1]
      && secret.Some? && secret.value.data == data && log[|log| - 1] == secret
    }
  }

  // ----- The writer -----

  /** The clock of one generation: at the CA test, while signing the CA, while signing the leaf. */
  datatype Clock = Clock(test: Date, ca: int, leaf: int)

  predicate Ticks(c: Clock)
  {
    IsDate(c.test) && Seconds(c.test) <= c.ca <= c.leaf
  }

  /** Time passes: the first generation, the validity check, the second generation. A call takes less than 181 days. */
  ghost predicate InOrder(c1: Clock, check: Date, c2: Clock)
  {
    && Ticks(c1) && IsDate(check) && Ticks(c2)
    && SoonAfter(c1.test, c1.leaf, check)
    && Seconds(check) <= Seconds(c2.test)
  }

  /** Certificates this process would generate from nothing pass its own test. */
  ghost predicate OwnCertsPass(caKey: Content, caCert: Content, host: Host, now: Date, check: Date)
    requires IsDate(now) && IsDate(check)
  {
    !host.IPv6? && (ReusableCA(caKey, caCert, now) ==> GoodSigner(caCert.certs[0], SixMonthsAfter(check)))
  }

  lemma OwnCertIsValid(g: Artifacts, caKey: Content, caCert: Content, host: Host, c: Clock, check: Date)
    requires Ticks(c) && IsDate(check) && SoonAfter(c.test, c.leaf, check)
    requires GeneratedBy(g, caKey, caCert, host, c.test, c.ca, c.leaf)
    requires OwnCertsPass(caKey, caCert, host, c.test, check)
    ensures ValidCert(g, host, check)
  {
    GeneratedIsAcceptedIff(g, caKey, caCert, host, c.test, c.ca, c.leaf, check);
  }

  /** The write at position `w` created the Secret, or replaced certificates that were no good. */
  ghost predicate ReplacesNothingValid(log: seq<Option<Secret>>, w: nat, host: Host, check: Date)
    requires IsDate(check)
  {
    0 < w < |log| && (log[w - 1].Some? ==> !ValidCert(DataToCerts(log[w - 1].value.data), host, check))
  }

  /** The certificates in a store: of a Secret, or of a directory. */
  function Stored(secret: Option<Secret>): Option<Artifacts>
  {
    match secret
    case None => None
    case Some(s) => Some(DataToCerts(s.data))
  }

  /** The pair of a generator, which it may be given or start with. */
  datatype CAPair = CAPair(key: Content, cert: Content)

  /** The pair that renews what is stored: with a Secret it is the stored one, with a directory the generator's own. */
  function Signer(before: Option<Artifacts>, own: CAPair, keepsCA: bool): CAPair
  {
    if before.Some? && keepsCA then CAPair(before.value.caKey, before.value.caCert) else own
  }

  ghost predicate MadeAt(g: Artifacts, ca: CAPair, host: Host, c: Clock)
    requires Ticks(c)
  {
    GeneratedBy(g, ca.key, ca.cert, host, c.test, c.ca, c.leaf)
  }

  /** What a call may put into the place of what was stored: certificates of its own, and of nothing valid. */
  ghost predicate Renewed(before: Option<Artifacts>, now: Option<Artifacts>, own: CAPair, keepsCA: bool,
                          host: Host, c1: Clock, check: Date, c2: Clock)
    requires InOrder(c1, check, c2)
  {
    && now.Some?
    && (before.Some? ==> !ValidCert(before.value, host, check))
    && (MadeAt(now.value, Signer(before, own, keepsCA), host, c2) || (before.None? && MadeAt(now.value, own, host, c1)))
  }

  /** What a call that succeeds leaves: certificates that passed its test, or new ones after they did not. */
  ghost predicate Served(before: Option<Artifacts>, now: Option<Artifacts>, own: CAPair, keepsCA: bool,
                         host: Host, check: Date, c2: Clock)
    requires IsDate(check) && Ticks(c2)
  {
    && now.Some?
    && (ValidCert(now.value, host, check) || MadeAt(now.value, Signer(before, own, keepsCA), host, c2))
  }

  // ----- The same by the fields of the certificates -----

  /** The CA certificate that may be used again is one of a CA, and has started. */
  ghost predicate MaySign(caCert: Content, t: int)
  {
    caCert.CertsPem? && |caCert.certs| == 1 ==> caCert.certs[0].isCA && caCert.certs[0].notBefore <= t
  }

  /** Issued at `c` for the host, under `ca` if that is fit to sign for a year more, and under a fresh CA if not. */
  ghost predicate IssuedUnder(g: Artifacts, ca: CAPair, host: Host, c: Clock)
  {
    && IsIssued(g, host, c.leaf)
    && if FitToSign(ca.key, ca.cert, c.test.inOneYear) then g.caKey == ca.key && g.caCert == ca.cert
       else IsFreshCA(g, c.ca)
  }

  /** What was fit for six months is returned and not written; anything else is replaced. */
  ghost predicate Repairs(before: Artifacts, now: Artifacts, ca: CAPair, host: Host, check: Date, c2: Clock,
                          wrote: bool)
  {
    if FitToServe(before, host, check.inSixMonths) then now == before && !wrote
    else wrote && IssuedUnder(now, ca, host, c2)
  }

  lemma MadeMeans(g: Artifacts, ca: CAPair, host: Host, c: Clock)
    requires Ticks(c) && MadeAt(g, ca, host, c)
    ensures IssuedUnder(g, ca, host, c)
  {
    GeneratedMeans(g, ca.key, ca.cert, host, c.test, c.ca, c.leaf);
  }

  /** Issued certificates can be presented for a year, and a client accepts them if their CA may sign. */
  lemma IssuedIsFit(g: Artifacts, ca: CAPair, host: Host, c: Clock, t: int)
    requires Ticks(c) && IssuedUnder(g, ca, host, c) && host != NoHost && t <= c.test.inOneYear
    ensures Presentable(g, host, t)
    ensures !host.IPv6? && MaySign(ca.cert, c.leaf) && c.leaf <= t ==> FitToServe(g, host, t)
  {
    var root := g.caCert.certs[0];
    assert g.caCert.certs[0] == root && root.key == g.cert.certs[0].signer && root.notAfter >= t;
    if !host.IPv6? && MaySign(ca.cert, c.leaf) && c.leaf <= t {
      assert Vouches(g.caCert.certs[0], g.cert.certs[0], t);
    }
  }

  /** What a success leaves can be presented for six months, and a client accepts it in six months. */
  lemma ServedIsFit(before: Option<Artifacts>, now: Artifacts, own: CAPair, keepsCA: bool, host: Host,
                    check: Date, c2: Clock)
    requires IsDate(check) && Ticks(c2) && Seconds(check) <= Seconds(c2.test) && host != NoHost
    requires Served(before, Some(now), own, keepsCA, host, check, c2)
    ensures Presentable(now, host, check.inSixMonths)
    ensures !host.IPv6? && MaySign(Signer(before, own, keepsCA).cert, c2.leaf) && c2.leaf <= check.inSixMonths ==>
              FitToServe(now, host, check.inSixMonths)
  {
    ValidMeans(now, host, check);
    if ValidCert(now, host, check) {
      FitIsPresentable(now, host, check.inSixMonths);
    } else {
      MadeMeans(now, Signer(before, own, keepsCA), host, c2);
      IssuedIsFit(now, Signer(before, own, keepsCA), host, c2, check.inSixMonths);
    }
  }

  /** A success on a Secret that was there: it kept what was fit and replaced the rest. */
  lemma SuccessRepairs(log: seq<Option<Secret>>, n: nat, r: Artifacts, own: CAPair, host: Host,
                       c1: Clock, check: Date, c2: Clock, wrote: bool)
    requires 0 < n <= |log| && InOrder(c1, check, c2) && OnlyRenewals(log, n, own, host, c1, check, c2)
    requires Stored(log[n - 1]).Some? && Stored(log[|log| - 1]) == Some(r) && (wrote <==> |log| > n)
    requires !ValidCert(Stored(log[n - 1]).value, host, check) ==> wrote
    ensures Repairs(Stored(log[n - 1]).value, r, Signer(Stored(log[n - 1]), own, true), host, check, c2, wrote)
  {
    var before := Stored(log[n - 1]);
    ValidMeans(before.value, host, check);
    if ValidCert(before.value, host, check) {
      ValidIsNotRenewed(log, n, own, host, c1, check, c2);
    } else {
      assert Renewed(before, Stored(log[|log| - 1]), own, true, host, c1, check, c2);
      MadeMeans(r, Signer(before, own, true), host, c2);
    }
  }

  /** A success where there was no Secret: what it returns was issued in one of the two halves. */
  lemma SuccessCreates(log: seq<Option<Secret>>, n: nat, r: Artifacts, own: CAPair, host: Host,
                       c1: Clock, check: Date, c2: Clock)
    requires 0 < n <= |log| && InOrder(c1, check, c2) && OnlyRenewals(log, n, own, host, c1, check, c2)
    requires Stored(log[n - 1]).None? && Stored(log[|log| - 1]) == Some(r)
    ensures IssuedUnder(r, own, host, c1) || IssuedUnder(r, own, host, c2)
  {
    assert Renewed(None, Stored(log[|log| - 1]), own, true, host, c1, check, c2);
    if MadeAt(r, own, host, c1) {
      MadeMeans(r, own, host, c1);
    } else {
      MadeMeans(r, own, host, c2);
    }
  }

  /** The six fields that a Secret, or a directory, holds for the certificates. */
  ghost predicate HasFields(data: map<string, Content>, certs: Artifacts)
  {
    && data.Keys == {"ca-key.pem", "ca-cert.pem", "key.pem", "tls.key", "cert.pem", "tls.crt"}
    && data["ca-key.pem"] == certs.caKey && data["ca-cert.pem"] == certs.caCert
    && data["key.pem"] == certs.key && data["tls.key"] == certs.key
    && data["cert.pem"] == certs.cert && data["tls.crt"] == certs.cert
  }

  ghost predicate FieldIs(data: map<string, Content>, name: string, c: Content)
  {
    c == if name in data then data[name] else EMPTY
  }

  /** What is read of any data: four of the fields, nothing for a missing one. */
  ghost predicate ReadFrom(certs: Artifacts, data: map<string, Content>)
  {
    && FieldIs(data, "ca-key.pem", certs.caKey) && FieldIs(data, "ca-cert.pem", certs.caCert)
    && FieldIs(data, "key.pem", certs.key) && FieldIs(data, "cert.pem", certs.cert)
  }

  lemma DataHasFields(certs: Artifacts)
    ensures HasFields(CertsToData(certs), certs)
  {
    NamesDiffer();
  }

  /** From position `n` on the log holds renewals of what was there before. */
  ghost predicate OnlyRenewals(log: seq<Option<Secret>>, n: nat, own: CAPair,
                               host: Host, c1: Clock, check: Date, c2: Clock)
    requires 0 < n <= |log| && InOrder(c1, check, c2)
  {
    forall i :: n <= i < |log| ==> Renewed(Stored(log[n - 1]), Stored(log[i]), own, true, host, c1, check, c2)
  }

  /** Nothing valid is renewed. */
  lemma ValidIsNotRenewed(log: seq<Option<Secret>>, n: nat, own: CAPair, host: Host, c1: Clock, check: Date, c2: Clock)
    requires 0 < n <= |log| && InOrder(c1, check, c2) && OnlyRenewals(log, n, own, host, c1, check, c2)
    requires Stored(log[n - 1]).Some? && ValidCert(Stored(log[n - 1]).value, host, check)
    ensures |log| == n
  {
    assert n < |log| ==> Renewed(Stored(log[n - 1]), Stored(log[n]), own, true, host, c1, check, c2);
  }

  /** Between the halves: `read` was just read or created, and `now` is the pair that would renew it. */
  ghost predicate Judging(log: seq<Option<Secret>>, n: nat, read: Artifacts, now: CAPair, own: CAPair,
                          host: Host, c1: Clock, check: Date, c2: Clock)
    requires InOrder(c1, check, c2)
  {
    && 0 < n <= |log| && OnlyRenewals(log, n, own, host, c1, check, c2)
    && now == Signer(Stored(log[n - 1]), own, true)
    && (Stored(log[n - 1]).Some? ==> Stored(log[n - 1]) == Some(read))
  }

  /** One write of this process: its place in the log, the clock of its generation, and the CA the generator had. */
  datatype WriteEvent = WriteEvent(at: nat, c: Clock, caKey: Content, caCert: Content)

  ghost predicate IsWrite(log: seq<Option<Secret>>, e: WriteEvent, host: Host, check: Date)
    requires IsDate(check)
  {
    && Ticks(e.c) && ReplacesNothingValid(log, e.at, host, check) && log[e.at].Some?
    && GeneratedBy(DataToCerts(log[e.at].value.data), e.caKey, e.caCert, host, e.c.test, e.c.ca, e.c.leaf)
  }

  datatype Read = Read(certs: Artifacts, version: Option<nat>)

  class SecretCertWriter {
    const api: ApiServer
    const generator: SelfSignedCertGenerator
    var dnsName: Host

    constructor (api: ApiServer, generator: SelfSignedCertGenerator)
      ensures this.api == api && this.generator == generator && dnsName == NoHost
    {
      this.api, this.generator, dnsName := api, generator, NoHost;
    }

    /** Reads the Secret, and hands its CA to the generator. */
    method ReadCerts() returns (r: ApiResult<Read>)
      requires api.Valid()
      modifies api`secret, api`nextVersion, api`log, api`foreign, api`faults, generator`caKey, generator`caCert
      ensures api.Onward()
      ensures r.Ok? ==>
                && api.secret.Some?
                && r.value == Read(DataToCerts(api.secret.value.data), Some(api.secret.value.version))
                && ReadFrom(r.value.certs, api.secret.value.data)
      ensures r.Ok? ==> generator.caKey == r.value.certs.caKey && generator.caCert == r.value.certs.caCert
      ensures r.Err? ==> generator.caKey == old(generator.caKey) && generator.caCert == old(generator.caCert)
      ensures r == Err(NotFound) ==> api.secret == None
      ensures api.Smooth() ==> r.Ok? || r == Err(NotFound)
      ensures r != Err(AlreadyExists)
    {
      var s := api.Get();
      if s.Err? {
        return Err(s.error);
      }
      var certs := DataToCerts(s.value.data);
      generator.SetCA(certs.caKey, certs.caCert);
      return Ok(Read(certs, Some(s.value.version)));
    }

    /** No API call and no random source failed. */
    twostate predicate Smooth()
      reads api, generator
    {
      api.Smooth() && generator.faults == old(generator.faults)
    }

    /** The last log entry is the one write since `writes` was `before`, of `g`. */
    ghost predicate StoredLast(n: nat, before: seq<nat>, g: Option<Artifacts>)
      reads api
    {
      g.Some? && api.Wrote(n, before, CertsToData(g.value))
    }

    method Write(c: Clock) returns (r: ApiResult<Read>, ghost g: Option<Artifacts>)
      requires api.Valid() && Ticks(c)
      modifies api, generator`faults
      ensures api.Onward() && generator.faults >= old(generator.faults)
      ensures g.Some? ==> GeneratedBy(g.value, generator.caKey, generator.caCert, dnsName, c.test, c.ca, c.leaf)
      ensures r.Ok? ==> g.Some? && r.value == Read(g.value, None) && api.writes != old(api.writes)
      ensures r == Err(AlreadyExists) ==> api.writes == old(api.writes) && api.secret.Some?
      ensures api.writes != old(api.writes) ==>
                && StoredLast(old(|api.log|), old(api.writes), g) && api.log[|api.log| - 2] == None
                && HasFields(api.secret.value.data, g.value)
      ensures api.writes != old(api.writes) && api.Undisturbed() ==>
                old(api.secret) == None && api.log == old(api.log) + [api.secret]
      ensures Smooth() && dnsName != NoHost ==> r.Ok? || r == Err(AlreadyExists)
    {
      var certs := generator.Generate(dnsName, c.test, c.ca, c.leaf);
      g := certs;
      if certs.None? {
        return Err(Other), g;
      }
      DataHasFields(certs.value);
      var e := api.Create(CertsToData(certs.value));
      if e.Err? {
        return Err(e.error), g;
      }
      return Ok(Read(certs.value, None)), g;
    }

    method Overwrite(version: Option<nat>, c: Clock) returns (r: ApiResult<Read>, ghost g: Option<Artifacts>)
      requires api.Valid() && Ticks(c)
      modifies api, generator`faults
      ensures api.Onward() && generator.faults >= old(generator.faults)
      ensures g.Some? ==> GeneratedBy(g.value, generator.caKey, generator.caCert, dnsName, c.test, c.ca, c.leaf)
      ensures r.Ok? ==> g.Some? && r.value == Read(g.value, None) && api.writes != old(api.writes)
      ensures api.writes != old(api.writes) ==>
                && StoredLast(old(|api.log|), old(api.writes), g) && api.log[|api.log| - 2].Some?
                && HasFields(api.secret.value.data, g.value)
                && (version.Some? && version.value < old(api.nextVersion) ==> api.log[|api.log| - 2] == old(api.secret))
      ensures api.writes != old(api.writes) && api.Undisturbed() ==>
                api.log[|api.log| - 2] == old(api.secret) && api.log == old(api.log) + [api.secret]
      ensures Smooth() && api.Undisturbed() && dnsName != NoHost && Allows(old(api.secret), version) ==> r.Ok?
      ensures Smooth() && dnsName != NoHost ==> r.Ok? || r == Err(NotFound) || r == Err(Conflict)
      ensures r != Err(AlreadyExists)
    {
      var certs := generator.Generate(dnsName, c.test, c.ca, c.leaf);
      g := certs;
      if certs.None? {
        return Err(Other), g;
      }
      DataHasFields(certs.value);
      var e := api.Update(CertsToData(certs.value), version);
      if e.Err? {
        return Err(e.error), g;
      }
      return Ok(Read(certs.value, None)), g;
    }

    /** The pair of the generator. */
    function Own(): CAPair
      reads generator
    {
      CAPair(generator.caKey, generator.caCert)
    }

    /**
     Read; create if there is nothing; read again if somebody else created first. Either way the certificates
     returned are those of the Secret at the end.
     */
    method CreateIfNotExists(c: Clock, ghost check: Date, ghost c2: Clock) returns (r: ApiResult<Read>, changed: bool)
      requires api.Valid() && InOrder(c, check, c2)
      modifies api, generator
      ensures api.Onward() && generator.faults >= old(generator.faults)
      ensures r.Ok? ==> Stored(api.secret) == Some(r.value.certs)
      ensures r.Ok? && r.value.version.Some? ==>
                && api.writes == old(api.writes) && r.value.version.value == api.secret.value.version
                && Own() == CAPair(r.value.certs.caKey, r.value.certs.caCert)
      ensures r.Ok? && r.value.version.None? ==> changed && api.writes != old(api.writes) && Own() == old(Own())
      ensures api.writes != old(api.writes) ==>
                && api.writes == old(api.writes) + [|api.log| - 1] && |api.log| > |old(api.log)| && api.secret.Some?
                && MadeAt(DataToCerts(api.secret.value.data), old(Own()), dnsName, c)
                && IsWrite(api.log, WriteEvent(|api.log| - 1, c, old(generator.caKey), old(generator.caCert)), dnsName,
                           check)
      ensures api.Undisturbed() && old(api.secret).Some? ==>
                && api.secret == old(api.secret) && api.log == old(api.log) && api.writes == old(api.writes)
                && (r.Ok? ==> r.value.version.Some?)
      ensures api.Undisturbed() ==> OnlyRenewals(api.log, |old(api.log)|, old(Own()), dnsName, c, check, c2)
      ensures api.Undisturbed() && r.Ok? ==>
                Judging(api.log, |old(api.log)|, r.value.certs, Own(), old(Own()), dnsName, c, check, c2)
      ensures Smooth() && api.Undisturbed() && dnsName != NoHost ==> r.Ok?
      // a lost race is not an error: others can only make it fail by a deletion or another version
      ensures Smooth() && dnsName != NoHost ==> r.Ok? || r == Err(NotFound)
      ensures r != Err(AlreadyExists)
    {
      r := ReadCerts();
      if r != Err(NotFound) {
        return r, false;
      }
      ghost var g;
      r, g := Write(c);
      if g.Some? {
        SecretRoundTrip(g.value);
      }
      if r != Err(AlreadyExists) {
        return r, true;
      }
      r := ReadCerts();
      return r, true;
    }

    /** The second half of the protocol: what was just read stays if it is valid, and is overwritten if not. */
    method RecreateIfInvalid(read: Read, check: Date, c2: Clock, ghost n: nat, ghost own: CAPair, ghost c1: Clock)
      returns (r: ApiResult<Artifacts>, recreated: bool, ghost at: nat)
      requires api.Valid() && InOrder(c1, check, c2)
      requires Stored(api.secret) == Some(read.certs)
      requires read.version.Some? ==> read.version.value == api.secret.value.version
      modifies api, generator`faults
      ensures api.Onward() && generator.faults >= old(generator.faults)
      ensures ValidCert(read.certs, dnsName, check) ==>
                && r == Ok(read.certs) && !recreated && api.log == old(api.log) && api.secret == old(api.secret)
                && api.writes == old(api.writes)
      ensures r.Ok? ==> |old(api.log)| - 1 <= at < |api.log| && Stored(api.log[at]) == Some(r.value)
      ensures api.writes != old(api.writes) ==>
                && api.writes == old(api.writes) + [|api.log| - 1] && |api.log| > |old(api.log)| && api.secret.Some?
                && MadeAt(DataToCerts(api.secret.value.data), Own(), dnsName, c2)
                && (read.version.Some? ==>
                      IsWrite(api.log, WriteEvent(|api.log| - 1, c2, generator.caKey, generator.caCert), dnsName,
                              check))
      ensures r.Ok? && !ValidCert(read.certs, dnsName, check) ==>
                recreated && api.writes != old(api.writes) && Stored(api.secret) == Some(r.value)
      ensures api.Undisturbed() && old(Judging(api.log, n, read.certs, Own(), own, dnsName, c1, check, c2)) ==>
                && OnlyRenewals(api.log, n, own, dnsName, c1, check, c2)
                && (r.Ok? ==> Served(Stored(api.log[n - 1]), Some(r.value), own, true, dnsName, check, c2))
      ensures Smooth() && api.Undisturbed() && dnsName != NoHost ==> r.Ok?
      // a lost race is not an error: others can only make it fail by a deletion or another version
      ensures Smooth() && dnsName != NoHost ==> r.Ok? || r == Err(NotFound) || r == Err(Conflict)
      ensures r != Err(AlreadyExists)
    {
      at := |api.log| - 1;
      if ValidCert(read.certs, dnsName, check) {
        return Ok(read.certs), false, at;
      }
      var over;
      ghost var g;
      over, g := Overwrite(read.version, c2);
      if g.Some? {
        SecretRoundTrip(g.value);
      }
      if over.Err? {
        return Err(over.error), false, 0;
      }
      return Ok(over.value.certs), true, |api.log| - 1;
    }

    /**
     The common protocol. What it returns was in the Secret at one moment of the call, whatever the others do
     (`at` is its position in the log); a valid certificate is never replaced by this process as long as its own
     certificates pass the test; and undisturbed, the Secret only changes by renewals, and a valid one not at all.
     */
    method HandleCommon(c1: Clock, check: Date, c2: Clock)
      returns (r: ApiResult<Artifacts>, changed: bool, ghost at: nat, ghost e: WriteEvent)
      requires api.Valid() && InOrder(c1, check, c2)
      modifies api, generator
      ensures api.Onward() && generator.faults >= old(generator.faults)
      ensures dnsName == NoHost ==> r == Err(EmptyName) && api.log == old(api.log)
      ensures r.Ok? ==> |old(api.log)| - 1 <= at < |api.log| && Stored(api.log[at]) == Some(r.value)
      ensures r.Ok? && !changed ==> api.writes == old(api.writes) && ValidCert(r.value, dnsName, check)
      ensures r.Ok? && !changed ==> FitToServe(r.value, dnsName, check.inSixMonths)
      // without disturbance, every new state of the Secret is a renewal, whatever the call returns
      ensures api.Undisturbed() ==> OnlyRenewals(api.log, |old(api.log)|, old(Own()), dnsName, c1, check, c2)
      ensures api.Undisturbed() && r.Ok? ==>
                && Stored(api.secret) == Some(r.value)
                && Served(Stored(old(api.secret)), Some(r.value), old(Own()), true, dnsName, check, c2)
      ensures api.Undisturbed() && r.Ok? && Stored(old(api.secret)).Some?
              && !ValidCert(Stored(old(api.secret)).value, dnsName, check) ==>
                |api.log| > |old(api.log)|
      // no valid certificates are replaced, whatever the others do
      ensures OwnCertsPass(old(Own()).key, old(Own()).cert, dnsName, c1.test, check)
              && api.writes != old(api.writes) ==>
                && IsWrite(api.log, e, dnsName, check)
                && api.writes == old(api.writes) + [e.at] && (e.c == c1 || e.c == c2)
      ensures Smooth() && api.Undisturbed() && dnsName != NoHost ==> r.Ok?
      // a lost race is not an error
      ensures r != Err(AlreadyExists)
    {
      e := WriteEvent(0, c1, generator.caKey, generator.caCert);
      if dnsName == NoHost {
        return Err(EmptyName), false, 0, e;
      }
      var read;
      read, changed := CreateIfNotExists(c1, check, c2);
      e := e.(at := |api.log| - 1);
      if read.Err? {
        return Err(read.error), changed, 0, e;
      }
      if read.value.version.None? && OwnCertsPass(generator.caKey, generator.caCert, dnsName, c1.test, check) {
        OwnCertIsValid(read.value.certs, generator.caKey, generator.caCert, dnsName, c1, check);
      }
      var recreated;
      r, recreated, at := RecreateIfInvalid(read.value, check, c2, |old(api.log)|, old(Own()), c1);
      if read.value.version.Some? {
        e := WriteEvent(|api.log| - 1, c2, generator.caKey, generator.caCert);
      }
      if r.Err? {
        return r, false, 0, e;
      }
      changed := changed || recreated;
      ValidMeans(r.value, dnsName, check);
    }

    /** EnsureCert for one host name. */
    method EnsureCert(dnsName: Host, c1: Clock, check: Date, c2: Clock)
      returns (r: ApiResult<Artifacts>, changed: bool, ghost at: nat, ghost e: WriteEvent)
      requires api.Valid() && InOrder(c1, check, c2)
      modifies api, generator, this
      ensures api.Onward() && this.dnsName == dnsName && generator.faults >= old(generator.faults)
      ensures dnsName == NoHost ==> r == Err(EmptyName) && api.log == old(api.log)
      ensures r.Ok? ==> |old(api.log)| - 1 <= at < |api.log| && Stored(api.log[at]) == Some(r.value)
      ensures r.Ok? && !changed ==> api.writes == old(api.writes) && ValidCert(r.value, dnsName, check)
      // without disturbance, every new state of the Secret is a renewal, whatever the call returns
      ensures api.Undisturbed() ==> OnlyRenewals(api.log, |old(api.log)|, old(Own()), dnsName, c1, check, c2)
      ensures api.Undisturbed() && r.Ok? ==>
                && Stored(api.secret) == Some(r.value)
                && Served(Stored(old(api.secret)), Some(r.value), old(Own()), true, dnsName, check, c2)
      // and by fields: what was fit stays, anything else is replaced, and what is returned can be presented
      ensures r.Ok? && !changed ==> FitToServe(r.value, dnsName, check.inSixMonths)
      ensures api.Undisturbed() && r.Ok? && old(api.secret).Some? ==>
                Repairs(Stored(old(api.secret)).value, r.value, Signer(Stored(old(api.secret)), old(Own()), true),
                        dnsName, check, c2, |api.log| > |old(api.log)|)
      ensures api.Undisturbed() && r.Ok? && old(api.secret).None? ==>
                IssuedUnder(r.value, old(Own()), dnsName, c1) || IssuedUnder(r.value, old(Own()), dnsName, c2)
      ensures api.Undisturbed() && r.Ok? ==>
                && Presentable(r.value, dnsName, check.inSixMonths)
                && (!dnsName.IPv6? && MaySign(Signer(Stored(old(api.secret)), old(Own()), true).cert, c2.leaf)
                    && c2.leaf <= check.inSixMonths ==>
                      FitToServe(r.value, dnsName, check.inSixMonths))
      // no valid certificates are replaced, whatever the others do
      ensures OwnCertsPass(old(Own()).key, old(Own()).cert, dnsName, c1.test, check)
              && api.writes != old(api.writes) ==>
                && IsWrite(api.log, e, dnsName, check)
                && api.writes == old(api.writes) + [e.at] && (e.c == c1 || e.c == c2)
      ensures Smooth() && api.Undisturbed() && dnsName != NoHost ==> r.Ok?
      // a lost race is not an error
      ensures r != Err(AlreadyExists)
    {
      this.dnsName := dnsName;
      r, changed, at, e := HandleCommon(c1, check, c2);
      if r.Ok? {
        if api.Undisturbed() {
          ServedIsFit(Stored(old(api.secret)), r.value, old(Own()), true, dnsName, check, c2);
          if old(api.secret).Some? {
            SuccessRepairs(api.log, |old(api.log)|, r.value, old(Own()), dnsName, c1, check, c2,
                           |api.log| > |old(api.log)|);
          } else {
            SuccessCreates(api.log, |old(api.log)|, r.value, old(Own()), dnsName, c1, check, c2);
          }
        }
      }
    }
  }
}

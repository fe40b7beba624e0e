/**
 The webhook controller: one synchronization ensures the certificates, writes them to the directory the server
 reads, puts their CA into both webhook configurations, and then lets the manager start.
 */
module WebhookSync {
  import opened Contents
  import opened Calendar
  import opened Certificates
  import opened Disk
  import opened FileSystem
  import opened AtomicWriter
  import opened CertDir
  import Secrets = SecretWriter
  import Conf = Configuration

  /** What the environment gives to one synchronization: its clocks and the names of new directories. */
  datatype Env = Env(c1: Secrets.Clock, check: Date, c2: Secrets.Clock, names: seq<string>)

  ghost predicate EnvOk(e: Env)
  {
    Secrets.InOrder(e.c1, e.check, e.c2) && |e.names| == 3 && TsNames({e.names[0], e.names[1], e.names[2]})
  }

  // ----- What the API server does with a webhook, by the fields of its client configuration -----

  /** The host it dials: the name of the service in the cluster, or the host of the URL that replaced it. */
  ghost function Dialled(cc: Conf.ClientConfig): Option<Host>
  {
    match cc.service
    case Some(service) => Some(DnsName(service.name + "." + service.namespace + ".svc"))
    case None => if cc.url.Some? && cc.url.value.Built? then Some(cc.url.value.host) else None
  }

  /** Dialled at time `t`, a server that presents `certs` is accepted under the bundle of the webhook. */
  ghost predicate Answers(cc: Conf.ClientConfig, certs: Artifacts, t: int)
  {
    Dialled(cc).Some? && FitToServe(certs.(caCert := cc.caBundle), Dialled(cc).value, t)
  }

  /** The certificate is for the host that is dialled, comes from the bundle, and lasts until `t`. */
  ghost predicate Suits(cc: Conf.ClientConfig, certs: Artifacts, t: int)
  {
    Dialled(cc).Some? && Presentable(certs.(caCert := cc.caBundle), Dialled(cc).value, t)
  }

  /** So it is for every webhook that was installed with a service; the others lead elsewhere. */
  ghost predicate AllAnswer(original: seq<Conf.Webhook>, whs: seq<Conf.Webhook>, certs: Artifacts, t: int)
  {
    |whs| == |original|
    && forall i :: 0 <= i < |whs| && original[i].clientConfig.service.Some? ==> Answers(whs[i].clientConfig, certs, t)
  }

  ghost predicate AllSuit(original: seq<Conf.Webhook>, whs: seq<Conf.Webhook>, certs: Artifacts, t: int)
  {
    |whs| == |original|
    && forall i :: 0 <= i < |whs| && original[i].clientConfig.service.Some? ==> Suits(whs[i].clientConfig, certs, t)
  }

  /** Each synchronization starts with a generator of its own. */
  const NO_CA := Secrets.CAPair(EMPTY, EMPTY)

  class Controller {
    const certDir: CertDirWriter
    const api: Secrets.ApiServer
    const config: Conf.ConfigStore
    /** The "inited" channel is closed. */
    var inited: bool
    /** The process has ended with a nil dereference. */
    var crashed: bool
    /** The work queue holds at most the one key. */
    var pending: bool
    var retries: nat
    /** How often the random source failed a generator. */
    ghost var drawFaults: nat

    constructor (certDir: CertDirWriter, api: Secrets.ApiServer, config: Conf.ConfigStore)
      ensures this.certDir == certDir && this.api == api && this.config == config
      ensures !inited && !crashed && !pending && retries == 0
    {
      this.certDir, this.api, this.config := certDir, api, config;
      inited, crashed, pending, retries, drawFaults := false, false, false, 0, 0;
    }

    ghost predicate Valid()
      reads this, certDir.writer.dir, api, config
    {
      certDir.writer.dir.Valid() && api.Valid() && config.Valid()
    }

    twostate predicate Onward()
      reads this, certDir.writer.dir, api, config
    {
      certDir.writer.dir.Onward() && api.Onward() && config.Onward() && old(drawFaults) <= drawFaults
    }

    /** Nobody else changed the Secret or a configuration. */
    twostate predicate Undisturbed()
      reads this, api, config
    {
      api.Undisturbed() && config.Undisturbed()
    }

    /** Nothing failed without a reason. */
    twostate predicate Smooth()
      reads this, certDir.writer.dir, api, config
    {
      certDir.writer.dir.Smooth() && api.Smooth() && config.Smooth() && drawFaults == old(drawFaults)
    }

    /** No failed file operation was ignored. */
    twostate predicate NothingDropped()
      reads this, certDir.writer.dir
    {
      certDir.writer.dir.drops == old(certDir.writer.dir.drops)
    }

    /** The host of WEBHOOK_HOST, or else the service name in the cluster. */
    function DnsNameOf(): (host: Host)
      ensures host != NoHost
    {
      if config.settings.host != NoHost then config.settings.host
      else DnsName(config.settings.serviceName + "." + config.settings.namespace + ".svc")
    }

    /** The directory holds `certs`. */
    ghost predicate HoldsCerts(d: Disk, certs: Artifacts)
    {
      Holds(d, CertFiles(certs)) && HasLive(d) && ReadBack(d) == Some(certs) && ShowsFiles(d, certs)
    }

    /** Both configurations have the CA bundle. */
    ghost predicate Configured(caBundle: Content)
      reads config
    {
      && config.Convertibles()
      && config.mutating.config == Conf.Ensured(config.settings, config.mutatingOriginal, caBundle)
      && config.validating.config == Conf.Ensured(config.settings, config.validatingOriginal, caBundle)
    }

    /** The directory, the Secret (when it is used) and both configurations agree on `certs`. */
    ghost predicate Agrees(certs: Artifacts)
      reads certDir.writer.dir, api, config
    {
      && HoldsCerts(certDir.writer.dir.disk, certs)
      && (config.settings.host == NoHost ==> Secrets.Stored(api.secret) == Some(certs))
      && Configured(certs.caCert)
    }

    /** Everything agrees, and what it agrees on passes the test. */
    ghost predicate Settled(check: Date)
      requires IsDate(check)
      reads this, certDir.writer.dir, api, config
    {
      match ReadBack(certDir.writer.dir.disk)
      case None => false
      case Some(certs) => Agrees(certs) && ValidCert(certs, DnsNameOf(), check)
    }

    ghost predicate DirUsable()
      reads certDir.writer.dir
    {
      Usable(certDir.writer.dir.disk)
    }

    /** There is room for the directories of one synchronization, and the webhooks can take a bundle. */
    ghost predicate Ready(e: Env)
      requires |e.names| == 3
      reads certDir.writer.dir, config
    {
      && DirUsable() && Room(certDir.writer.dir.disk, {e.names[0], e.names[1], e.names[2]})
      && e.names[0] != e.names[1] && e.names[0] != e.names[2] && e.names[1] != e.names[2]
      && config.Convertibles()
    }

    /** There is room for the last directory of a synchronization. */
    ghost predicate RoomForLast(e: Env)
      requires |e.names| == 3
      reads certDir.writer.dir
    {
      Room(certDir.writer.dir.disk, {e.names[2]})
    }

    /** What EnsureCert keeps: in the Secret, or with a host in the directory. */
    ghost function StoredNow(): Option<Artifacts>
      reads certDir.writer.dir, api, config
    {
      if InSecret() then Secrets.Stored(api.secret) else ReadBack(certDir.writer.dir.disk)
    }

    predicate InSecret()
      reads config
    {
      config.settings.host == NoHost
    }

    /** New certificates keep everything settled for 181 days: until then the next synchronization has nothing to do. */
    lemma RenewedStaysSettled(certs: Artifacts, ca: Secrets.CAPair, c: Secrets.Clock, later: Date)
      requires Agrees(certs) && Secrets.Ticks(c) && IsDate(later) && SoonAfter(c.test, c.leaf, later)
      requires Secrets.MadeAt(certs, ca, DnsNameOf(), c)
      requires Secrets.OwnCertsPass(ca.key, ca.cert, DnsNameOf(), c.test, later)
      ensures Settled(later)
    {
      Secrets.OwnCertIsValid(certs, ca.key, ca.cert, DnsNameOf(), c, later);
    }

    /** Every webhook of both configurations is one that the API server gets an answer from at time `t`. */
    ghost predicate HooksAnswer(certs: Artifacts, t: int)
      reads config
    {
      && AllAnswer(config.mutatingOriginal, config.mutating.config.webhooks, certs, t)
      && AllAnswer(config.validatingOriginal, config.validating.config.webhooks, certs, t)
    }

    ghost predicate HooksSuit(certs: Artifacts, t: int)
      reads config
    {
      && AllSuit(config.mutatingOriginal, config.mutating.config.webhooks, certs, t)
      && AllSuit(config.validatingOriginal, config.validating.config.webhooks, certs, t)
    }

    /** The certificate of the controller is for the host that every converted webhook dials. */
    lemma DialledIsServed(original: seq<Conf.Webhook>, certs: Artifacts, t: int)
      requires Conf.AllConvertible(config.settings, original)
      ensures var whs := Conf.Apply(config.settings, original, certs.caCert);
        && (Presentable(certs, DnsNameOf(), t) ==> AllSuit(original, whs, certs, t))
        && (FitToServe(certs, DnsNameOf(), t) ==> AllAnswer(original, whs, certs, t))
    {
      var whs := Conf.Apply(config.settings, original, certs.caCert);
      Conf.ApplyMeans(config.settings, original, whs, certs.caCert);
      forall i | 0 <= i < |whs| && original[i].clientConfig.service.Some?
        ensures Dialled(whs[i].clientConfig) == Some(DnsNameOf()) && whs[i].clientConfig.caBundle == certs.caCert
      {
        assert Conf.Converted(config.settings, original[i], whs[i], certs.caCert);
      }
      assert certs.(caCert := certs.caCert) == certs;
    }

    /** The CA that renews what was stored before may sign, and the call took less than six months. */
    ghost predicate SignerMaySign(before: Option<Artifacts>, e: Env)
      reads config
    {
      && (before.Some? && InSecret() ==> Secrets.MaySign(before.value.caCert, e.c2.leaf))
      && e.c2.leaf <= e.check.inSixMonths
    }

    /**
     What a synchronization is for: certificates that were stored and passed the test, or new ones after that; every
     webhook dials their host and trusts their CA, for six months, and if the signer may sign it gets an answer then.
     */
    ghost predicate WellServed(before: Option<Artifacts>, certs: Artifacts, e: Env)
      reads config
    {
      && EnvOk(e)
      && Secrets.Served(before, Some(certs), NO_CA, InSecret(), DnsNameOf(), e.check, e.c2)
      && HooksSuit(certs, e.check.inSixMonths)
      && (!config.settings.host.IPv6? && SignerMaySign(before, e) ==> HooksAnswer(certs, e.check.inSixMonths))
    }

    lemma ServedHooksAnswer(before: Option<Artifacts>, certs: Artifacts, e: Env)
      requires EnvOk(e) && Configured(certs.caCert)
      requires Secrets.Served(before, Some(certs), NO_CA, InSecret(), DnsNameOf(), e.check, e.c2)
      ensures WellServed(before, certs, e)
    {
      Secrets.ServedIsFit(before, certs, NO_CA, InSecret(), DnsNameOf(), e.check, e.c2);
      DialledIsServed(config.mutatingOriginal, certs, e.check.inSixMonths);
      DialledIsServed(config.validatingOriginal, certs, e.check.inSixMonths);
    }

    /** EnsureCert on the directory. */
    method EnsureInFiles(e: Env) returns (r: Option<Artifacts>)
      requires Valid() && EnvOk(e) && !InSecret()
      modifies certDir.writer.dir, this`drawFaults
      ensures certDir.writer.dir.Onward() && old(drawFaults) <= drawFaults
      ensures old(DirUsable()) && NothingDropped() ==> DirUsable()
      ensures r.Some? && NothingDropped() && old(DirUsable()) ==>
                && ReadBack(certDir.writer.dir.disk) == r
                && (ValidCert(r.value, DnsNameOf(), e.check) || Secrets.MadeAt(r.value, NO_CA, DnsNameOf(), e.c2))
      ensures certDir.writer.dir.Smooth() && HasValid(old(certDir.writer.dir.disk), DnsNameOf(), e.check) ==>
                && certDir.writer.dir.disk == old(certDir.writer.dir.disk)
                && certDir.writer.dir.trace == old(certDir.writer.dir.trace)
                && r == ReadBack(certDir.writer.dir.disk)
      ensures certDir.writer.dir.Smooth() && drawFaults == old(drawFaults) && old(Ready(e)) ==>
                r.Some? && RoomForLast(e)
    {
      ghost var ready, names := Ready(e), {e.names[0], e.names[1], e.names[2]};
      var generator := new SelfSignedCertGenerator();
      var fs := new FsCertWriter(certDir, generator);
      var changed;
      r, changed := fs.EnsureCert(DnsNameOf(), e.c1, e.check, e.c2, e.names[0], e.names[1], names);
      if ready {
        RoomForLess(certDir.writer.dir.disk, names - {e.names[0]} - {e.names[1]}, {e.names[2]});
      }
      drawFaults := drawFaults + generator.faults;
    }

    /** EnsureCert on the Secret. */
    method EnsureInSecret(e: Env) returns (r: Option<Artifacts>)
      requires Valid() && EnvOk(e) && InSecret()
      modifies api, this`drawFaults
      ensures api.Onward() && old(drawFaults) <= drawFaults
      ensures r.Some? && api.Undisturbed() ==>
                && Secrets.Stored(api.secret) == r
                && Secrets.Served(Secrets.Stored(old(api.secret)), r, NO_CA, true, DnsNameOf(), e.check, e.c2)
      ensures api.Undisturbed() && Secrets.Stored(old(api.secret)).Some?
              && ValidCert(Secrets.Stored(old(api.secret)).value, DnsNameOf(), e.check) ==>
                api.secret == old(api.secret) && api.log == old(api.log)
      ensures api.Smooth() && drawFaults == old(drawFaults) && api.Undisturbed() ==> r.Some?
    {
      var generator := new SelfSignedCertGenerator();
      var secrets := new Secrets.SecretCertWriter(api, generator);
      ghost var n, stored := |api.log|, Secrets.Stored(api.secret);
      var s, _, _, _ := secrets.EnsureCert(DnsNameOf(), e.c1, e.check, e.c2);
      if api.Undisturbed() && stored.Some? && ValidCert(stored.value, DnsNameOf(), e.check) {
        Secrets.ValidIsNotRenewed(api.log, n, NO_CA, DnsNameOf(), e.c1, e.check, e.c2);
      }
      drawFaults := drawFaults + generator.faults;
      return if s.Ok? then Some(s.value) else None;
    }

    /** EnsureCert in the mode the host selects, with a generator of its own. */
    method EnsureCert(e: Env) returns (r: Option<Artifacts>)
      requires Valid() && EnvOk(e)
      modifies certDir.writer.dir, api, this`drawFaults
      ensures certDir.writer.dir.Onward() && api.Onward() && old(drawFaults) <= drawFaults
      ensures old(DirUsable()) && NothingDropped() ==> DirUsable()
      ensures r.Some? && api.Undisturbed() && (InSecret() || (NothingDropped() && old(DirUsable()))) ==>
                && StoredNow() == r
                && Secrets.Served(old(StoredNow()), r, NO_CA, InSecret(), DnsNameOf(), e.check, e.c2)
      ensures !InSecret() ==> api.secret == old(api.secret) && api.log == old(api.log)
      ensures old(Settled(e.check)) && api.Undisturbed() ==> api.secret == old(api.secret) && api.log == old(api.log)
      ensures old(Settled(e.check)) && api.Undisturbed() && certDir.writer.dir.Smooth() ==>
                && certDir.writer.dir.disk == old(certDir.writer.dir.disk)
                && certDir.writer.dir.trace == old(certDir.writer.dir.trace)
                && (r.Some? ==> r == ReadBack(certDir.writer.dir.disk))
      ensures Smooth() && api.Undisturbed() && old(Ready(e)) ==>
                r.Some? && RoomForLast(e)
    {
      if !InSecret() {
        r := EnsureInFiles(e);
      } else {
        RoomForLess(certDir.writer.dir.disk, {e.names[0], e.names[1], e.names[2]}, {e.names[2]});
        r := EnsureInSecret(e);
      }
    }

    /** The certificates go into the directory of the server, and their CA into the configurations. */
    method Spread(certs: Artifacts, e: Env) returns (r: Conf.Outcome)
      requires Valid() && EnvOk(e)
      modifies certDir.writer.dir, config
      ensures certDir.writer.dir.Onward() && config.Onward()
      ensures r == Conf.Panic ==> !config.Convertibles()
      ensures old(DirUsable()) && NothingDropped() ==>
                && DirUsable()
                && (r == Conf.Success && config.Undisturbed() ==> HoldsCerts(certDir.writer.dir.disk, certs))
      ensures r == Conf.Success && config.Undisturbed() ==> Configured(certs.caCert)
      // the configurations never run ahead of the directory
      ensures old(DirUsable()) && NothingDropped() && config.Undisturbed()
              && (config.mutating != old(config.mutating) || config.validating != old(config.validating)) ==>
                HoldsCerts(certDir.writer.dir.disk, certs)
      ensures config.Undisturbed() && old(Configured(certs.caCert)) ==>
                config.mutating == old(config.mutating) && config.validating == old(config.validating)
      ensures certDir.writer.dir.Smooth() && old(HoldsCerts(certDir.writer.dir.disk, certs)) ==>
                && certDir.writer.dir.disk == old(certDir.writer.dir.disk)
                && certDir.writer.dir.trace == old(certDir.writer.dir.trace)
      ensures certDir.writer.dir.Smooth() && config.Smooth() && config.Undisturbed() && config.Convertibles()
              && old(DirUsable()) && old(RoomForLast(e)) ==>
                r == Conf.Success
    {
      var err, _, _ := certDir.WriteCertsToDir(certs, e.names[2], {e.names[2]});
      if err != OK {
        return Conf.Failure;
      }
      r := config.Ensure(certs.caCert);
    }

    /**
     One synchronization. Undisturbed and without ignored file errors, success means agreement on certificates that
     passed the test or are new; where everything agrees on a valid certificate already, it changes nothing, and the
     Secret not even if it fails; the signal is given by a success only. Without faults it succeeds.
     */
    method Sync(e: Env) returns (r: Conf.Outcome, ghost certs: Artifacts)
      requires Valid() && EnvOk(e)
      modifies certDir.writer.dir, api, config, this`inited, this`drawFaults
      ensures Onward()
      ensures inited == (old(inited) || r == Conf.Success) && (r == Conf.Panic ==> !config.Convertibles())
      ensures old(DirUsable()) && NothingDropped() ==>
                && DirUsable()
                && (r == Conf.Success && Undisturbed() ==>
                      Agrees(certs) && WellServed(old(StoredNow()), certs, e))
      ensures old(Settled(e.check)) && Undisturbed() ==> api.secret == old(api.secret) && api.log == old(api.log)
      ensures old(Settled(e.check)) && Undisturbed() && certDir.writer.dir.Smooth() ==>
                && certDir.writer.dir.disk == old(certDir.writer.dir.disk)
                && certDir.writer.dir.trace == old(certDir.writer.dir.trace)
                && config.mutating == old(config.mutating) && config.validating == old(config.validating)
      ensures Smooth() && Undisturbed() && old(Ready(e)) ==> r == Conf.Success
    {
      certs := Artifacts(EMPTY, EMPTY, EMPTY, EMPTY);
      var ensured := EnsureCert(e);
      if ensured.None? {
        return Conf.Failure, certs;
      }
      certs := ensured.value;
      r := Spread(ensured.value, e);
      if r == Conf.Success {
        inited := true;
        if NothingDropped() && old(DirUsable()) && Undisturbed() {
          ServedHooksAnswer(old(StoredNow()), certs, e);
        }
      }
    }

    /**
     `processNextWorkItem`: a failed synchronization is never forgotten; others may queue the key as well. A nil
     dereference ends the process before anything is queued.
     */
    method ProcessNextWorkItem(e: Env) returns (r: Conf.Outcome, ghost certs: Artifacts)
      requires Valid() && EnvOk(e) && pending && !crashed
      modifies certDir.writer.dir, api, config, this
      ensures Onward()
      ensures crashed == (r == Conf.Panic) && (crashed ==> !config.Convertibles())
      ensures r == Conf.Failure ==> pending
      ensures retries == if r == Conf.Success then 0 else if r == Conf.Failure then old(retries) + 1 else old(retries)
      ensures inited == (old(inited) || r == Conf.Success)
      ensures old(DirUsable()) && NothingDropped() ==>
                DirUsable() && (r == Conf.Success && Undisturbed() ==> Agrees(certs))
      ensures Smooth() && Undisturbed() && old(Ready(e)) ==> r == Conf.Success
    {
      pending := false;
      r, certs := Sync(e);
      // the informers queue the key for every change of what they watch
      if * {
        pending := true;
      }
      match r
      case Success => retries := 0;
      case Failure => pending, retries := true, retries + 1;
      case Panic => crashed := true;
    }

    /** All the failures so far, and all the changes by others. */
    ghost function Failures(): (n: nat)
      reads this, certDir.writer.dir, api, config
    {
      certDir.writer.dir.faults + api.faults + config.faults + drawFaults
    }

    ghost function Disturbances(): nat
      reads this, api, config
    {
      api.foreign + config.foreign
    }

    /**
     Recovery: whatever failed in one round, as long as no failed file operation was ignored, the next round brings
     everything into agreement if nothing fails or is disturbed from then on (`failures1`, `disturbances1` and `mid`
     are the counts and the end of the trace after the first round), no temporary link was left, and the new names
     are free.
     */
    method FailThenRetry(e1: Env, e2: Env)
      returns (r1: Conf.Outcome, r2: Conf.Outcome, ghost certs: Artifacts,
               ghost mid: nat, ghost failures1: nat, ghost disturbances1: nat)
      requires Valid() && EnvOk(e1) && EnvOk(e2) && pending && !crashed && DirUsable()
      requires config.Convertibles()
      requires e2.names[0] != e2.names[1] && e2.names[0] != e2.names[2] && e2.names[1] != e2.names[2]
      modifies certDir.writer.dir, api, config, this
      ensures Valid() && old(|certDir.writer.dir.trace|) <= mid <= |certDir.writer.dir.trace|
      ensures old(Failures()) <= failures1 <= Failures() && old(Disturbances()) <= disturbances1 <= Disturbances()
      ensures r1 != Conf.Success && NothingDropped() && failures1 == Failures() && disturbances1 == Disturbances()
              && Room(certDir.writer.dir.trace[mid - 1], {e2.names[0], e2.names[1], e2.names[2]}) ==>
                r2 == Conf.Success && inited && Agrees(certs)
    {
      r1, certs := ProcessNextWorkItem(e1);
      r2, mid, failures1, disturbances1 := r1, |certDir.writer.dir.trace|, Failures(), Disturbances();
      if r1 != Conf.Success {
        assert certDir.writer.dir.trace[mid - 1] == certDir.writer.dir.disk;
        r2, certs := ProcessNextWorkItem(e2);
      }
    }
  }
}

/**
 The serving certificates of the webhook: what `validCert` accepts, what the generator produces, and when it
 reuses its CA. Signatures and encodings are abstract (module Contents); the intervals are not.
 */
module Certificates {
  import opened Contents
  import opened Calendar

  datatype Artifacts = Artifacts(key: Content, cert: Content, caKey: Content, caCert: Content)

  // ----- What crypto/tls and crypto/x509 decide -----

  predicate KeyPair(cert: Content, key: Content)
  {
    cert.CertsPem? && cert.certs != [] && key.KeyPem? && cert.certs[0].key == key.keyId
  }

  predicate CurrentAt(c: Cert, t: int)
  {
    c.notBefore <= t <= c.notAfter
  }

  /** An address is looked up among the IP entries, anything else among the DNS entries; no host is no check. */
  predicate NameMatches(c: Cert, host: Host)
  {
    match host
    case NoHost => true
    case DnsName(_) => DnsEntry(host) in c.sans
    case _ => IpEntry(host) in c.sans
  }

  /** Certificate.Verify with these roots and no intermediates: the certificate is a root or signed by one. */
  predicate Verifies(c: Cert, roots: seq<Cert>, host: Host, t: int)
  {
    && CurrentAt(c, t)
    && NameMatches(c, host)
    && (c in roots
        || exists i :: 0 <= i < |roots| && roots[i].isCA && roots[i].key == c.signer && CurrentAt(roots[i], t))
  }

  /** `validCert`: a key pair for the host, signed by the CA, and good in six months. */
  predicate ValidCert(certs: Artifacts, host: Host, now: Date)
    requires IsDate(now)
  {
    && KeyPair(certs.cert, certs.key)
    && certs.caCert.CertsPem? && certs.caCert.certs != []
    && Verifies(certs.cert.certs[0], certs.caCert.certs, host, SixMonthsAfter(now))
  }

  /** `ValidCACert`: the same test for any key pair, host and time. */
  predicate ValidCACert(key: Content, cert: Content, caCert: Content, host: Host, t: int)
  {
    && KeyPair(cert, key)
    && caCert.CertsPem? && caCert.certs != []
    && Verifies(cert.certs[0], caCert.certs, host, t)
  }

  /** `validCACert`: the CA can sign for another year, with a single RSA key. */
  predicate ReusableCA(caKey: Content, caCert: Content, now: Date)
    requires IsDate(now)
  {
    && ValidCACert(caKey, caCert, caCert, NoHost, OneYearAfter(now))
    && caKey.rsa
    && |caCert.certs| == 1
  }

  // ----- What is meant, by the fields of the certificates -----

  /** `c` names the host: an address among the IP entries, a name among the DNS entries. */
  ghost predicate Names(c: Cert, host: Host)
  {
    (host.DnsName? ==> DnsEntry(host) in c.sans) && (host.IPv4? || host.IPv6? ==> IpEntry(host) in c.sans)
  }

  /** `root` vouches for `c` at time `t`: it is `c`, or a CA that signed it and is in its lifetime. */
  ghost predicate Vouches(root: Cert, c: Cert, t: int)
  {
    root == c || (root.isCA && root.key == c.signer && root.notBefore <= t <= root.notAfter)
  }

  /** A client that trusts the bundle and dials `host` at time `t` accepts the server that presents these. */
  ghost predicate FitToServe(certs: Artifacts, host: Host, t: int)
  {
    && certs.cert.CertsPem? && certs.cert.certs != [] && certs.key.KeyPem? && certs.caCert.CertsPem?
    && var leaf, roots := certs.cert.certs[0], certs.caCert.certs;
       && leaf.key == certs.key.keyId && leaf.notBefore <= t <= leaf.notAfter && Names(leaf, host)
       && exists i :: 0 <= i < |roots| && Vouches(roots[i], leaf, t)
  }

  lemma ValidMeans(certs: Artifacts, host: Host, now: Date)
    requires IsDate(now)
    ensures ValidCert(certs, host, now) <==> FitToServe(certs, host, now.inSixMonths)
  {
    if ValidCert(certs, host, now) && certs.cert.certs[0] in certs.caCert.certs {
      var i :| 0 <= i < |certs.caCert.certs| && certs.caCert.certs[i] == certs.cert.certs[0];
      assert Vouches(certs.caCert.certs[i], certs.cert.certs[0], now.inSixMonths);
    }
    if FitToServe(certs, host, now.inSixMonths) {
      var i :| 0 <= i < |certs.caCert.certs|
        && Vouches(certs.caCert.certs[i], certs.cert.certs[0], now.inSixMonths);
    }
  }

  /** The leaf with one thing wrong: the signer, the name, the start, or the end. */
  ghost predicate Spoiled(good: Cert, bad: Cert, host: Host, t: int)
  {
    || (bad == good.(signer := bad.signer) && bad.signer != good.signer)
    || (bad == good.(sans := bad.sans) && !Names(bad, host))
    || (bad == good.(notBefore := bad.notBefore) && bad.notBefore > t)
    || (bad == good.(notAfter := bad.notAfter) && bad.notAfter < t)
  }

  /** One defect is enough, in the key or in the leaf, however good everything else is. */
  lemma OneDefectIsEnough(certs: Artifacts, bad: Artifacts, host: Host, now: Date)
    requires IsDate(now) && ValidCert(certs, host, now) && |certs.caCert.certs| == 1
    requires certs.cert.certs[0] != certs.caCert.certs[0]
    requires || (bad == certs.(key := bad.key) && !(bad.key.KeyPem? && bad.key.keyId == certs.cert.certs[0].key))
             || (bad == certs.(cert := bad.cert) && bad.cert.CertsPem? && bad.cert.certs != []
                 && bad.cert.certs[0] != certs.caCert.certs[0]
                 && Spoiled(certs.cert.certs[0], bad.cert.certs[0], host, now.inSixMonths))
    ensures !ValidCert(bad, host, now)
  {
    ValidMeans(certs, host, now);
    ValidMeans(bad, host, now);
  }

  /** A server can present these: its own key, for the host, signed from the bundle, both to last until `until`. */
  ghost predicate Presentable(certs: Artifacts, host: Host, until: int)
  {
    && certs.cert.CertsPem? && certs.cert.certs != [] && certs.key.KeyPem? && certs.caCert.CertsPem?
    && var leaf, roots := certs.cert.certs[0], certs.caCert.certs;
       && leaf.key == certs.key.keyId && leaf.notAfter >= until && (host.IPv6? || Names(leaf, host))
       && exists i :: 0 <= i < |roots| && roots[i].notAfter >= until
                      && (roots[i] == leaf || roots[i].key == leaf.signer)
  }

  lemma FitIsPresentable(certs: Artifacts, host: Host, t: int)
    requires FitToServe(certs, host, t)
    ensures Presentable(certs, host, t)
  {
    var i :| 0 <= i < |certs.caCert.certs| && Vouches(certs.caCert.certs[i], certs.cert.certs[0], t);
  }

  /** One RSA key and its certificate, in its lifetime at time `t`. */
  ghost predicate FitToSign(caKey: Content, caCert: Content, t: int)
  {
    && caKey.KeyPem? && caKey.rsa && caCert.CertsPem? && |caCert.certs| == 1
    && caCert.certs[0].key == caKey.keyId && caCert.certs[0].notBefore <= t <= caCert.certs[0].notAfter
  }

  lemma ReusableMeans(caKey: Content, caCert: Content, now: Date)
    requires IsDate(now)
    ensures ReusableCA(caKey, caCert, now) <==> FitToSign(caKey, caCert, now.inOneYear)
  {
    assert caCert.CertsPem? && |caCert.certs| == 1 ==> caCert.certs[0] in caCert.certs;
  }

  /** A leaf of its own key for `host`, under the CA it comes with; it starts with the CA and lives ten years. */
  ghost predicate IsIssued(g: Artifacts, host: Host, leafTime: int)
  {
    && g.key.KeyPem? && g.key.rsa && g.cert.CertsPem? && |g.cert.certs| == 1
    && g.caKey.KeyPem? && g.caKey.rsa && g.caCert.CertsPem? && |g.caCert.certs| == 1
    && g.key.keyId != g.caKey.keyId
    && var leaf, ca := g.cert.certs[0], g.caCert.certs[0];
       && leaf.key == g.key.keyId && leaf.signer == ca.key == g.caKey.keyId && !leaf.isCA
       && leaf.notBefore == ca.notBefore && leaf.notAfter == leafTime + 3650 * 86400
       && leaf.sans == {DnsEntry(DnsName("localhost"))} + if host.IPv4? then {IpEntry(host)} else {DnsEntry(host)}
  }

  /** A CA of its own that lives ten years from `t`. */
  ghost predicate IsFreshCA(g: Artifacts, t: int)
  {
    && g.caKey.KeyPem? && g.caCert.CertsPem? && |g.caCert.certs| == 1
    && var ca := g.caCert.certs[0];
       ca == Cert(g.caKey.keyId, g.caKey.keyId, {DnsEntry(DnsName("webhook-cert-ca"))}, t, t + 3650 * 86400, true)
  }

  // ----- What the generator signs -----

  /** The lifetime of a leaf, and of the CA that client-go's NewSelfSignedCACert makes. */
  const TEN_YEARS := 3650 * DAY

  /** The CA of a fresh pair made at time `t`. */
  function FreshCA(key: int, t: int): Cert
  {
    Cert(key, key, {DnsEntry(DnsName("webhook-cert-ca"))}, t, t + TEN_YEARS, true)
  }

  function AltNames(host: Host): set<AltName>
  {
    {DnsEntry(DnsName("localhost"))} + if host.IPv4? then {IpEntry(host)} else {DnsEntry(host)}
  }

  /** `NewSignedCert`: the leaf starts with its CA and lives ten years from now. */
  function Leaf(ca: Cert, host: Host, key: int, t: int): Cert
  {
    Cert(key, ca.key, AltNames(host), ca.notBefore, t + TEN_YEARS, false)
  }

  /** What Generate returns when it signs with `ca`, at the leaf time `t`. */
  function Signed(ca: Cert, host: Host, leafKey: int, t: int): Artifacts
  {
    Artifacts(KeyPem(leafKey, true), CertsPem([Leaf(ca, host, leafKey, t)]), KeyPem(ca.key, true), CertsPem([ca]))
  }

  /**
   `g` is a result of Generate for the generator's CA pair: the clock reads `now` at the CA test, then `caTime`
   and `leafTime` while signing.
   */
  ghost predicate GeneratedBy(g: Artifacts, caKey: Content, caCert: Content, host: Host,
                              now: Date, caTime: int, leafTime: int)
    requires IsDate(now)
  {
    && host != NoHost && Seconds(now) <= caTime <= leafTime && g.key.KeyPem? && g.caKey.KeyPem?
    && var ca := SigningCA(caKey, caCert, now, g.caKey.keyId, caTime);
       g.key.keyId != ca.key && g == Signed(ca, host, g.key.keyId, leafTime)
  }

  function SigningCA(caKey: Content, caCert: Content, now: Date, newKey: int, caTime: int): Cert
    requires IsDate(now)
  {
    if ReusableCA(caKey, caCert, now) then caCert.certs[0] else FreshCA(newKey, caTime)
  }

  /** What a generated result is, by its fields: the CA it was given signs if and only if it is fit for a year more. */
  lemma GeneratedMeans(g: Artifacts, caKey: Content, caCert: Content, host: Host, now: Date, caTime: int, leafTime: int)
    requires IsDate(now) && GeneratedBy(g, caKey, caCert, host, now, caTime, leafTime)
    ensures IsIssued(g, host, leafTime)
    ensures FitToSign(caKey, caCert, now.inOneYear) ==> g.caKey == caKey && g.caCert == caCert
    ensures !FitToSign(caKey, caCert, now.inOneYear) ==> IsFreshCA(g, caTime)
  {
    ReusableMeans(caKey, caCert, now);
    if ReusableCA(caKey, caCert, now) {
      assert caCert.certs == [caCert.certs[0]];
    }
  }

  class SelfSignedCertGenerator {
    var caKey: Content
    var caCert: Content
    /** How often the random source failed. */
    ghost var faults: nat

    constructor ()
      ensures caKey == EMPTY && caCert == EMPTY && faults == 0
    {
      caKey, caCert, faults := EMPTY, EMPTY, 0;
    }

    method SetCA(caKey: Content, caCert: Content)
      modifies this`caKey, this`caCert
      ensures this.caKey == caKey && this.caCert == caCert
    {
      this.caKey := caKey;
      this.caCert := caCert;
    }

    /** Fails when the host is empty, or when the random source does; a key is never drawn twice. */
    method Generate(host: Host, now: Date, caTime: int, leafTime: int) returns (r: Option<Artifacts>)
      requires IsDate(now) && Seconds(now) <= caTime <= leafTime
      modifies this`faults
      ensures faults >= old(faults)
      ensures r.Some? ==> GeneratedBy(r.value, caKey, caCert, host, now, caTime, leafTime)
      ensures r.Some? ==>
                && IsIssued(r.value, host, leafTime)
                && (FitToSign(caKey, caCert, now.inOneYear) ==> r.value.caKey == caKey && r.value.caCert == caCert)
                && (!FitToSign(caKey, caCert, now.inOneYear) ==> IsFreshCA(r.value, caTime))
      ensures host == NoHost ==> r.None?
      ensures host != NoHost && faults == old(faults) ==> r.Some?
    {
      var signingKey: int, signingCert: Cert;
      var newKey: int := *;
      if ReusableCA(caKey, caCert, now) {
        signingKey, signingCert := caKey.keyId, caCert.certs[0];
      } else {
        if * {
          faults := faults + 1;
          return None;
        }
        signingKey, signingCert := newKey, FreshCA(newKey, caTime);
      }
      var altNames := {DnsEntry(DnsName("localhost"))};
      if host.IPv4? {
        altNames := altNames + {IpEntry(host)};
      } else {
        altNames := altNames + {DnsEntry(host)};
      }
      if * {
        faults := faults + 1;
        return None;
      }
      var leafKey: int := *;
      if leafKey == signingKey {
        leafKey := leafKey + 1;
      }
      if host == NoHost {
        return None;
      }
      var leaf := Cert(leafKey, signingKey, altNames, signingCert.notBefore, leafTime + TEN_YEARS, false);
      var g := Artifacts(KeyPem(leafKey, true), CertsPem([leaf]), KeyPem(signingKey, true), CertsPem([signingCert]));
      assert g == Signed(SigningCA(caKey, caCert, now, newKey, caTime), host, leafKey, leafTime);
      GeneratedMeans(g, caKey, caCert, host, now, caTime, leafTime);
      return Some(g);
    }
  }

  // ----- Generated certificates are accepted -----

  /** `check` is a moment at most five months and some days after the generation. */
  ghost predicate SoonAfter(now: Date, leafTime: int, check: Date)
    requires IsDate(now) && IsDate(check)
  {
    leafTime <= Seconds(check) <= Seconds(now) + 181 * DAY
  }

  /** What the reuse test does not look at: whether the pair is a CA at all, and whether it is valid already. */
  predicate GoodSigner(ca: Cert, t: int)
  {
    ca.isCA && ca.notBefore <= t
  }

  /**
   A generated certificate passes `validCert`, at once and for 181 days, exactly when its host is not an IPv6
   address (those end up among the DNS names, where no lookup finds them) and a reused CA certificate is marked as
   a CA and starts no more than six months in the future.
   */
  lemma GeneratedIsAcceptedIff(g: Artifacts, caKey: Content, caCert: Content, host: Host,
                               now: Date, caTime: int, leafTime: int, check: Date)
    requires IsDate(now) && IsDate(check)
    requires GeneratedBy(g, caKey, caCert, host, now, caTime, leafTime) && SoonAfter(now, leafTime, check)
    ensures ValidCert(g, host, check) <==>
              !host.IPv6? && (ReusableCA(caKey, caCert, now) ==> GoodSigner(caCert.certs[0], SixMonthsAfter(check)))
  {
    var leafKey, ca := g.key.keyId, SigningCA(caKey, caCert, now, g.caKey.keyId, caTime);
    var leaf, t := Leaf(ca, host, leafKey, leafTime), SixMonthsAfter(check);
    assert g.cert.certs[0] == leaf && g.caCert.certs == [ca];
    assert NameMatches(leaf, host) <==> !host.IPv6?;
    assert t <= ca.notAfter && t <= leaf.notAfter;
    assert leaf.key != ca.key;
    if GoodSigner(ca, t) {
      assert [ca][0].isCA && CurrentAt([ca][0], t);
    }
  }

  /** The gap is real: the reuse test accepts a self-issued server certificate, which cannot sign. */
  lemma ReuseAcceptsNonCA(now: Date)
    requires IsDate(now)
    ensures var c := Cert(1, 1, {}, Seconds(now), OneYearAfter(now), false);
      ReusableCA(KeyPem(1, true), CertsPem([c]), now) && forall t :: !GoodSigner(c, t)
  {
    assert [Cert(1, 1, {}, Seconds(now), OneYearAfter(now), false)][0].key == 1;
  }

  /**
   In particular, certificates are accepted for every host but an IPv6 address whenever a fresh CA signs them, because
   there was none or because the stored one was unfit.
   */
  lemma FreshIsAccepted(g: Artifacts, caKey: Content, caCert: Content, host: Host,
                        now: Date, caTime: int, leafTime: int, check: Date)
    requires IsDate(now) && IsDate(check) && !host.IPv6? && !ReusableCA(caKey, caCert, now)
    requires GeneratedBy(g, caKey, caCert, host, now, caTime, leafTime) && SoonAfter(now, leafTime, check)
    ensures ValidCert(g, host, check)
    ensures g.caCert.CertsPem? && |g.caCert.certs| == 1 && GoodSigner(g.caCert.certs[0], leafTime)
  {
    GeneratedIsAcceptedIff(g, caKey, caCert, host, now, caTime, leafTime, check);
  }

  /** The CA a generated certificate names is a good one to sign with the next time. */
  lemma GeneratedCAStaysGood(g: Artifacts, caKey: Content, caCert: Content, host: Host,
                             now: Date, caTime: int, leafTime: int)
    requires IsDate(now) && GeneratedBy(g, caKey, caCert, host, now, caTime, leafTime)
    ensures ReusableCA(caKey, caCert, now) ==> g.caCert == caCert && g.caKey == caKey
    ensures g.caCert.CertsPem? && |g.caCert.certs| == 1 && g.cert.CertsPem? && |g.cert.certs| == 1
    ensures OneYearAfter(now) <= g.caCert.certs[0].notAfter
    ensures Seconds(now) + TEN_YEARS <= g.cert.certs[0].notAfter
    ensures g.cert.certs[0].notBefore == g.caCert.certs[0].notBefore
  {
    if ReusableCA(caKey, caCert, now) {
      assert caCert.certs == [caCert.certs[0]];
    }
  }
}

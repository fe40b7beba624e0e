/**
 Renewal over time: a sequence of undisturbed calls of EnsureCert on one Secret or on one directory keeps the webhook
 reachable at every moment, if successes are at most six calendar months apart.
 */
module Renewal {
  import opened Contents
  import opened Calendar
  import opened Certificates
  import opened SecretWriter
  import Disk
  import CertDir

  /** One call: its clocks, what was stored before and after it, the time it returned, and whether it succeeded. */
  datatype Call = Call(
    c1: Clock, check: Date, c2: Clock, before: Option<Artifacts>, after: Option<Artifacts>, done: int, ok: bool)

  /** Each synchronization starts with a generator of its own. */
  const NO_CA := CAPair(EMPTY, EMPTY)

  /**
   With a Secret (`keepsCA`) the stored CA signs, with a directory a new one. A call that failed may have renewed what
   is stored all the same: its write took effect and the reply was lost, or the cleaning up failed.
   */
  ghost predicate IsCall(keepsCA: bool, host: Host, call: Call)
  {
    && InOrder(call.c1, call.check, call.c2)
    && call.c2.leaf <= call.done
    && MayHold(keepsCA, host, call, call.after)
    && (call.ok ==> Served(call.before, call.after, NO_CA, keepsCA, host, call.check, call.c2))
  }

  /** What may be stored at some moment of the call. */
  ghost predicate MayHold(keepsCA: bool, host: Host, call: Call, now: Option<Artifacts>)
    requires InOrder(call.c1, call.check, call.c2)
  {
    now == call.before || Renewed(call.before, now, NO_CA, keepsCA, host, call.c1, call.check, call.c2)
  }

  /** What may be stored at time `t`: new certificates not before they were signed. */
  ghost predicate MayHoldAt(keepsCA: bool, host: Host, call: Call, now: Option<Artifacts>, t: int)
    requires InOrder(call.c1, call.check, call.c2)
  {
    || now == call.before
    || (Renewed(call.before, now, NO_CA, keepsCA, host, call.c1, call.check, call.c2)
        && (call.c2.leaf <= t || (call.before.None? && MadeAt(now.value, NO_CA, host, call.c1) && call.c1.leaf <= t)))
  }

  /** HandleCommon on a Secret, undisturbed, makes such a call: this is what it ensures of its log. */
  lemma SecretCall(log: seq<Option<Secret>>, n: nat, r: Option<Artifacts>, host: Host,
                   c1: Clock, check: Date, c2: Clock, done: int)
    requires 0 < n <= |log| && InOrder(c1, check, c2) && c2.leaf <= done
    requires OnlyRenewals(log, n, NO_CA, host, c1, check, c2)
    requires r.Some? ==>
               Stored(log[|log| - 1]) == r && Served(Stored(log[n - 1]), r, NO_CA, true, host, check, c2)
    ensures var call := Call(c1, check, c2, Stored(log[n - 1]), Stored(log[|log| - 1]), done, r.Some?);
      IsCall(true, host, call) && forall i :: n <= i < |log| ==> MayHold(true, host, call, Stored(log[i]))
  {
    var call := Call(c1, check, c2, Stored(log[n - 1]), Stored(log[|log| - 1]), done, r.Some?);
    forall i | n <= i < |log| ensures MayHold(true, host, call, Stored(log[i])) {
      assert Renewed(Stored(log[n - 1]), Stored(log[i]), NO_CA, true, host, c1, check, c2);
    }
    assert |log| > n ==> MayHold(true, host, call, Stored(log[|log| - 1]));
  }

  /** So does EnsureCert on a directory: this is what it ensures of its trace. */
  lemma DirectoryCall(trace: seq<Disk.Disk>, n: nat, r: Option<Artifacts>, host: Host,
                      c1: Clock, check: Date, c2: Clock, done: int)
    requires 0 < n <= |trace| && InOrder(c1, check, c2) && c2.leaf <= done
    requires CertDir.OnlyRenewed(trace, n, CertDir.ReadBack(trace[n - 1]), NO_CA, host, c1, check, c2)
    requires r.Some? ==>
               && CertDir.ReadBack(trace[|trace| - 1]) == r
               && (ValidCert(r.value, host, check) || MadeAt(r.value, NO_CA, host, c2))
    ensures var before, after := CertDir.ReadBack(trace[n - 1]), CertDir.ReadBack(trace[|trace| - 1]);
      var call := Call(c1, check, c2, before, after, done, r.Some?);
      && IsCall(false, host, call)
      && forall i :: n <= i < |trace| ==> MayHold(false, host, call, CertDir.ReadBack(trace[i]))
  {
    var before := CertDir.ReadBack(trace[n - 1]);
    var call := Call(c1, check, c2, before, CertDir.ReadBack(trace[|trace| - 1]), done, r.Some?);
    forall i | n <= i < |trace| ensures MayHold(false, host, call, CertDir.ReadBack(trace[i])) {
      assert CertDir.ReadBack(trace[i]) == before
        || Renewed(before, CertDir.ReadBack(trace[i]), NO_CA, false, host, c1, check, c2);
    }
    assert |trace| > n ==> MayHold(false, host, call, CertDir.ReadBack(trace[|trace| - 1]));
  }

  /** Nobody else edits the store, and calls do not overlap. */
  ghost predicate Follows(call: Call, next: Call)
    requires InOrder(call.c1, call.check, call.c2) && InOrder(next.c1, next.check, next.c2)
  {
    next.before == call.after && call.done <= Seconds(next.c1.test)
  }

  ghost predicate CallAt(keepsCA: bool, host: Host, calls: seq<Call>, k: nat)
  {
    k < |calls| ==>
      && IsCall(keepsCA, host, calls[k])
      && (k > 0 ==> IsCall(keepsCA, host, calls[k - 1]) && Follows(calls[k - 1], calls[k]))
  }

  /** Nothing yet, or what is read from the empty Secret of the shipped manifest. */
  predicate Blank(stored: Option<Artifacts>)
  {
    stored.Some? ==> stored.value == Artifacts(EMPTY, EMPTY, EMPTY, EMPTY)
  }

  /** From the first success on; calls that failed before it may have left a pair of their own. */
  ghost predicate IsHistory(keepsCA: bool, host: Host, calls: seq<Call>)
  {
    && |calls| > 0 && calls[0].ok && (forall k: nat :: CallAt(keepsCA, host, calls, k))
    && (Blank(calls[0].before) || Sound(calls[0].before.value, host, Seconds(calls[0].c1.test)))
  }

  function DueAfter(call: Call): int
  {
    call.check.inSixMonths
  }

  /** Six months after the check of the last successful call up to `k`. */
  function Due(calls: seq<Call>, k: nat): int
    requires k < |calls|
    decreases k
  {
    if calls[k].ok || k == 0 then DueAfter(calls[k]) else Due(calls, k - 1)
  }

  /** The stored pair is one leaf under one CA, both started by `t`. */
  predicate Sound(certs: Artifacts, host: Host, t: int)
  {
    && KeyPair(certs.cert, certs.key)
    && KeyPair(certs.caCert, certs.caKey)
    && |certs.cert.certs| == 1 && |certs.caCert.certs| == 1
    && var leaf, ca := certs.cert.certs[0], certs.caCert.certs[0];
       && ca.isCA && ca.notBefore <= t && leaf.notBefore <= t
       && leaf.signer == ca.key && leaf != ca && NameMatches(leaf, host)
  }

  /** Lives long enough: both certificates last until `t`. */
  predicate LastsUntil(certs: Artifacts, t: int)
  {
    && certs.cert.CertsPem? && certs.cert.certs != [] && certs.cert.certs[0].notAfter >= t
    && certs.caCert.CertsPem? && certs.caCert.certs != [] && certs.caCert.certs[0].notAfter >= t
  }

  lemma SoundAndLasting(certs: Artifacts, host: Host, from: int, to: int, t: int)
    requires Sound(certs, host, from) && LastsUntil(certs, to) && from <= t <= to
    ensures FitToServe(certs, host, t)
  {
    assert Vouches(certs.caCert.certs[0], certs.cert.certs[0], t);
  }

  /** A valid stored pair lasts for six months more. */
  lemma ValidLasts(certs: Artifacts, host: Host, now: Date, from: int)
    requires IsDate(now) && ValidCert(certs, host, now) && Sound(certs, host, from)
    ensures LastsUntil(certs, SixMonthsAfter(now))
  {
    var leaf, roots, t := certs.cert.certs[0], certs.caCert.certs, SixMonthsAfter(now);
    assert roots == [roots[0]];
    var i :| 0 <= i < |roots| && roots[i].isCA && roots[i].key == leaf.signer && CurrentAt(roots[i], t);
    assert roots[i] == roots[0];
  }

  /** A freshly signed pair is sound, and lasts for a year. */
  lemma GeneratedIsSound(g: Artifacts, ca: CAPair, host: Host, c: Clock)
    requires Ticks(c) && MadeAt(g, ca, host, c) && !host.IPv6?
    requires ReusableCA(ca.key, ca.cert, c.test) ==> GoodSigner(ca.cert.certs[0], c.leaf)
    ensures Sound(g, host, c.leaf)
    ensures LastsUntil(g, OneYearAfter(c.test))
  {
    GeneratedCAStaysGood(g, ca.key, ca.cert, host, c.test, c.ca, c.leaf);
  }

  /** After a call: there is a pair, it is sound, and it lasts until `due`. */
  ghost predicate Kept(host: Host, call: Call, due: int)
  {
    call.after.Some? && Sound(call.after.value, host, call.done) && LastsUntil(call.after.value, due)
  }

  /** The CA that renews a sound pair, or a blank one, is a good signer. */
  lemma SignerIsGood(before: Option<Artifacts>, keepsCA: bool, host: Host, from: int, c: Clock)
    requires Blank(before) || Sound(before.value, host, from)
    requires Ticks(c) && (Blank(before) || from <= Seconds(c.test))
    ensures var ca := Signer(before, NO_CA, keepsCA);
      ReusableCA(ca.key, ca.cert, c.test) ==> GoodSigner(ca.cert.certs[0], c.leaf)
  {
  }

  /** A pair that was renewed during a call is kept for a year. */
  lemma RenewedIsKept(keepsCA: bool, host: Host, call: Call, now: Artifacts, from: int)
    requires InOrder(call.c1, call.check, call.c2) && !host.IPv6?
    requires Blank(call.before) || (Sound(call.before.value, host, from) && from <= Seconds(call.c1.test))
    requires MadeAt(now, Signer(call.before, NO_CA, keepsCA), host, call.c2)
    ensures Sound(now, host, call.c2.leaf) && LastsUntil(now, OneYearAfter(call.c2.test))
  {
    SignerIsGood(call.before, keepsCA, host, from, call.c2);
    GeneratedIsSound(now, Signer(call.before, NO_CA, keepsCA), host, call.c2);
  }

  /** What a successful call establishes from a sound pair, or from none. */
  lemma SuccessKeepsSound(keepsCA: bool, host: Host, call: Call, from: int)
    requires IsCall(keepsCA, host, call) && call.ok && !host.IPv6? && host != NoHost
    requires Blank(call.before) || (Sound(call.before.value, host, from) && from <= Seconds(call.c1.test))
    ensures Kept(host, call, SixMonthsAfter(call.check))
  {
    var now := call.after.value;
    if MadeAt(now, Signer(call.before, NO_CA, keepsCA), host, call.c2) {
      RenewedIsKept(keepsCA, host, call, now, from);
    } else if call.before.None? {
      GeneratedIsSound(now, NO_CA, host, call.c1);
    } else {
      ValidLasts(now, host, call.check, from);
    }
  }

  /** A call that fails on a sound pair keeps it sound, and does not shorten its life. */
  lemma FailureKeepsSound(keepsCA: bool, host: Host, call: Call, from: int, due: int)
    requires IsCall(keepsCA, host, call) && !host.IPv6? && call.before.Some?
    requires Sound(call.before.value, host, from) && from <= Seconds(call.c1.test)
    requires LastsUntil(call.before.value, due) && due <= OneYearAfter(call.c2.test)
    ensures Kept(host, call, due)
  {
    if call.after != call.before {
      RenewedIsKept(keepsCA, host, call, call.after.value, from);
    }
  }

  lemma {:induction false} HistoryKeepsSound(keepsCA: bool, host: Host, calls: seq<Call>, k: nat)
    requires IsHistory(keepsCA, host, calls) && k < |calls| && !host.IPv6? && host != NoHost
    ensures Kept(host, calls[k], Due(calls, k)) && Due(calls, k) <= calls[k].done + 184 * DAY
    decreases k
  {
    assert CallAt(keepsCA, host, calls, k);
    if k == 0 {
      SuccessKeepsSound(keepsCA, host, calls[0], Seconds(calls[0].c1.test));
    } else {
      HistoryKeepsSound(keepsCA, host, calls, k - 1);
      if calls[k].ok {
        SuccessKeepsSound(keepsCA, host, calls[k], calls[k - 1].done);
      } else {
        FailureKeepsSound(keepsCA, host, calls[k], calls[k - 1].done, Due(calls, k - 1));
      }
    }
  }

  /**
   From the moment a call returns, whether it succeeded or failed, a client that trusts the stored CA accepts the stored
   certificate at every time up to six months after the check of the last success.
   */
  lemma ReachableUntilDue(keepsCA: bool, host: Host, calls: seq<Call>, k: nat, t: int)
    requires IsHistory(keepsCA, host, calls) && k < |calls| && !host.IPv6? && host != NoHost
    requires calls[k].done <= t <= Due(calls, k)
    ensures calls[k].after.Some? && FitToServe(calls[k].after.value, host, t)
  {
    HistoryKeepsSound(keepsCA, host, calls, k);
    SoundAndLasting(calls[k].after.value, host, calls[k].done, Due(calls, k), t);
  }

  /** And so is a pair that the next call stores, from the moment it stores it. */
  lemma ReachableOnceRenewed(keepsCA: bool, host: Host, calls: seq<Call>, k: nat, now: Option<Artifacts>, t: int)
    requires IsHistory(keepsCA, host, calls) && k + 1 < |calls| && !host.IPv6? && host != NoHost
    requires t <= Due(calls, k) && InOrder(calls[k + 1].c1, calls[k + 1].check, calls[k + 1].c2)
    requires now != calls[k].after && MayHoldAt(keepsCA, host, calls[k + 1], now, t)
    ensures now.Some? && FitToServe(now.value, host, t)
  {
    HistoryKeepsSound(keepsCA, host, calls, k);
    assert CallAt(keepsCA, host, calls, k + 1);
    RenewedIsKept(keepsCA, host, calls[k + 1], now.value, calls[k].done);
    SoundAndLasting(now.value, host, calls[k + 1].c2.leaf, OneYearAfter(calls[k + 1].c2.test), t);
  }

  lemma {:induction false} DueStays(calls: seq<Call>, j: nat, k: nat)
    requires j <= k < |calls| && (forall i :: j < i <= k ==> !calls[i].ok) && calls[j].ok
    ensures Due(calls, k) == DueAfter(calls[j])
    decreases k
  {
    if j == k {
    } else {
      DueStays(calls, j, k - 1);
    }
  }

  lemma {:induction false} TimePasses(keepsCA: bool, host: Host, calls: seq<Call>, k: nat, l: nat)
    requires IsHistory(keepsCA, host, calls) && k <= l < |calls|
    ensures calls[k].done <= calls[l].done
    decreases l
  {
    if k == l {
    } else {
      TimePasses(keepsCA, host, calls, k, l - 1);
      assert CallAt(keepsCA, host, calls, l);
    }
  }

  /**
   No gap, with a Secret and with a directory. Where two successes `j` and `l` are at most six months apart, at every
   time `t` between them, whatever is stored at that time (`now`, in the call after `k` or before it starts) is accepted
   by a client that trusts the CA stored with it, however many calls failed in between and whatever these wrote.
   */
  lemma RenewalLeavesNoGap(keepsCA: bool, host: Host, calls: seq<Call>, j: nat, l: nat, k: nat,
                           now: Option<Artifacts>, t: int)
    requires IsHistory(keepsCA, host, calls) && j <= k < l < |calls| && !host.IPv6? && host != NoHost
    requires calls[j].ok && calls[l].ok && forall i :: j < i < l ==> !calls[i].ok
    requires calls[l].done <= DueAfter(calls[j])
    requires calls[k].done <= t <= calls[k + 1].done
    requires InOrder(calls[k + 1].c1, calls[k + 1].check, calls[k + 1].c2)
    requires MayHoldAt(keepsCA, host, calls[k + 1], now, t)
    ensures now.Some? && FitToServe(now.value, host, t)
  {
    DueStays(calls, j, k);
    TimePasses(keepsCA, host, calls, k + 1, l);
    assert CallAt(keepsCA, host, calls, k + 1);
    if now == calls[k].after {
      ReachableUntilDue(keepsCA, host, calls, k, t);
    } else {
      ReachableOnceRenewed(keepsCA, host, calls, k, now, t);
    }
  }

  /**
   With a Secret the trust anchor changes only when it has to: a call that finds a pair keeps its CA certificate, unless
   that CA fails the one-year test. It holds of failed calls too.
   */
  lemma CAChangesOnlyWhenUnfit(host: Host, call: Call)
    requires IsCall(true, host, call) && call.before.Some?
    ensures call.after.Some? && IsDate(call.c2.test)
    ensures var was := call.before.value;
      call.after.value.caCert != was.caCert ==> !FitToSign(was.caKey, was.caCert, call.c2.test.inOneYear)
  {
    if call.after != call.before {
      MadeMeans(call.after.value, Signer(call.before, NO_CA, true), host, call.c2);
    }
  }
}

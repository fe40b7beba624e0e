/**
 The service controller: it keeps one Service and one Endpoints object in step with the list of gateways.
 */
module ServiceController {
  import opened Contents
  import opened Election
  import opened GatewayController

  /** A subset with one address and one port. */
  datatype Subset = Subset(ip: string, nodeName: string, port: int, protocol: string)

  datatype Service = Service(kind: string, port: int, protocol: string, targetPort: int, trafficPolicy: string)

  /** What `ensureService` creates. */
  const MANAGED := Service("LoadBalancer", 4500, "UDP", 4500, "Local")

  datatype State = State(
    gateways: seq<Gateway>, nodes: map<string, Node>, service: Option<Service>, endpoints: Option<seq<Subset>>)

  // ----- What the gateways ask for -----

  predicate AnyLB(gateways: seq<Gateway>)
  {
    exists i :: 0 <= i < |gateways| && ExposedByLB(gateways[i].spec)
  }

  /** The node of the first load-balancer gateway that has an active endpoint. */
  function TargetNode(gateways: seq<Gateway>): (r: Option<string>)
    ensures r.Some? ==> AnyLB(gateways)
  {
    if gateways == [] then None
    else if ExposedByLB(gateways[0].spec) && gateways[0].status.active.Some? then
      Some(gateways[0].status.active.value.nodeName)
    else
      assert forall i :: 0 <= i < |gateways| - 1 ==> gateways[1..][i] == gateways[i + 1];
      TargetNode(gateways[1..])
  }

  /** What both objects should look like depends on the gateways only through this. */
  datatype Target = Target(exposed: bool, node: Option<string>)

  function TargetOf(gateways: seq<Gateway>): Target
  {
    Target(AnyLB(gateways), TargetNode(gateways))
  }

  function WantedSubsets(node: Node): seq<Subset>
  {
    [Subset(InternalIP(node.addresses), node.name, 4500, "UDP")]
  }

  /** Both objects are as the gateways ask: nothing is left to do. */
  ghost predicate Converged(s: State)
  {
    var t := TargetOf(s.gateways);
    && (s.service.Some? <==> t.exposed)
    && (!t.exposed ==> s.endpoints == None)
    && (t.node.Some? ==> t.node.value in s.nodes && s.endpoints == Some(WantedSubsets(s.nodes[t.node.value])))
  }

  // ----- The same by positions and fields -----

  ghost predicate Decisive(gw: Gateway)
  {
    gw.spec.exposeType == "LoadBalancer" && gw.status.active.Some?
  }

  /** The gateway at `i` decides: the first one behind a load balancer that has an active endpoint. */
  ghost predicate DecidesAt(gateways: seq<Gateway>, i: nat)
  {
    i < |gateways| && Decisive(gateways[i]) && forall j :: 0 <= j < i ==> !Decisive(gateways[j])
  }

  ghost predicate IsExposed(gateways: seq<Gateway>)
  {
    exists i :: 0 <= i < |gateways| && gateways[i].spec.exposeType == "LoadBalancer"
  }

  /** One subset: the first internal address of the node, on UDP port 4500. */
  ghost predicate PointAt(subsets: seq<Subset>, node: Node)
  {
    |subsets| == 1 && IsInternalIP(node.addresses, subsets[0].ip)
    && subsets[0].nodeName == node.name && subsets[0].port == 4500 && subsets[0].protocol == "UDP"
  }

  /** The Service exists if a gateway is exposed; the Endpoints point at the node of the one that decides. */
  ghost predicate AsAsked(s: State)
  {
    && (s.service.Some? <==> IsExposed(s.gateways))
    && (!IsExposed(s.gateways) ==> s.endpoints == None)
    && forall i: nat :: DecidesAt(s.gateways, i) ==>
         var name := s.gateways[i].status.active.value.nodeName;
         name in s.nodes && s.endpoints.Some? && PointAt(s.endpoints.value, s.nodes[name])
  }

  lemma {:induction false} TargetIsDecided(gateways: seq<Gateway>) returns (i: nat)
    ensures TargetNode(gateways).Some? ==>
              DecidesAt(gateways, i) && TargetNode(gateways).value == gateways[i].status.active.value.nodeName
    ensures TargetNode(gateways).None? ==> forall j :: 0 <= j < |gateways| ==> !Decisive(gateways[j])
    decreases |gateways|
  {
    if gateways == [] || Decisive(gateways[0]) {
      i := 0;
    } else {
      var k := TargetIsDecided(gateways[1..]);
      i := k + 1;
      assert forall j :: 1 <= j < |gateways| ==> gateways[j] == gateways[1..][j - 1];
    }
  }

  lemma SubsetsMean(node: Node)
    ensures PointAt(WantedSubsets(node), node)
  {
    InternalIPMeans(node.addresses);
  }

  /** There is one first internal address. */
  lemma OneInternalIP(addresses: seq<Address>, ip: string)
    requires IsInternalIP(addresses, ip)
    ensures ip == InternalIP(addresses)
  {
    InternalIPMeans(addresses);
  }

  lemma ConvergedMeans(s: State)
    ensures Converged(s) <==> AsAsked(s)
  {
    var t := TargetOf(s.gateways);
    var k := TargetIsDecided(s.gateways);
    assert t.exposed <==> IsExposed(s.gateways);
    if t.node.Some? {
      assert forall i: nat :: DecidesAt(s.gateways, i) ==> i == k;
      if t.node.value in s.nodes {
        SubsetsMean(s.nodes[t.node.value]);
        if s.endpoints.Some? && PointAt(s.endpoints.value, s.nodes[t.node.value]) {
          OneInternalIP(s.nodes[t.node.value].addresses, s.endpoints.value[0].ip);
          assert s.endpoints.value == WantedSubsets(s.nodes[t.node.value]);
        }
      }
    } else {
      assert forall i: nat :: !DecidesAt(s.gateways, i);
    }
  }

  // ----- The reconciler -----

  class ServiceReconciler {
    var s: State
    /** How many API calls failed although the objects allowed them. */
    ghost var faults: nat
    /** How many of these failures were ignored. */
    ghost var drops: nat

    constructor (s: State)
      ensures this.s == s && faults == 0 && drops == 0
    {
      this.s, faults, drops := s, 0, 0;
    }

    /** Nothing is ignored that did not fail. */
    twostate predicate Onward()
      reads this
    {
      old(faults) <= faults && old(drops) <= drops && (faults == old(faults) ==> drops == old(drops))
    }

    /** No API call failed without a reason in the objects. */
    twostate predicate Smooth()
      reads this
    {
      faults == old(faults)
    }

    method CleanService() returns (ok: bool)
      modifies this
      ensures Onward()
      ensures s == old(s).(service := s.service) && drops == old(drops)
      ensures ok ==> s.service == None
      ensures !ok ==> !Smooth() && s == old(s)
    {
      if * {
        faults := faults + 1;
        return false;
      }
      s := s.(service := None);
      return true;
    }

    /** Creates the Service if it is not found. Any other error of the lookup is ignored. */
    method EnsureService() returns (ok: bool)
      modifies this
      ensures Onward()
      ensures s == old(s) || (old(s.service).None? && s == old(s).(service := Some(MANAGED)))
      ensures Smooth() ==> ok
      ensures ok && drops == old(drops) ==> s.service.Some?
    {
      if * {
        faults, drops := faults + 1, drops + 1;
        return true;
      }
      if s.service.None? {
        if * {
          faults := faults + 1;
          return false;
        }
        s := s.(service := Some(MANAGED));
      }
      return true;
    }

    method ReconcileService(gatewayList: seq<Gateway>) returns (ok: bool)
      modifies this
      ensures Onward()
      ensures s == old(s).(service := s.service)
      ensures s.service == old(s.service) || s.service == None || s.service == Some(MANAGED)
      ensures Smooth() ==> ok
      ensures ok ==> (s.service.Some? ==> AnyLB(gatewayList))
      ensures ok && drops == old(drops) ==> (AnyLB(gatewayList) ==> s.service.Some?)
      ensures old(s.service).Some? && AnyLB(gatewayList) ==> s == old(s)
    {
      for i := 0 to |gatewayList|
        invariant forall j :: 0 <= j < i ==> !ExposedByLB(gatewayList[j].spec)
        invariant s == old(s) && Smooth() && drops == old(drops)
      {
        if ExposedByLB(gatewayList[i].spec) {
          ok := EnsureService();
          return;
        }
      }
      ok := CleanService();
    }

    method CleanEndpoint() returns (ok: bool)
      modifies this
      ensures Onward()
      ensures s == old(s).(endpoints := s.endpoints) && drops == old(drops)
      ensures Smooth() ==> ok
      ensures ok ==> s.endpoints == None
      ensures !ok ==> s == old(s)
    {
      if * {
        faults := faults + 1;
        return false;
      }
      s := s.(endpoints := None);
      return true;
    }

    method EnsureEndpoint(node: Node) returns (ok: bool)
      modifies this
      ensures Onward()
      ensures s == old(s).(endpoints := s.endpoints) && drops == old(drops)
      ensures ok ==> s.endpoints == Some(WantedSubsets(node))
      ensures !ok ==> !Smooth() && s == old(s)
    {
      var newSubsets := [Subset(InternalIP(node.addresses), node.name, 4500, "UDP")];
      if * {
        faults := faults + 1;
        return false;
      }
      if s.endpoints.None? {
        if * {
          faults := faults + 1;
          return false;
        }
        s := s.(endpoints := Some(newSubsets));
        return true;
      }
      if s.endpoints.value != newSubsets {
        if * {
          faults := faults + 1;
          return false;
        }
        s := s.(endpoints := Some(newSubsets));
      }
      return true;
    }

    /** The first load-balancer gateway with an active endpoint decides; a missing node is an error. */
    method ReconcileEndpoint(gatewayList: seq<Gateway>) returns (ok: bool)
      modifies this
      ensures Onward()
      ensures s == old(s).(endpoints := s.endpoints) && drops == old(drops)
      ensures !ok ==> s == old(s)
      ensures var t := TargetOf(gatewayList);
        && (Smooth() ==> (ok <==> (t.node.Some? ==> t.node.value in s.nodes)))
        && (ok && t.node.Some? ==>
              t.node.value in s.nodes && s.endpoints == Some(WantedSubsets(s.nodes[t.node.value])))
        && (ok && t.node.None? && t.exposed ==> s == old(s))
        && (ok && !t.exposed ==> s.endpoints == None)
    {
      var exposedByLB := false;
      assert gatewayList[0..] == gatewayList;
      for i := 0 to |gatewayList|
        invariant exposedByLB <==> exists j :: 0 <= j < i && ExposedByLB(gatewayList[j].spec)
        invariant TargetNode(gatewayList) == TargetNode(gatewayList[i..])
        invariant s == old(s) && Smooth() && drops == old(drops)
      {
        assert gatewayList[i..][1..] == gatewayList[i + 1..];
        var gw := gatewayList[i];
        if ExposedByLB(gw.spec) {
          exposedByLB := true;
          if gw.status.active.Some? {
            var name := gw.status.active.value.nodeName;
            assert TargetNode(gatewayList) == Some(name);
            if * {
              faults := faults + 1;
              return false;
            }
            if name !in s.nodes {
              return false;
            }
            ok := EnsureEndpoint(s.nodes[name]);
            return;
          }
        }
      }
      if !exposedByLB {
        ok := CleanEndpoint();
        return;
      }
      return true;
    }

    /**
     `Reconcile`. A success converges, or leaves at most the Service missing, namely after its lookup failed and the
     failure was ignored. Without faults it succeeds unless the active node is missing; then the Service is right and
     the Endpoints stay. Where nothing is left to do it changes nothing.
     */
    method Reconcile() returns (ok: bool)
      modifies this
      ensures Onward()
      ensures s.gateways == old(s.gateways) && s.nodes == old(s.nodes)
      ensures ok && drops == old(drops) ==> Converged(s) && AsAsked(s)
      ensures ok && !Converged(s) ==>
                IsExposed(s.gateways) && s.service.None? && Converged(s.(service := Some(MANAGED)))
      ensures Smooth() ==> (s.service.Some? <==> IsExposed(s.gateways))
      ensures s.service == old(s.service) || s.service == None
              || s.service == Some(Service("LoadBalancer", 4500, "UDP", 4500, "Local"))
      ensures var t := TargetOf(s.gateways);
        && (Smooth() ==> (ok <==> (t.node.Some? ==> t.node.value in s.nodes)))
        && (ok && t.exposed && t.node.None? ==> s.endpoints == old(s.endpoints))
        && (!ok ==> s.endpoints == old(s.endpoints))
      ensures old(Converged(s)) && Smooth() ==> s == old(s)
    {
      if * {
        faults := faults + 1;
        return false;
      }
      var gatewayList := s.gateways;
      ok := ReconcileService(gatewayList);
      if !ok {
        return false;
      }
      ok := ReconcileEndpoint(gatewayList);
      ConvergedMeans(s);
    }

    /**
     Recovery: whatever failed in one reconcile, a second one without faults converges, unless the active node is
     missing. `faults1` counts the faults of the first.
     */
    method FailThenRetry() returns (ok1: bool, ok2: bool, ghost faults1: nat)
      modifies this
      ensures old(faults) <= faults1 <= faults && s.gateways == old(s.gateways) && s.nodes == old(s.nodes)
      ensures var t := TargetOf(s.gateways);
        faults1 == faults ==>
          && (ok2 <==> (t.node.Some? ==> t.node.value in s.nodes))
          && (ok2 ==> Converged(s) && AsAsked(s))
    {
      ok1 := Reconcile();
      faults1 := faults;
      ok2 := Reconcile();
    }
  }

  // ----- Which gateway events enqueue a request -----

  /** `mapGatewayToRequest`. */
  predicate GatewayRequests(gw: Gateway)
  {
    ExposedByLB(gw.spec)
  }

  /** A gateway that is created, deleted or updated at position `i` of the list; updates map both objects. */
  datatype GatewayEvent = Created(i: nat, gw: Gateway) | Deleted(i: nat) | Updated(i: nat, gw: Gateway)

  predicate Possible(gateways: seq<Gateway>, e: GatewayEvent)
  {
    match e
    case Created(i, _) => i <= |gateways|
    case Deleted(i) => i < |gateways|
    case Updated(i, _) => i < |gateways|
  }

  function After(gateways: seq<Gateway>, e: GatewayEvent): seq<Gateway>
    requires Possible(gateways, e)
  {
    match e
    case Created(i, gw) => gateways[..i] + [gw] + gateways[i..]
    case Deleted(i) => gateways[..i] + gateways[i + 1..]
    case Updated(i, gw) => gateways[i := gw]
  }

  predicate Enqueues(gateways: seq<Gateway>, e: GatewayEvent)
    requires Possible(gateways, e)
  {
    match e
    case Created(_, gw) => GatewayRequests(gw)
    case Deleted(i) => GatewayRequests(gateways[i])
    case Updated(i, gw) => GatewayRequests(gateways[i]) || GatewayRequests(gw)
  }

  /** And nothing else enqueues one: the gateway is behind a load balancer, or was. */
  lemma OnlyExposedEnqueue(gateways: seq<Gateway>, e: GatewayEvent)
    requires Possible(gateways, e)
    ensures Enqueues(gateways, e) <==>
              || (!e.Deleted? && e.gw.spec.exposeType == "LoadBalancer")
              || (!e.Created? && gateways[e.i].spec.exposeType == "LoadBalancer")
  {
  }

  /** A gateway that is not exposed by a load balancer does not matter, wherever it stands. */
  lemma {:induction false} PlainGatewayIsIrrelevant(front: seq<Gateway>, gw: Gateway, back: seq<Gateway>)
    requires !ExposedByLB(gw.spec)
    ensures TargetOf(front + [gw] + back) == TargetOf(front + back)
    decreases |front|
  {
    var with, without := front + [gw] + back, front + back;
    if front == [] {
      assert with[1..] == back && without == back;
      assert forall i :: 0 <= i < |back| ==> with[i + 1] == back[i];
    } else {
      PlainGatewayIsIrrelevant(front[1..], gw, back);
      assert with[1..] == front[1..] + [gw] + back;
      assert without[1..] == front[1..] + back;
      AnyLBOfTail(with);
      AnyLBOfTail(without);
    }
  }

  lemma AnyLBOfTail(gateways: seq<Gateway>)
    requires gateways != []
    ensures AnyLB(gateways) <==> ExposedByLB(gateways[0].spec) || AnyLB(gateways[1..])
  {
    if AnyLB(gateways[1..]) {
      var i :| 0 <= i < |gateways[1..]| && ExposedByLB(gateways[1..][i].spec);
      assert gateways[i + 1] == gateways[1..][i];
    }
    if AnyLB(gateways) && !ExposedByLB(gateways[0].spec) {
      var i :| 0 <= i < |gateways| && ExposedByLB(gateways[i].spec);
      assert gateways[1..][i - 1] == gateways[i];
    }
  }

  lemma UnnoticedIsIrrelevant(gateways: seq<Gateway>, e: GatewayEvent)
    requires Possible(gateways, e) && !Enqueues(gateways, e)
    ensures TargetOf(After(gateways, e)) == TargetOf(gateways)
  {
    match e
    case Created(i, gw) =>
      PlainGatewayIsIrrelevant(gateways[..i], gw, gateways[i..]);
      assert gateways[..i] + gateways[i..] == gateways;
    case Deleted(i) =>
      PlainGatewayIsIrrelevant(gateways[..i], gateways[i], gateways[i + 1..]);
      assert gateways[..i] + [gateways[i]] + gateways[i + 1..] == gateways;
    case Updated(i, gw) =>
      PlainGatewayIsIrrelevant(gateways[..i], gateways[i], gateways[i + 1..]);
      PlainGatewayIsIrrelevant(gateways[..i], gw, gateways[i + 1..]);
      assert gateways[..i] + [gateways[i]] + gateways[i + 1..] == gateways;
      assert gateways[..i] + [gw] + gateways[i + 1..] == gateways[i := gw];
  }

  /** No gateway event that changes what the two objects should look like goes unnoticed. */
  lemma ChangesAreNoticed(gateways: seq<Gateway>, e: GatewayEvent)
    requires Possible(gateways, e)
    ensures TargetOf(After(gateways, e)) != TargetOf(gateways) ==> Enqueues(gateways, e)
  {
    if !Enqueues(gateways, e) {
      UnnoticedIsIrrelevant(gateways, e);
    }
  }
}

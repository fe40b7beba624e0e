/**
 The gateway controller: one reconcile of one gateway against the cluster, and the filter that decides which node
 events lead to one.
 */
module GatewayController {
  import opened Contents
  import opened Election

  // ----- The cluster -----

  /** The load-balancer ingress of the Service, if the Service exists. */
  type Ingress = Option<seq<string>>

  datatype BlockAffinity = BlockAffinity(node: string, state: string, cidr: string)

  datatype World = World(
    nodes: map<string, Node>, gateways: map<string, Gateway>, ingress: Ingress, affinities: seq<BlockAffinity>)

  ghost predicate WellNamed(w: World)
  {
    && (forall n :: n in w.nodes ==> w.nodes[n].name == n)
    && "" !in w.gateways
  }

  /** The value of the gateway label; a missing label reads as the empty string. */
  function LabelOf(node: Node): string
  {
    if GATEWAY_LABEL in node.labels then node.labels[GATEWAY_LABEL] else ""
  }

  /** The label selector: the label is there and names the gateway. */
  predicate ManagedBy(node: Node, gw: string)
  {
    GATEWAY_LABEL in node.labels && node.labels[GATEWAY_LABEL] == gw
  }

  /** The node has the label of the gateway. */
  ghost predicate Labelled(node: Node, gw: string)
  {
    "raven.openyurt.io/gateway" in node.labels && node.labels["raven.openyurt.io/gateway"] == gw
  }

  /** The ready nodes that a gateway manages. */
  ghost function ReadyOf(nodes: map<string, Node>, gw: string): set<string>
  {
    set n | n in nodes && Labelled(nodes[n], gw) && SaysReady(nodes[n])
  }

  /** The active endpoint after a successful reconcile, or None when the reconcile leaves the status alone. */
  ghost function NewActive(w: World, gw: Gateway): Option<Option<Endpoint>>
  {
    var elected := Elect(gw.spec.endpoints, ReadyOf(w.nodes, gw.name), gw.status.active);
    if !ExposedByLB(gw.spec) then Some(elected)
    else if w.ingress.None? || w.ingress.value == [] || elected.None? then None
    else Some(WithIP(elected, w.ingress.value[0]))
  }

  /** `getPodCIDRs`: the confirmed blocks of a Calico node, the node's own range otherwise. */
  predicate OnCalico(node: Node)
  {
    exists k :: k in node.annotations && Contains(k, "projectcalico.org")
  }

  predicate Contains(s: string, part: string)
  {
    exists i :: 0 <= i <= |s| && part <= s[i..]
  }

  function Confirmed(affinities: seq<BlockAffinity>, node: string): seq<string>
  {
    if affinities == [] then []
    else
      var rest := Confirmed(affinities[..|affinities| - 1], node);
      var last := affinities[|affinities| - 1];
      if last.node == node && last.state == "confirmed" then rest + [last.cidr] else rest
  }

  function PodCIDRs(w: World, node: Node): seq<string>
  {
    if OnCalico(node) then Confirmed(w.affinities, node.name) else [node.podCIDR]
  }

  /** `GetNodeInternalIP`: the first internal address that parses. */
  function InternalIP(addresses: seq<Address>): string
  {
    if addresses == [] then ""
    else if addresses[0].atype == "InternalIP" && addresses[0].parses then addresses[0].address
    else InternalIP(addresses[1..])
  }

  function InfoOf(w: World, node: Node): NodeInfo
  {
    NodeInfo(node.name, InternalIP(node.addresses), PodCIDRs(w, node))
  }

  // ----- What the status says of a node, by positions and fields -----

  ghost predicate Internal(a: Address)
  {
    a.atype == "InternalIP" && a.parses
  }

  /** The first internal address, or nothing if there is none. */
  ghost predicate IsInternalIP(addresses: seq<Address>, ip: string)
  {
    || (ip == "" && forall k :: 0 <= k < |addresses| ==> !Internal(addresses[k]))
    || (exists k :: 0 <= k < |addresses| && Internal(addresses[k]) && addresses[k].address == ip
                    && forall j :: 0 <= j < k ==> !Internal(addresses[j]))
  }

  /** `cidrs` are the confirmed blocks of `node` in the order of the list, those at the positions `at`. */
  ghost predicate ConfirmedAt(affinities: seq<BlockAffinity>, node: string, at: seq<nat>, cidrs: seq<string>)
  {
    && |at| == |cidrs|
    && (forall k :: 0 <= k < |at| ==>
          at[k] < |affinities| && affinities[at[k]] == BlockAffinity(node, "confirmed", cidrs[k]))
    && (forall k, l :: 0 <= k < l < |at| ==> at[k] < at[l])
    && (forall i :: 0 <= i < |affinities| && affinities[i].node == node && affinities[i].state == "confirmed" ==>
          i in at)
  }

  ghost predicate HasCalicoKey(node: Node)
  {
    exists k, i :: k in node.annotations && 0 <= i <= |k| && "projectcalico.org" <= k[i..]
  }

  /** `info` describes the node: its name, its first internal address, and its blocks or its range. */
  ghost predicate Describe(w: World, node: Node, info: NodeInfo)
  {
    && info.nodeName == node.name && IsInternalIP(node.addresses, info.privateIP)
    && (!HasCalicoKey(node) ==> info.subnets == [node.podCIDR])
    && (HasCalicoKey(node) ==> exists at :: ConfirmedAt(w.affinities, node.name, at, info.subnets))
  }

  lemma {:induction false} InternalIPMeans(addresses: seq<Address>)
    ensures IsInternalIP(addresses, InternalIP(addresses))
    decreases |addresses|
  {
    if addresses == [] || Internal(addresses[0]) {
    } else {
      var rest := addresses[1..];
      InternalIPMeans(rest);
      assert forall j :: 1 <= j < |addresses| ==> addresses[j] == rest[j - 1];
      if k :| 0 <= k < |rest| && Internal(rest[k]) && rest[k].address == InternalIP(rest)
              && forall j :: 0 <= j < k ==> !Internal(rest[j]) {
        assert Internal(addresses[k + 1]);
      }
    }
  }

  lemma {:induction false} ConfirmedMeans(affinities: seq<BlockAffinity>, node: string) returns (at: seq<nat>)
    ensures ConfirmedAt(affinities, node, at, Confirmed(affinities, node))
    decreases |affinities|
  {
    if affinities == [] {
      at := [];
    } else {
      var n := |affinities| - 1;
      at := ConfirmedMeans(affinities[..n], node);
      if affinities[n].node == node && affinities[n].state == "confirmed" {
        at := at + [n];
      }
    }
  }

  lemma CalicoMeans(node: Node)
    ensures OnCalico(node) <==> HasCalicoKey(node)
  {
    if k :| k in node.annotations && Contains(k, "projectcalico.org") {
      assert OnCalico(node);
    }
  }

  lemma InfoMeans(w: World, node: Node)
    ensures Describe(w, node, InfoOf(w, node))
  {
    InternalIPMeans(node.addresses);
    CalicoMeans(node);
    var at := ConfirmedMeans(w.affinities, node.name);
  }

  /** `infos` describes exactly the managed nodes, each of them once. */
  ghost predicate Describes(w: World, gw: string, infos: seq<NodeInfo>)
  {
    && (forall i :: 0 <= i < |infos| ==>
          infos[i].nodeName in w.nodes && Labelled(w.nodes[infos[i].nodeName], gw)
          && Describe(w, w.nodes[infos[i].nodeName], infos[i]))
    && (forall i, j :: 0 <= i < j < |infos| ==> infos[i].nodeName != infos[j].nodeName)
    && (forall n :: n in w.nodes && Labelled(w.nodes[n], gw) ==>
          exists i :: 0 <= i < |infos| && infos[i].nodeName == n)
  }

  /** The active endpoint that a reconcile may write: the elected one, with the address of the load balancer if any. */
  ghost predicate IsNewActive(w: World, gw: Gateway, active: Option<Endpoint>)
  {
    if gw.spec.exposeType != "LoadBalancer"
    then IsElected(gw.spec.endpoints, ReadyOf(w.nodes, gw.name), gw.status.active, active)
    else
      && w.ingress.Some? && w.ingress.value != [] && active.Some? && active.value.publicIP == w.ingress.value[0]
      && exists ip :: IsElected(gw.spec.endpoints, ReadyOf(w.nodes, gw.name), gw.status.active,
                                Some(active.value.(publicIP := ip)))
  }

  lemma NewActiveMeans(w: World, gw: Gateway)
    requires NewActive(w, gw).Some?
    ensures IsNewActive(w, gw, NewActive(w, gw).value)
  {
    var elected := Elect(gw.spec.endpoints, ReadyOf(w.nodes, gw.name), gw.status.active);
    ElectMeans(gw.spec.endpoints, ReadyOf(w.nodes, gw.name), gw.status.active);
    if ExposedByLB(gw.spec) {
      assert NewActive(w, gw).value.value.(publicIP := elected.value.publicIP) == elected.value;
    }
  }

  datatype Outcome = Done | Requeue | Error | NilDereference

  /**
   How a reconcile without API errors ends: it waits for the address of the load balancer, and dereferences nil if there
   is one but no endpoint of the spec has a ready node.
   */
  ghost predicate Ends(w: World, gw: Gateway, r: Outcome)
  {
    if gw.spec.exposeType != "LoadBalancer" then r == Done
    else if w.ingress.None? || w.ingress.value == [] then r == Requeue
    else if forall i :: 0 <= i < |gw.spec.endpoints| ==> gw.spec.endpoints[i].nodeName !in ReadyOf(w.nodes, gw.name)
    then r == NilDereference
    else r == Done
  }

  class Cluster {
    var world: World
    /** How many API calls failed. */
    ghost var faults: nat

    constructor (w: World)
      ensures world == w && faults == 0
    {
      world, faults := w, 0;
    }

    twostate predicate Smooth()
      reads this
    {
      faults == old(faults)
    }

    /** The managed nodes, in some order. */
    method ListNodes(gw: string) returns (list: seq<Node>)
      requires WellNamed(world)
      ensures IsListing(world, gw, list)
    {
      list := [];
      var todo := world.nodes.Keys;
      while todo != {}
        invariant todo <= world.nodes.Keys
        invariant forall i :: 0 <= i < |list| ==>
                    list[i].name in world.nodes && list[i].name !in todo
                    && world.nodes[list[i].name] == list[i] && ManagedBy(list[i], gw)
        invariant forall i, j :: 0 <= i < j < |list| ==> list[i].name != list[j].name
        invariant forall n :: n in world.nodes && n !in todo && ManagedBy(world.nodes[n], gw) ==> world.nodes[n] in list
        decreases todo
      {
        var n :| n in todo;
        if ManagedBy(world.nodes[n], gw) {
          list := list + [world.nodes[n]];
        }
        todo := todo - {n};
      }
    }

    method GetPodCIDRs(node: Node) returns (ok: bool, podCIDRs: seq<string>)
      modifies this`faults
      ensures faults >= old(faults) && (Smooth() <==> ok)
      ensures ok ==> podCIDRs == PodCIDRs(world, node)
      ensures ok && !HasCalicoKey(node) ==> podCIDRs == [node.podCIDR]
      ensures ok && HasCalicoKey(node) ==> exists at :: ConfirmedAt(world.affinities, node.name, at, podCIDRs)
    {
      podCIDRs := [];
      CalicoMeans(node);
      ghost var at := ConfirmedMeans(world.affinities, node.name);
      if OnCalico(node) {
        if * {
          faults := faults + 1;
          return false, [];
        }
        for i := 0 to |world.affinities|
          invariant podCIDRs == Confirmed(world.affinities[..i], node.name)
        {
          var v := world.affinities[i];
          assert world.affinities[..i + 1][..i] == world.affinities[..i];
          if v.node != node.name || v.state != "confirmed" {
            continue;
          }
          podCIDRs := podCIDRs + [v.cidr];
        }
        assert world.affinities[..|world.affinities|] == world.affinities;
        return true, podCIDRs;
      }
      return true, podCIDRs + [node.podCIDR];
    }

    /** The loop of step 2. */
    method DescribeNodes(nodeList: seq<Node>) returns (ok: bool, nodes: seq<NodeInfo>)
      modifies this`faults
      ensures faults >= old(faults) && (Smooth() ==> ok)
      ensures ok ==> |nodes| == |nodeList| && forall j :: 0 <= j < |nodeList| ==> nodes[j] == InfoOf(world, nodeList[j])
    {
      nodes := [];
      for i := 0 to |nodeList|
        invariant |nodes| == i && faults == old(faults)
        invariant forall j :: 0 <= j < i ==> nodes[j] == InfoOf(world, nodeList[j])
      {
        var podCIDRs;
        ok, podCIDRs := GetPodCIDRs(nodeList[i]);
        if !ok {
          return false, [];
        }
        nodes := nodes + [NodeInfo(nodeList[i].name, InternalIP(nodeList[i].addresses), podCIDRs)];
      }
      return true, nodes;
    }

    /** Step 1: the election, and the address of the load balancer. */
    method ChooseActive(gw: Gateway, nodeList: seq<Node>) returns (r: Outcome, activeEp: Option<Endpoint>)
      requires WellNamed(world) && IsListing(world, gw.name, nodeList)
      modifies this`faults
      ensures faults >= old(faults) && r != Error
      ensures r == Done ==> NewActive(world, gw) == Some(activeEp) && IsNewActive(world, gw, activeEp)
      ensures r != Done ==> ExposedByLB(gw.spec)
      ensures Smooth() || r == NilDereference ==> Ends(world, gw, r)
    {
      activeEp := ElectActiveEndpoint(nodeList, gw);
      ListedReady(world, gw.name, nodeList);
      if ExposedByLB(gw.spec) {
        if * {
          faults := faults + 1;
          return Requeue, activeEp;
        }
        if world.ingress.None? {
          return Requeue, activeEp;
        }
        if |world.ingress.value| == 0 {
          return Requeue, activeEp;
        }
        if activeEp.None? {
          return NilDereference, activeEp;
        }
        activeEp := Some(activeEp.value.(publicIP := world.ingress.value[0]));
      }
      NewActiveMeans(world, gw);
      return Done, activeEp;
    }

    /**
     `Reconcile` of one gateway. On success the active endpoint is the elected one and the node list describes the
     managed nodes; in every other case, and for every other gateway, the cluster stays as it was. A load-balancer
     gateway without any candidate, once the address is known, is a nil dereference.
     */
    method Reconcile(name: string) returns (r: Outcome)
      requires WellNamed(world)
      requires name in world.gateways ==> world.gateways[name].name == name
      modifies this
      ensures r != Done || name !in old(world.gateways) ==> world == old(world)
      ensures r == Done && name in old(world.gateways) ==>
                var gw := old(world.gateways[name]);
                && NewActive(old(world), gw).Some? && name in world.gateways
                && IsNewActive(old(world), gw, world.gateways[name].status.active)
                && Describes(old(world), name, world.gateways[name].status.nodes)
                && world == old(world).(gateways := old(world).gateways[name :=
                     gw.(status := GatewayStatus(world.gateways[name].status.nodes, NewActive(old(world), gw).value))])
      ensures faults >= old(faults)
      ensures Smooth() ==>
                if name in old(world.gateways) then Ends(old(world), old(world.gateways[name]), r) else r == Done
      ensures r == Requeue || r == NilDereference ==> name in world.gateways && ExposedByLB(world.gateways[name].spec)
      ensures r == NilDereference ==> Ends(world, world.gateways[name], r)
    {
      if * {
        faults := faults + 1;
        return Error;
      }
      if name !in world.gateways {
        return Done;
      }
      var gw := world.gateways[name];
      if * {
        faults := faults + 1;
        return Error;
      }
      var nodeList := ListNodes(name);
      // 1. elect
      var activeEp;
      r, activeEp := ChooseActive(gw, nodeList);
      if r != Done {
        return;
      }
      // 2. describe the managed nodes
      var ok, nodes := DescribeNodes(nodeList);
      if !ok {
        return Error;
      }
      if * {
        faults := faults + 1;
        return Error;
      }
      ListedDescribes(world, name, nodeList, nodes);
      world := world.(gateways := world.gateways[name := gw.(status := GatewayStatus(nodes, activeEp))]);
      return Done;
    }
  }

  ghost predicate IsListing(w: World, gw: string, list: seq<Node>)
  {
    && (forall i :: 0 <= i < |list| ==>
          list[i].name in w.nodes && w.nodes[list[i].name] == list[i] && ManagedBy(list[i], gw))
    && (forall i, j :: 0 <= i < j < |list| ==> list[i].name != list[j].name)
    && (forall n :: n in w.nodes && ManagedBy(w.nodes[n], gw) ==> w.nodes[n] in list)
  }

  /** The listed ready nodes are the ready nodes the gateway manages. */
  lemma ListedReady(w: World, gw: string, list: seq<Node>)
    requires WellNamed(w) && IsListing(w, gw, list)
    ensures ReadyNames(list) == ReadyOf(w.nodes, gw)
  {
    forall n | n in ReadyOf(w.nodes, gw) ensures n in ReadyNames(list) {
      var i :| 0 <= i < |list| && list[i] == w.nodes[n];
      assert list[i].name == n;
    }
  }

  lemma ListedDescribes(w: World, gw: string, list: seq<Node>, infos: seq<NodeInfo>)
    requires WellNamed(w) && IsListing(w, gw, list)
    requires |infos| == |list| && forall j :: 0 <= j < |list| ==> infos[j] == InfoOf(w, list[j])
    ensures Describes(w, gw, infos)
  {
    forall j | 0 <= j < |list| ensures Describe(w, list[j], infos[j]) {
      InfoMeans(w, list[j]);
    }
    forall n | n in w.nodes && Labelled(w.nodes[n], gw)
      ensures exists i :: 0 <= i < |infos| && infos[i].nodeName == n
    {
      var i :| 0 <= i < |list| && list[i] == w.nodes[n];
      assert infos[i].nodeName == n;
    }
  }
}

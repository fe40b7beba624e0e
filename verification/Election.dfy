/**
 Gateways, and the election of the active endpoint among the endpoints whose node is ready. Endpoints are compared
 as values, like reflect.DeepEqual does on them.
 */
module Election {
  import opened Contents

  datatype Endpoint = Endpoint(nodeName: string, underNAT: bool, publicIP: string, config: map<string, string>)

  datatype NodeInfo = NodeInfo(nodeName: string, privateIP: string, subnets: seq<string>)

  datatype GatewaySpec = GatewaySpec(endpoints: seq<Endpoint>, exposeType: string)

  datatype GatewayStatus = GatewayStatus(nodes: seq<NodeInfo>, active: Option<Endpoint>)

  datatype Gateway = Gateway(name: string, spec: GatewaySpec, status: GatewayStatus)

  datatype Condition = Condition(ctype: string, status: string)

  datatype Address = Address(atype: string, address: string, parses: bool)

  datatype Node = Node(
    name: string, labels: map<string, string>, annotations: map<string, string>,
    conditions: seq<Condition>, addresses: seq<Address>, podCIDR: string)

  const GATEWAY_LABEL := "raven.openyurt.io/gateway"
  const LOAD_BALANCER := "LoadBalancer"

  predicate ExposedByLB(spec: GatewaySpec)
  {
    spec.exposeType == LOAD_BALANCER
  }

  // ----- Ready nodes -----

  /** `getNodeCondition`: the first condition of the type. */
  function NodeCondition(conditions: seq<Condition>, ctype: string): Option<Condition>
  {
    if conditions == [] then None
    else if conditions[0].ctype == ctype then Some(conditions[0])
    else NodeCondition(conditions[1..], ctype)
  }

  /** `isNodeReady`. */
  predicate IsNodeReady(node: Node)
  {
    var c := NodeCondition(node.conditions, "Ready");
    c.Some? && c.value.status == "True"
  }

  /** What is meant: among the conditions, the first one of type "Ready" says "True". */
  ghost predicate SaysReady(node: Node)
  {
    exists k :: 0 <= k < |node.conditions| && node.conditions[k] == Condition("Ready", "True")
                && forall j :: 0 <= j < k ==> node.conditions[j].ctype != "Ready"
  }

  lemma {:induction false} FirstCondition(conditions: seq<Condition>, ctype: string)
    ensures var c := NodeCondition(conditions, ctype);
      if c.None? then forall j :: 0 <= j < |conditions| ==> conditions[j].ctype != ctype
      else exists k :: 0 <= k < |conditions| && conditions[k] == c.value && c.value.ctype == ctype
                       && forall j :: 0 <= j < k ==> conditions[j].ctype != ctype
    decreases |conditions|
  {
    if conditions == [] || conditions[0].ctype == ctype {
    } else {
      FirstCondition(conditions[1..], ctype);
      assert forall j :: 1 <= j < |conditions| ==> conditions[j] == conditions[1..][j - 1];
      if NodeCondition(conditions, ctype).Some? {
        var k :| 0 <= k < |conditions| - 1 && conditions[1..][k] == NodeCondition(conditions, ctype).value
                 && forall j :: 0 <= j < k ==> conditions[1..][j].ctype != ctype;
        assert conditions[k + 1] == NodeCondition(conditions, ctype).value;
      }
    }
  }

  /** A status other than "True", such as "Unknown", or a missing condition is not ready. */
  lemma ReadyMeans(node: Node)
    ensures IsNodeReady(node) <==> SaysReady(node)
  {
    FirstCondition(node.conditions, "Ready");
  }

  /** The names of the ready ones among the listed nodes. */
  ghost function ReadyNames(nodes: seq<Node>): set<string>
  {
    set i | 0 <= i < |nodes| && SaysReady(nodes[i]) :: nodes[i].name
  }

  // ----- The election -----

  /** The first endpoint hosted by one of the nodes. */
  function FirstOn(endpoints: seq<Endpoint>, names: set<string>): (r: Option<Endpoint>)
    ensures r.Some? <==> exists i :: 0 <= i < |endpoints| && endpoints[i].nodeName in names
    ensures r.Some? ==> r.value in endpoints && r.value.nodeName in names
  {
    if endpoints == [] then None
    else if endpoints[0].nodeName in names then Some(endpoints[0])
    else
      assert forall i :: 1 <= i < |endpoints| ==> endpoints[i] == endpoints[1..][i - 1];
      FirstOn(endpoints[1..], names)
  }

  /** `checkActive`: the node is ready, and the endpoint is one of the spec. */
  predicate Competent(endpoints: seq<Endpoint>, ready: set<string>, ep: Option<Endpoint>)
  {
    ep.Some? && ep.value.nodeName in ready && ep.value in endpoints
  }

  /** The result of the election, from the spec, the ready nodes and the current active endpoint. */
  function Elect(endpoints: seq<Endpoint>, ready: set<string>, current: Option<Endpoint>): Option<Endpoint>
  {
    if Competent(endpoints, ready, current) then FirstOn(endpoints, {current.value.nodeName})
    else FirstOn(endpoints, ready)
  }

  /**
   What an election is for, by positions in the spec: an endpoint of the spec on a ready node, none only if there is
   none, the active node again as long as it is ready and its endpoint is in the spec, and the first one otherwise.
   */
  ghost predicate IsElected(endpoints: seq<Endpoint>, ready: set<string>, current: Option<Endpoint>,
                            ep: Option<Endpoint>)
  {
    && (ep.None? <==> forall i :: 0 <= i < |endpoints| ==> endpoints[i].nodeName !in ready)
    && (ep.Some? ==>
          exists i :: 0 <= i < |endpoints| && endpoints[i] == ep.value && ep.value.nodeName in ready
            && forall j :: 0 <= j < i ==>
                 endpoints[j].nodeName !in ready
                 || (current.Some? && current.value in endpoints && current.value.nodeName == ep.value.nodeName
                     && endpoints[j].nodeName != ep.value.nodeName))
    && (current.Some? && current.value in endpoints && current.value.nodeName in ready ==>
          ep.Some? && ep.value.nodeName == current.value.nodeName)
  }

  lemma {:induction false} FirstOnPosition(endpoints: seq<Endpoint>, names: set<string>) returns (i: nat)
    requires FirstOn(endpoints, names).Some?
    ensures i < |endpoints| && FirstOn(endpoints, names) == Some(endpoints[i]) && endpoints[i].nodeName in names
    ensures forall j :: 0 <= j < i ==> endpoints[j].nodeName !in names
    decreases |endpoints|
  {
    if endpoints[0].nodeName in names {
      i := 0;
    } else {
      var k := FirstOnPosition(endpoints[1..], names);
      i := k + 1;
      assert forall j :: 1 <= j < |endpoints| ==> endpoints[j] == endpoints[1..][j - 1];
    }
  }

  lemma ElectMeans(endpoints: seq<Endpoint>, ready: set<string>, current: Option<Endpoint>)
    ensures IsElected(endpoints, ready, current, Elect(endpoints, ready, current))
  {
    ElectIsSoundAndComplete(endpoints, ready, current);
    var r := Elect(endpoints, ready, current);
    if Competent(endpoints, ready, current) {
      ElectIsSticky(endpoints, ready, current);
      var at :| 0 <= at < |endpoints| && endpoints[at] == current.value;
      assert endpoints[at].nodeName in ready;
      var i := FirstOnPosition(endpoints, {current.value.nodeName});
    } else if r.Some? {
      var i := FirstOnPosition(endpoints, ready);
    }
  }

  /** It leaves no choice: there is one outcome, the one computed. */
  lemma OneIsElected(endpoints: seq<Endpoint>, ready: set<string>, current: Option<Endpoint>, ep: Option<Endpoint>)
    requires IsElected(endpoints, ready, current, ep)
    ensures ep == Elect(endpoints, ready, current)
  {
    ElectMeans(endpoints, ready, current);
    var r := Elect(endpoints, ready, current);
    if ep.Some? {
      var i :| 0 <= i < |endpoints| && endpoints[i] == ep.value && ep.value.nodeName in ready
        && forall j :: 0 <= j < i ==>
             endpoints[j].nodeName !in ready
             || (current.Some? && current.value in endpoints && current.value.nodeName == ep.value.nodeName
                 && endpoints[j].nodeName != ep.value.nodeName);
      var k :| 0 <= k < |endpoints| && endpoints[k] == r.value && r.value.nodeName in ready
        && forall j :: 0 <= j < k ==>
             endpoints[j].nodeName !in ready
             || (current.Some? && current.value in endpoints && current.value.nodeName == r.value.nodeName
                 && endpoints[j].nodeName != r.value.nodeName);
      assert i == k;
    }
  }

  method CheckActive(endpoints: seq<Endpoint>, readyNodes: map<string, Node>, ep: Option<Endpoint>) returns (ok: bool)
    ensures ok == Competent(endpoints, readyNodes.Keys, ep)
  {
    if ep.None? {
      return false;
    }
    if ep.value.nodeName in readyNodes {
      var inList := false;
      for i := 0 to |endpoints|
        invariant inList <==> ep.value in endpoints[..i]
      {
        if endpoints[i] == ep.value {
          inList := true;
          assert endpoints[..i + 1] == endpoints[..i] + [endpoints[i]];
          assert endpoints[i] in endpoints;
          return true;
        }
        assert endpoints[..i + 1] == endpoints[..i] + [endpoints[i]];
      }
      assert endpoints[..|endpoints|] == endpoints;
      return inList;
    }
    return false;
  }

  /** `electActiveEndpoint`. */
  method ElectActiveEndpoint(nodeList: seq<Node>, gw: Gateway) returns (ep: Option<Endpoint>)
    ensures ep == Elect(gw.spec.endpoints, ReadyNames(nodeList), gw.status.active)
    ensures IsElected(gw.spec.endpoints, ReadyNames(nodeList), gw.status.active, ep)
  {
    var readyNodes: map<string, Node> := map[];
    for i := 0 to |nodeList|
      invariant readyNodes.Keys == ReadyNames(nodeList[..i])
    {
      ReadyNamesSnoc(nodeList, i);
      ReadyMeans(nodeList[i]);
      if IsNodeReady(nodeList[i]) {
        readyNodes := readyNodes[nodeList[i].name := nodeList[i]];
      }
    }
    assert nodeList[..|nodeList|] == nodeList;
    ep := ElectAmong(gw.spec.endpoints, readyNodes, gw.status.active);
    ElectMeans(gw.spec.endpoints, ReadyNames(nodeList), gw.status.active);
  }

  /** The two loops of the election: the active node first, then any ready one. */
  method ElectAmong(endpoints: seq<Endpoint>, readyNodes: map<string, Node>, activeEp: Option<Endpoint>)
    returns (ep: Option<Endpoint>)
    ensures ep == Elect(endpoints, readyNodes.Keys, activeEp)
  {
    ghost var ready := readyNodes.Keys;
    var active := CheckActive(endpoints, readyNodes, activeEp);
    if active {
      var current := activeEp.value;
      for i := 0 to |endpoints|
        invariant forall j :: 0 <= j < i ==> endpoints[j].nodeName != current.nodeName
      {
        if endpoints[i].nodeName == current.nodeName {
          FirstOnAt(endpoints, {current.nodeName}, i);
          return Some(endpoints[i]);
        }
      }
    }
    for i := 0 to |endpoints|
      invariant forall j :: 0 <= j < i ==> endpoints[j].nodeName !in ready
    {
      var ok := CheckActive(endpoints, readyNodes, Some(endpoints[i]));
      if ok {
        FirstOnAt(endpoints, ready, i);
        return Some(endpoints[i]);
      }
    }
    return None;
  }

  lemma ReadyNamesSnoc(nodes: seq<Node>, i: nat)
    requires i < |nodes|
    ensures ReadyNames(nodes[..i + 1]) == ReadyNames(nodes[..i]) + if SaysReady(nodes[i]) then {nodes[i].name} else {}
  {
    var longer, shorter := nodes[..i + 1], nodes[..i];
    forall n | n in ReadyNames(longer)
      ensures n in ReadyNames(shorter) + if SaysReady(nodes[i]) then {nodes[i].name} else {}
    {
      var j :| 0 <= j < |longer| && SaysReady(longer[j]) && longer[j].name == n;
      if j < i {
        assert shorter[j] == longer[j];
      }
    }
    forall n | n in ReadyNames(shorter) ensures n in ReadyNames(longer) {
      var j :| 0 <= j < |shorter| && SaysReady(shorter[j]) && shorter[j].name == n;
      assert longer[j] == shorter[j];
    }
    assert longer[i] == nodes[i];
  }

  lemma {:induction false} FirstOnAt(endpoints: seq<Endpoint>, names: set<string>, i: nat)
    requires i < |endpoints| && endpoints[i].nodeName in names
    requires forall j :: 0 <= j < i ==> endpoints[j].nodeName !in names
    ensures FirstOn(endpoints, names) == Some(endpoints[i])
    decreases i
  {
    if i == 0 {
    } else {
      FirstOnAt(endpoints[1..], names, i - 1);
    }
  }

  // ----- What the election guarantees -----

  /** Sound and complete: the result is a spec endpoint on a ready node; there is none only if no endpoint has one. */
  lemma ElectIsSoundAndComplete(endpoints: seq<Endpoint>, ready: set<string>, current: Option<Endpoint>)
    ensures var r := Elect(endpoints, ready, current);
      && (r.Some? ==> r.value in endpoints && r.value.nodeName in ready)
      && (r.None? <==> forall i :: 0 <= i < |endpoints| ==> endpoints[i].nodeName !in ready)
  {
    if Competent(endpoints, ready, current) {
      var i :| 0 <= i < |endpoints| && endpoints[i] == current.value;
      assert endpoints[i].nodeName in ready;
    }
  }

  lemma {:induction false} FirstOnIsFirstOfItsNode(endpoints: seq<Endpoint>, names: set<string>)
    requires FirstOn(endpoints, names).Some?
    ensures FirstOn(endpoints, {FirstOn(endpoints, names).value.nodeName}) == FirstOn(endpoints, names)
    decreases |endpoints|
  {
    if endpoints[0].nodeName !in names {
      FirstOnIsFirstOfItsNode(endpoints[1..], names);
    }
  }

  /** Idempotent, even when several endpoints share a node: electing again from the result changes nothing. */
  lemma ElectIsIdempotent(endpoints: seq<Endpoint>, ready: set<string>, current: Option<Endpoint>)
    ensures Elect(endpoints, ready, Elect(endpoints, ready, current)) == Elect(endpoints, ready, current)
  {
    ElectIsSoundAndComplete(endpoints, ready, current);
    var r := Elect(endpoints, ready, current);
    if r.Some? {
      FirstOnIsFirstOfItsNode(
        endpoints, if Competent(endpoints, ready, current) then {current.value.nodeName} else ready);
    }
  }

  /** Sticky: the active node is given up only when it is not ready or its endpoint has left the spec. */
  lemma ElectIsSticky(endpoints: seq<Endpoint>, ready: set<string>, current: Option<Endpoint>)
    requires current.Some?
    ensures var r := Elect(endpoints, ready, current);
      r.None? || r.value.nodeName != current.value.nodeName ==>
        current.value.nodeName !in ready || current.value !in endpoints
  {
    if Competent(endpoints, ready, current) {
      var i :| 0 <= i < |endpoints| && endpoints[i] == current.value;
      assert endpoints[i].nodeName in {current.value.nodeName};
    }
  }

  // ----- Load balancers -----

  /** What `validateGateway` accepts, on the fields that are modelled; `parses` says which strings are IP addresses. */
  ghost predicate Accepted(spec: GatewaySpec, parses: set<string>)
  {
    && spec.endpoints != []
    && forall i :: 0 <= i < |spec.endpoints| ==>
         && spec.endpoints[i].underNAT == spec.endpoints[0].underNAT
         && (spec.endpoints[i].publicIP != "" ==>
               spec.exposeType != "LoadBalancer" && spec.endpoints[i].publicIP in parses)
         && spec.endpoints[i].nodeName != ""
  }

  /** The reconciler writes the address of the load balancer into the elected endpoint. */
  function WithIP(ep: Option<Endpoint>, ip: string): Option<Endpoint>
  {
    match ep
    case None => None
    case Some(e) => Some(e.(publicIP := ip))
  }

  /**
   Behind a load balancer the election has no memory: it ignores the status it wrote itself. That holds, whatever
   nodes are ready, exactly when the address is not empty or the active endpoint is on the first spec node anyway.
   (A load balancer that is known by host name only has an empty IP.)
   */
  lemma LBElectionIsMemorylessIff(spec: GatewaySpec, parses: set<string>, e: Endpoint, ip: string)
    requires Accepted(spec, parses) && ExposedByLB(spec) && e in spec.endpoints
    ensures (forall ready :: Elect(spec.endpoints, ready, WithIP(Some(e), ip)) == Elect(spec.endpoints, ready, None))
            <==> (ip != "" || spec.endpoints[0].nodeName == e.nodeName)
  {
    var endpoints, written := spec.endpoints, WithIP(Some(e), ip);
    if ip != "" {
      assert written.value !in endpoints;
    } else {
      assert e.publicIP == "" by {
        var i :| 0 <= i < |endpoints| && endpoints[i] == e;
      }
      assert written == Some(e);
      if endpoints[0].nodeName != e.nodeName {
        var ready := {endpoints[0].nodeName, e.nodeName};
        var i :| 0 <= i < |endpoints| && endpoints[i] == e;
        assert Elect(endpoints, ready, None) == Some(endpoints[0]);
        assert Elect(endpoints, ready, written).value.nodeName == e.nodeName;
      }
    }
  }

  /** One reconcile of a load-balancer gateway whose address is known. */
  function LBReconciled(endpoints: seq<Endpoint>, ready: set<string>, ip: string, current: Option<Endpoint>)
    : Option<Endpoint>
  {
    WithIP(Elect(endpoints, ready, current), ip)
  }

  /** With fixed inputs the active endpoint of an accepted load-balancer gateway is stable after two reconciles. */
  lemma LBStableAfterTwo(spec: GatewaySpec, parses: set<string>, ready: set<string>, ip: string,
                         current: Option<Endpoint>)
    requires Accepted(spec, parses) && ExposedByLB(spec)
    ensures var once := LBReconciled(spec.endpoints, ready, ip, current);
      var twice := LBReconciled(spec.endpoints, ready, ip, once);
      LBReconciled(spec.endpoints, ready, ip, twice) == twice
  {
    var once := LBReconciled(spec.endpoints, ready, ip, current);
    ElectIsSoundAndComplete(spec.endpoints, ready, current);
    if ip != "" {
      assert once.Some? ==> once.value !in spec.endpoints;
      ElectIsSoundAndComplete(spec.endpoints, ready, once);
    } else {
      var elected := Elect(spec.endpoints, ready, current);
      if elected.Some? {
        var i :| 0 <= i < |spec.endpoints| && spec.endpoints[i] == elected.value;
        assert spec.endpoints[i].publicIP == "";
        assert once == elected;
      }
      ElectIsIdempotent(spec.endpoints, ready, current);
    }
  }

  // ----- The validating webhook -----

  datatype FieldError =
    | MissingEndpoints
    | UnderNATDiffers(at: nat)
    | PublicIPForbidden(at: nat)
    | PublicIPInvalid(at: nat)
    | NodeNameEmpty(at: nat)

  datatype Validation = Admitted | Denied(errors: seq<FieldError>) | Panic

  /** What each error is about. */
  ghost predicate IsWrong(spec: GatewaySpec, parses: set<string>, e: FieldError)
  {
    match e
    case MissingEndpoints => spec.endpoints == []
    case UnderNATDiffers(i) => i < |spec.endpoints| && spec.endpoints[i].underNAT != spec.endpoints[0].underNAT
    case PublicIPForbidden(i) =>
      i < |spec.endpoints| && spec.endpoints[i].publicIP != "" && spec.exposeType == "LoadBalancer"
    case PublicIPInvalid(i) =>
      i < |spec.endpoints| && spec.endpoints[i].publicIP != "" && spec.endpoints[i].publicIP !in parses
    case NodeNameEmpty(i) => i < |spec.endpoints| && spec.endpoints[i].nodeName == ""
  }

  predicate About(e: FieldError, n: nat)
  {
    !e.MissingEndpoints? && e.at < n
  }

  /** `validateGateway`. The check for a missing list is followed by an access to its first element. */
  method ValidateGateway(spec: GatewaySpec, parses: set<string>) returns (r: Validation)
    ensures r == Admitted <==> Accepted(spec, parses)
    ensures r == Panic <==> spec.endpoints == []
    ensures r.Denied? ==> r.errors != [] && forall e :: e in r.errors <==> IsWrong(spec, parses, e)
  {
    var errList: seq<FieldError> := [];
    var endpoints := spec.endpoints;
    if |endpoints| == 0 {
      return Panic;
    }
    var underNAT := endpoints[0].underNAT;
    for i := 0 to |endpoints|
      invariant errList == [] <==> forall j :: 0 <= j < i ==>
                  && endpoints[j].underNAT == underNAT
                  && (endpoints[j].publicIP != "" ==> !ExposedByLB(spec) && endpoints[j].publicIP in parses)
                  && endpoints[j].nodeName != ""
      invariant forall e :: e in errList <==> About(e, i) && IsWrong(spec, parses, e)
    {
      var ep := endpoints[i];
      if ep.underNAT != underNAT {
        errList := errList + [UnderNATDiffers(i)];
      }
      if ep.publicIP != "" {
        if ExposedByLB(spec) {
          errList := errList + [PublicIPForbidden(i)];
        }
        if ep.publicIP !in parses {
          errList := errList + [PublicIPInvalid(i)];
        }
      }
      if |ep.nodeName| == 0 {
        errList := errList + [NodeNameEmpty(i)];
      }
    }
    return if errList == [] then Admitted else Denied(errList);
  }
}

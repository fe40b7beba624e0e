/**
 The event filter of the gateway controller, over unbounded runs of node and gateway events. A controller that
 drops the node updates the filter rejects, and reconciles only the gateways the events map to, computes the same
 active endpoints as one that reconciles every gateway after every event.
 */
module EventFilter {
  import opened Contents
  import opened Election
  import opened GatewayController

  // ----- The filter and the mapping -----

  /** `NodeChangedPredicates.Update`. */
  predicate UpdatePasses(old': Option<Node>, new': Option<Node>)
  {
    if old'.None? || new'.None? then false
    else LabelOf(old'.value) != LabelOf(new'.value) || IsNodeReady(old'.value) != IsNodeReady(new'.value)
  }

  /** `mapNodeToRequest`, when the API answers: the gateway the label names, if it exists. */
  function NodeRequests(w: World, node: Node): set<string>
  {
    var gw := LabelOf(node);
    if gw == "" || gw !in w.gateways then {} else {gw}
  }

  // ----- Events -----

  datatype Event =
    | NodeAdded(node: Node)
    | NodeUpdated(node: Node)
    | NodeDeleted(name: string)
    | SpecChanged(gw: string, spec: GatewaySpec)

  /** The cluster after the event, before any reconcile. */
  function Happen(w: World, e: Event): World
  {
    match e
    case NodeAdded(node) => if node.name in w.nodes then w else w.(nodes := w.nodes[node.name := node])
    case NodeUpdated(node) => if node.name in w.nodes then w.(nodes := w.nodes[node.name := node]) else w
    case NodeDeleted(name) => w.(nodes := w.nodes - {name})
    case SpecChanged(gw, spec) =>
      if gw in w.gateways then w.(gateways := w.gateways[gw := w.gateways[gw].(spec := spec)]) else w
  }

  /** The gateways that the watches enqueue. An update event maps both the old and the new object. */
  function Requests(w: World, e: Event): set<string>
  {
    match e
    case NodeAdded(node) => NodeRequests(w, node)
    case NodeUpdated(node) =>
      if node.name in w.nodes && UpdatePasses(Some(w.nodes[node.name]), Some(node))
      then NodeRequests(w, w.nodes[node.name]) + NodeRequests(w, node)
      else {}
    case NodeDeleted(name) => if name in w.nodes then NodeRequests(w, w.nodes[name]) else {}
    case SpecChanged(gw, _) => {gw}
  }

  /** A successful reconcile of every gateway in `names`; the node list in the status is left out of account. */
  ghost function Reconciled(w: World, names: set<string>): World
  {
    w.(gateways := map g | g in w.gateways :: if g in names then ReconciledGateway(w, w.gateways[g]) else w.gateways[g])
  }

  ghost function ReconciledGateway(w: World, gw: Gateway): Gateway
  {
    match NewActive(w, gw)
    case None => gw
    case Some(active) => gw.(status := gw.status.(active := active))
  }

  ghost function Filtered(w: World, e: Event): World
  {
    Reconciled(Happen(w, e), Requests(w, e))
  }

  ghost function Unfiltered(w: World, e: Event): World
  {
    Reconciled(Happen(w, e), w.gateways.Keys)
  }

  ghost function RunFiltered(w: World, events: seq<Event>): World
    decreases |events|
  {
    if events == [] then w else RunFiltered(Filtered(w, events[0]), events[1..])
  }

  ghost function RunUnfiltered(w: World, events: seq<Event>): World
    decreases |events|
  {
    if events == [] then w else RunUnfiltered(Unfiltered(w, events[0]), events[1..])
  }

  // ----- What an event can change for a gateway -----

  ghost predicate ProperWorld(w: World)
  {
    WellNamed(w) && forall g :: g in w.gateways ==> w.gateways[g].name == g
  }

  /** The status of `g` is what an election from it would give: nothing is left to do. */
  ghost predicate Settled(w: World, g: string)
    requires g in w.gateways
  {
    !ExposedByLB(w.gateways[g].spec)
    && var gw := w.gateways[g];
       gw.status.active == Elect(gw.spec.endpoints, ReadyOf(w.nodes, g), gw.status.active)
  }

  lemma HappenKeepsProper(w: World, e: Event)
    requires ProperWorld(w)
    ensures ProperWorld(Happen(w, e)) && Happen(w, e).gateways.Keys == w.gateways.Keys
  {
  }

  /** The filter loses nothing relevant: for a gateway that is not enqueued, the ready nodes and the spec stay. */
  lemma NotRequestedMeansUnchanged(w: World, e: Event, g: string)
    requires ProperWorld(w) && g in w.gateways && g !in Requests(w, e)
    ensures ReadyOf(Happen(w, e).nodes, g) == ReadyOf(w.nodes, g)
    ensures Happen(w, e).gateways[g] == w.gateways[g]
  {
    var w' := Happen(w, e);
    forall n ensures n in ReadyOf(w'.nodes, g) <==> n in ReadyOf(w.nodes, g) {
      match e
      case NodeAdded(node) =>
      case NodeUpdated(node) =>
        ReadyMeans(node);
        if node.name in w.nodes {
          ReadyMeans(w.nodes[node.name]);
        }
      case NodeDeleted(name) =>
      case SpecChanged(gw, spec) =>
    }
  }

  /** The gateway label; a missing one counts as empty. */
  ghost predicate LabelIs(node: Node, value: string)
  {
    Labelled(node, value) || (value == "" && "raven.openyurt.io/gateway" !in node.labels)
  }

  /** What the filter drops: the node updates that change neither the label nor what the Ready condition says. */
  lemma DropsIff(was: Node, now: Node)
    ensures !UpdatePasses(Some(was), Some(now)) <==>
              (SaysReady(was) <==> SaysReady(now)) && exists v :: LabelIs(was, v) && LabelIs(now, v)
  {
    ReadyMeans(was);
    ReadyMeans(now);
    assert LabelIs(was, LabelOf(was)) && LabelIs(now, LabelOf(now));
  }

  /** And nothing is asked for in vain: a node event enqueues existing gateways whose label the node has or had. */
  lemma RequestedIsConcerned(w: World, e: Event, g: string)
    requires ProperWorld(w) && !e.SpecChanged? && g in Requests(w, e)
    ensures g in w.gateways
    ensures match e
            case NodeAdded(node) => Labelled(node, g)
            case NodeUpdated(node) =>
              && node.name in w.nodes && (Labelled(w.nodes[node.name], g) || Labelled(node, g))
              && UpdatePasses(Some(w.nodes[node.name]), Some(node))
            case NodeDeleted(name) => name in w.nodes && Labelled(w.nodes[name], g)
            case SpecChanged(_, _) => true
  {
  }

  /** A settled gateway stays settled under events that do not enqueue it, and a reconcile settles any gateway. */
  lemma ReconcileSettles(w: World, gw: Gateway)
    requires !ExposedByLB(gw.spec)
    ensures var r := ReconciledGateway(w, gw);
      && r.spec == gw.spec && r.name == gw.name
      && r.status.active == Elect(gw.spec.endpoints, ReadyOf(w.nodes, gw.name), gw.status.active)
      && r.status.active == Elect(r.spec.endpoints, ReadyOf(w.nodes, r.name), r.status.active)
  {
    ElectIsIdempotent(gw.spec.endpoints, ReadyOf(w.nodes, gw.name), gw.status.active);
  }

  /** The two controllers work on the same cluster. */
  ghost predicate SameCluster(f: World, u: World)
  {
    && ProperWorld(f) && ProperWorld(u)
    && f.nodes == u.nodes && f.gateways.Keys == u.gateways.Keys && f.ingress == u.ingress
  }

  /** They agree on a gateway. */
  ghost predicate SameGateway(f: World, u: World, g: string)
    requires g in f.gateways && g in u.gateways
  {
    && f.gateways[g].spec == u.gateways[g].spec
    && f.gateways[g].status.active == u.gateways[g].status.active
  }

  /** The two controllers have the same cluster, and agree on a gateway that is settled in both. */
  ghost predicate Same(f: World, u: World, g: string)
  {
    SameCluster(f, u) && g in f.gateways && SameGateway(f, u, g) && Settled(f, g) && Settled(u, g)
  }

  lemma ReconciledKeepsProper(w: World, names: set<string>)
    requires ProperWorld(w)
    ensures ProperWorld(Reconciled(w, names)) && Reconciled(w, names).gateways.Keys == w.gateways.Keys
  {
  }

  /** A reconcile of `g`, and possibly others, settles it. */
  lemma ReconciledSettles(w: World, names: set<string>, g: string)
    requires ProperWorld(w) && g in w.gateways && g in names && !ExposedByLB(w.gateways[g].spec)
    ensures var after, gw := Reconciled(w, names), w.gateways[g];
      && g in after.gateways && Settled(after, g) && after.gateways[g].spec == gw.spec
      && after.gateways[g].status.active == Elect(gw.spec.endpoints, ReadyOf(w.nodes, g), gw.status.active)
  {
    ReconcileSettles(w, w.gateways[g]);
  }

  /** One event with the filter: the gateway is settled again, with the active endpoint an election gives. */
  lemma FilteredStep(f: World, e: Event, g: string)
    requires ProperWorld(f) && g in f.gateways && Settled(f, g)
    requires !ExposedByLB(Happen(f, e).gateways[g].spec)
    ensures var now, after := Happen(f, e), Filtered(f, e);
      && ProperWorld(after) && g in after.gateways && Settled(after, g)
      && after.gateways[g].spec == now.gateways[g].spec
      && after.gateways[g].status.active ==
           Elect(now.gateways[g].spec.endpoints, ReadyOf(now.nodes, g), f.gateways[g].status.active)
  {
    HappenKeepsProper(f, e);
    ReconciledKeepsProper(Happen(f, e), Requests(f, e));
    if g in Requests(f, e) {
      ReconciledSettles(Happen(f, e), Requests(f, e), g);
    } else {
      NotRequestedMeansUnchanged(f, e, g);
    }
  }

  /** One event without the filter does the same. */
  lemma UnfilteredStep(u: World, e: Event, g: string)
    requires ProperWorld(u) && g in u.gateways
    requires !ExposedByLB(Happen(u, e).gateways[g].spec)
    ensures var now, after := Happen(u, e), Unfiltered(u, e);
      && ProperWorld(after) && g in after.gateways && Settled(after, g)
      && after.gateways[g].spec == now.gateways[g].spec
      && after.gateways[g].status.active ==
           Elect(now.gateways[g].spec.endpoints, ReadyOf(now.nodes, g), u.gateways[g].status.active)
  {
    HappenKeepsProper(u, e);
    ReconciledKeepsProper(Happen(u, e), u.gateways.Keys);
    ReconciledSettles(Happen(u, e), u.gateways.Keys, g);
  }

  lemma HappenKeepsCluster(f: World, u: World, e: Event)
    requires SameCluster(f, u)
    ensures SameCluster(Happen(f, e), Happen(u, e)) && Happen(u, e).gateways.Keys == u.gateways.Keys
  {
    HappenKeepsProper(f, e);
    HappenKeepsProper(u, e);
  }

  lemma ReconciledKeepsCluster(f: World, u: World, fs: set<string>, us: set<string>)
    requires SameCluster(f, u)
    ensures SameCluster(Reconciled(f, fs), Reconciled(u, us))
  {
    ReconciledKeepsProper(f, fs);
    ReconciledKeepsProper(u, us);
  }

  lemma HappenKeepsGateway(f: World, u: World, e: Event, g: string)
    requires SameCluster(f, u) && g in f.gateways && SameGateway(f, u, g)
    ensures Happen(f, e).nodes == Happen(u, e).nodes && g in Happen(f, e).gateways && g in Happen(u, e).gateways
    ensures SameGateway(Happen(f, e), Happen(u, e), g)
  {
  }

  lemma HappenKeepsPlain(w: World, e: Event, g: string)
    requires g in w.gateways && !ExposedByLB(w.gateways[g].spec)
    requires e.SpecChanged? && e.gw == g ==> !ExposedByLB(e.spec)
    ensures g in Happen(w, e).gateways && !ExposedByLB(Happen(w, e).gateways[g].spec)
  {
  }

  lemma StepKeepsSame(f: World, u: World, e: Event, g: string)
    requires Same(f, u, g)
    requires e.SpecChanged? && e.gw == g ==> !ExposedByLB(e.spec)
    ensures Same(Filtered(f, e), Unfiltered(u, e), g)
  {
    HappenKeepsCluster(f, u, e);
    ReconciledKeepsCluster(Happen(f, e), Happen(u, e), Requests(f, e), u.gateways.Keys);
    HappenKeepsGateway(f, u, e, g);
    HappenKeepsPlain(f, e, g);
    HappenKeepsPlain(u, e, g);
    FilteredStep(f, e, g);
    UnfilteredStep(u, e, g);
  }

  /**
   Refinement. From a settled status, for a gateway that is never exposed by a load balancer, both controllers show
   the same active endpoint after every sequence of events, and the filtered one has nothing left to do: what it shows
   is what an election from it, over the nodes that say they are ready, gives.
   */
  lemma {:induction false} FilterLosesNothing(f: World, u: World, events: seq<Event>, g: string)
    requires Same(f, u, g)
    requires forall i :: 0 <= i < |events| && events[i].SpecChanged? && events[i].gw == g ==>
               !ExposedByLB(events[i].spec)
    ensures Same(RunFiltered(f, events), RunUnfiltered(u, events), g)
    ensures var now := RunFiltered(f, events);
      IsElected(now.gateways[g].spec.endpoints, ReadyOf(now.nodes, g), now.gateways[g].status.active,
                now.gateways[g].status.active)
    decreases |events|
  {
    if events == [] {
      ElectMeans(f.gateways[g].spec.endpoints, ReadyOf(f.nodes, g), f.gateways[g].status.active);
    } else {
      StepKeepsSame(f, u, events[0], g);
      assert forall i :: 0 <= i < |events[1..]| ==> events[1..][i] == events[i + 1];
      FilterLosesNothing(Filtered(f, events[0]), Unfiltered(u, events[0]), events[1..], g);
    }
  }

  /** The active node before and after one event, as far as the filtered controller shows it. */
  function ActiveNode(w: World, g: string): Option<string>
    requires g in w.gateways
  {
    match w.gateways[g].status.active
    case None => None
    case Some(ep) => Some(ep.nodeName)
  }

  /**
   Stickiness over whole runs: at every point of a run, the next event takes the active node away from the gateway
   only if, after the event, that node is no longer ready and managed, or the endpoint has left the spec.
   */
  lemma RunIsSticky(w: World, events: seq<Event>, e: Event, g: string)
    requires ProperWorld(w) && g in w.gateways && Settled(w, g)
    requires forall i :: 0 <= i < |events| && events[i].SpecChanged? && events[i].gw == g ==>
               !ExposedByLB(events[i].spec)
    requires e.SpecChanged? && e.gw == g ==> !ExposedByLB(e.spec)
    ensures var before := RunFiltered(w, events);
      var after := Filtered(before, e);
      && g in before.gateways && g in after.gateways
      && (ActiveNode(before, g).Some? && ActiveNode(after, g) != ActiveNode(before, g) ==>
            ActiveNode(before, g).value !in ReadyOf(after.nodes, g)
            || before.gateways[g].status.active.value !in after.gateways[g].spec.endpoints)
  {
    FilterLosesNothing(w, w, events, g);
    var before := RunFiltered(w, events);
    var now := Happen(before, e);
    HappenKeepsProper(before, e);
    FilteredStep(before, e, g);
    if before.gateways[g].status.active.Some? {
      ElectIsSticky(now.gateways[g].spec.endpoints, ReadyOf(now.nodes, g), before.gateways[g].status.active);
    }
  }
}

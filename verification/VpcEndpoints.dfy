/**
 The VPC endpoint half of the SSM automation: one pass that creates or repairs an
 interface endpoint per listed service, and one that checks they are available.
 */
module VpcEndpoints {
  import opened Common

  datatype Endpoint = Endpoint(id: nat, vpc: string, service: string, isInterface: bool,
                               privateDns: bool, groups: set<string>, state: string)

  /** The endpoints in the order `describe_vpc_endpoints` lists them. */
  datatype Network = Network(endpoints: seq<Endpoint>, next: nat)

  datatype Change = Create(service: string) | Modify(id: nat)

  predicate Matches(e: Endpoint, vpc: string, service: string) {
    e.vpc == vpc && e.service == service && e.isInterface
  }

  predicate Good(e: Endpoint, group: string) {
    e.privateDns && group in e.groups
  }

  /** Position of the first match, the `results[0]` of the filtered listing. */
  function First(es: seq<Endpoint>, vpc: string, service: string): (found: Option<nat>)
    ensures found.Some? ==> found.value < |es| && Matches(es[found.value], vpc, service)
                            && forall i :: 0 <= i < found.value ==> !Matches(es[i], vpc, service)
    ensures found.None? ==> forall i :: 0 <= i < |es| ==> !Matches(es[i], vpc, service)
  {
    if es == [] then None
    else if Matches(es[0], vpc, service) then Some(0)
    else
      match First(es[1..], vpc, service)
      case None => None
      case Some(i) => Some(i + 1)
  }

  function CountMatches(es: seq<Endpoint>, vpc: string, service: string): nat {
    if es == [] then 0
    else CountMatches(es[..|es| - 1], vpc, service) + (if Matches(es[|es| - 1], vpc, service) then 1 else 0)
  }

  predicate Served(es: seq<Endpoint>, vpc: string, service: string, group: string) {
    First(es, vpc, service).Some? && Good(es[First(es, vpc, service).value], group)
  }

  function Repaired(e: Endpoint, group: string): Endpoint {
    e.(privateDns := true, groups := e.groups + {group})
  }

  function Fresh(n: Network, vpc: string, service: string, group: string): Endpoint {
    Endpoint(n.next, vpc, service, true, true, {group}, "pending")
  }

  // ----- the first loop as a function

  function Serve(n: Network, vpc: string, service: string, group: string): Network {
    match First(n.endpoints, vpc, service)
    case None => Network(n.endpoints + [Fresh(n, vpc, service, group)], n.next + 1)
    case Some(i) =>
      if Good(n.endpoints[i], group) then n
      else n.(endpoints := n.endpoints[i := Repaired(n.endpoints[i], group)])
  }

  function ServeAll(n: Network, vpc: string, services: seq<string>, group: string): Network {
    if services == [] then n
    else Serve(ServeAll(n, vpc, services[..|services| - 1], group), vpc, services[|services| - 1], group)
  }

  lemma {:induction false} CountUpdate(es: seq<Endpoint>, i: nat, e: Endpoint, vpc: string, service: string)
    requires i < |es| && (Matches(e, vpc, service) <==> Matches(es[i], vpc, service))
    ensures CountMatches(es[i := e], vpc, service) == CountMatches(es, vpc, service)
  {
    var n := |es| - 1;
    if i < n {
      assert es[i := e][..n] == es[..n][i := e];
      CountUpdate(es[..n], i, e, vpc, service);
    } else {
      assert es[i := e][..n] == es[..n];
    }
  }

  lemma {:induction false} CountZero(es: seq<Endpoint>, vpc: string, service: string)
    ensures CountMatches(es, vpc, service) == 0 <==> forall i :: 0 <= i < |es| ==> !Matches(es[i], vpc, service)
  {
    if es != [] {
      CountZero(es[..|es| - 1], vpc, service);
    }
  }

  lemma FirstOfUpdate(es: seq<Endpoint>, i: nat, e: Endpoint, vpc: string, service: string)
    requires i < |es| && (Matches(e, vpc, service) <==> Matches(es[i], vpc, service))
    ensures First(es[i := e], vpc, service) == First(es, vpc, service)
  {
    var a, b := First(es, vpc, service), First(es[i := e], vpc, service);
    assert forall j :: 0 <= j < |es| ==> (Matches(es[i := e][j], vpc, service) <==> Matches(es[j], vpc, service));
    if a.Some? && b.Some? {
      assert a.value == b.value;
    }
  }

  lemma FirstOfAppend(es: seq<Endpoint>, e: Endpoint, vpc: string, service: string)
    ensures First(es + [e], vpc, service) ==
            if First(es, vpc, service).Some? then First(es, vpc, service)
            else if Matches(e, vpc, service) then Some(|es|) else None
  {
    var t := es + [e];
    assert forall j :: 0 <= j < |es| ==> t[j] == es[j];
    var a, b := First(es, vpc, service), First(t, vpc, service);
    if a.Some? {
      assert Matches(t[a.value], vpc, service);
    } else if Matches(e, vpc, service) {
      assert Matches(t[|es|], vpc, service);
    }
  }

  /** Serving one service settles it and disturbs no other service. */
  lemma ServeOne(n: Network, vpc: string, service: string, group: string, other: string)
    ensures var m := Serve(n, vpc, service, group);
            && Served(m.endpoints, vpc, service, group)
            && (Served(n.endpoints, vpc, other, group) ==> Served(m.endpoints, vpc, other, group))
            && CountMatches(m.endpoints, vpc, other) == CountMatches(n.endpoints, vpc, other) +
                 if other == service && First(n.endpoints, vpc, service).None? then 1 else 0
  {
    hide First;
    var m := Serve(n, vpc, service, group);
    match First(n.endpoints, vpc, service)
    case None =>
      var e := Fresh(n, vpc, service, group);
      assert m.endpoints[..|m.endpoints| - 1] == n.endpoints;
      FirstOfAppend(n.endpoints, e, vpc, service);
      FirstOfAppend(n.endpoints, e, vpc, other);
    case Some(i) =>
      var e := Repaired(n.endpoints[i], group);
      CountUpdate(n.endpoints, i, e, vpc, other);
      FirstOfUpdate(n.endpoints, i, e, vpc, service);
      FirstOfUpdate(n.endpoints, i, e, vpc, other);
  }

  /** Every endpoint that was there is still there; one can only have been repaired,
      and only if it is the first of a listed service and was not good. What is new
      was created for a listed service that had none. */
  ghost predicate Extends(n: Network, m: Network, vpc: string, services: seq<string>, group: string) {
    && |n.endpoints| <= |m.endpoints|
    && (forall i :: 0 <= i < |n.endpoints| ==>
         || m.endpoints[i] == n.endpoints[i]
         || (m.endpoints[i] == Repaired(n.endpoints[i], group) && n.endpoints[i].service in services
             && First(n.endpoints, vpc, n.endpoints[i].service) == Some(i)))
    && (forall i :: |n.endpoints| <= i < |m.endpoints| ==>
         && m.endpoints[i].vpc == vpc && m.endpoints[i].service in services && m.endpoints[i].isInterface
         && m.endpoints[i].privateDns && m.endpoints[i].groups == {group} && m.endpoints[i].state == "pending"
         && m.endpoints[i].id == n.next + (i - |n.endpoints|)
         && First(n.endpoints, vpc, m.endpoints[i].service).None?)
    && (forall i, j :: |n.endpoints| <= i < j < |m.endpoints| ==> m.endpoints[i].service != m.endpoints[j].service)
    && m.next == n.next + (|m.endpoints| - |n.endpoints|)
  }

  lemma FirstKept(n: Network, m: Network, vpc: string, services: seq<string>, group: string, service: string)
    requires Extends(n, m, vpc, services, group) && First(m.endpoints, vpc, service).Some?
    requires First(m.endpoints, vpc, service).value < |n.endpoints|
    ensures First(n.endpoints, vpc, service) == First(m.endpoints, vpc, service)
  {
    var i := First(m.endpoints, vpc, service).value;
    assert Matches(n.endpoints[i], vpc, service);
    assert forall j :: 0 <= j < i ==> !Matches(m.endpoints[j], vpc, service);
    forall j | 0 <= j < i ensures !Matches(n.endpoints[j], vpc, service) {
      assert m.endpoints[j] == n.endpoints[j] || m.endpoints[j] == Repaired(n.endpoints[j], group);
    }
  }

  lemma FirstGone(n: Network, m: Network, vpc: string, services: seq<string>, group: string, service: string)
    requires Extends(n, m, vpc, services, group) && First(m.endpoints, vpc, service).None?
    ensures First(n.endpoints, vpc, service).None?
  {
    hide First;
  }

  lemma NobodyMatches(es: seq<Endpoint>, vpc: string, service: string)
    requires First(es, vpc, service).None?
    ensures forall i :: 0 <= i < |es| ==> !(es[i].vpc == vpc && es[i].service == service && es[i].isInterface)
  {
    assert forall i :: 0 <= i < |es| ==> !Matches(es[i], vpc, service);
  }

  lemma ServeExtends(n: Network, m: Network, vpc: string, services: seq<string>, group: string, service: string)
    requires Extends(n, m, vpc, services, group)
    ensures Extends(n, Serve(m, vpc, service, group), vpc, services + [service], group)
  {
    hide First;
    var s := Serve(m, vpc, service, group);
    match First(m.endpoints, vpc, service) {
      case None =>
        FirstGone(n, m, vpc, services, group, service);
        assert forall i :: |n.endpoints| <= i < |m.endpoints| ==> m.endpoints[i].service != service by {
          NobodyMatches(m.endpoints, vpc, service);
        }
      case Some(i) =>
        if i < |n.endpoints| {
          FirstKept(n, m, vpc, services, group, service);
        }
    }
    assert forall x :: x in services ==> x in services + [service];
  }

  /** The fixed point: after the pass every listed service, repeated or not, has one
      endpoint if it had none, as many as before otherwise, and its first one is good;
      everything else is untouched; and a second pass would change nothing. */
  lemma {:induction false} ServeAllSettles(n: Network, vpc: string, services: seq<string>, group: string)
    ensures var m := ServeAll(n, vpc, services, group);
            && Extends(n, m, vpc, services, group)
            && (forall s :: s in services ==> Served(m.endpoints, vpc, s, group))
            && forall s ::
                 var had := CountMatches(n.endpoints, vpc, s);
                 CountMatches(m.endpoints, vpc, s) == if s in services && had == 0 then 1 else had
  {
    hide First, Serve, Served, CountMatches;
    if services != [] {
      var before, last := services[..|services| - 1], services[|services| - 1];
      ServeAllSettles(n, vpc, before, group);
      var m := ServeAll(n, vpc, before, group);
      assert services == before + [last];
      ServeExtends(n, m, vpc, before, group, last);
      CountZero(m.endpoints, vpc, last);
      forall s
        ensures s in services ==> Served(Serve(m, vpc, last, group).endpoints, vpc, s, group)
        ensures CountMatches(Serve(m, vpc, last, group).endpoints, vpc, s) ==
                if s in services && CountMatches(n.endpoints, vpc, s) == 0 then 1 else CountMatches(n.endpoints, vpc, s)
      {
        ServeOne(m, vpc, last, group, s);
      }
    }
  }

  /** An interface endpoint of this network for the service, with private DNS on and the group
      among its groups. */
  predicate Serves(e: Endpoint, vpc: string, service: string, group: string) {
    e.vpc == vpc && e.service == service && e.isInterface && e.privateDns && group in e.groups
  }

  /** The pass, endpoint by endpoint and field by field. An endpoint that was there keeps its
      identity, its other groups and its private DNS; it is changed only if it is an interface
      endpoint of the VPC for a listed service that lacked something, and then it gains just
      that. A new endpoint is created for a listed service without one, once. Afterwards
      every listed service is served. */
  lemma PassByFields(n: Network, vpc: string, services: seq<string>, group: string)
    ensures var m := ServeAll(n, vpc, services, group);
            && |n.endpoints| <= |m.endpoints|
            && (forall i :: 0 <= i < |n.endpoints| ==>
                 RepairedAtMost(n.endpoints[i], m.endpoints[i], vpc, services, group))
            && (forall i :: |n.endpoints| <= i < |m.endpoints| ==>
                 && m.endpoints[i] == Endpoint(n.next + (i - |n.endpoints|), vpc, m.endpoints[i].service, true, true,
                                               {group}, "pending")
                 && m.endpoints[i].service in services
                 && forall j :: 0 <= j < |m.endpoints| && j != i ==>
                      !(m.endpoints[j].vpc == vpc && m.endpoints[j].service == m.endpoints[i].service
                        && m.endpoints[j].isInterface))
            && forall s :: s in services ==> exists i :: 0 <= i < |m.endpoints| && Serves(m.endpoints[i], vpc, s, group)
  {
    hide First, ServeAll;
    var m := ServeAll(n, vpc, services, group);
    ServeAllSettles(n, vpc, services, group);
    forall i, j | |n.endpoints| <= i < |m.endpoints| && 0 <= j < |m.endpoints| && j != i
      ensures !(m.endpoints[j].vpc == vpc && m.endpoints[j].service == m.endpoints[i].service
                && m.endpoints[j].isInterface)
    {
      NobodyMatches(n.endpoints, vpc, m.endpoints[i].service);
    }
    forall s | s in services ensures exists i :: 0 <= i < |m.endpoints| && Serves(m.endpoints[i], vpc, s, group) {
      ServedByFirst(m.endpoints, vpc, s, group);
    }
  }

  predicate RepairedAtMost(was: Endpoint, now: Endpoint, vpc: string, services: seq<string>, group: string) {
    && now.id == was.id && now.vpc == was.vpc && now.service == was.service
    && now.isInterface == was.isInterface && now.state == was.state
    && was.groups <= now.groups <= was.groups + {group}
    && (was.privateDns ==> now.privateDns)
    && (now != was ==>
         && was.vpc == vpc && was.service in services && was.isInterface
         && !(was.privateDns && group in was.groups)
         && now.privateDns && group in now.groups)
  }

  lemma ServedByFirst(es: seq<Endpoint>, vpc: string, service: string, group: string)
    requires Served(es, vpc, service, group)
    ensures exists i :: 0 <= i < |es| && Serves(es[i], vpc, service, group)
  {
    var i := First(es, vpc, service).value;
    assert Serves(es[i], vpc, service, group);
  }

  lemma {:induction false} ServedNeedsNothing(n: Network, vpc: string, services: seq<string>, group: string)
    requires forall s :: s in services ==> Served(n.endpoints, vpc, s, group)
    ensures ServeAll(n, vpc, services, group) == n
  {
    if services != [] {
      var before, last := services[..|services| - 1], services[|services| - 1];
      ServedNeedsNothing(n, vpc, before, group);
      assert last in services && Serve(n, vpc, last, group) == n;
    }
  }

  lemma SecondPassChangesNothing(n: Network, vpc: string, services: seq<string>, group: string)
    ensures var m := ServeAll(n, vpc, services, group);
            ServeAll(m, vpc, services, group) == m
  {
    ServeAllSettles(n, vpc, services, group);
    ServedNeedsNothing(ServeAll(n, vpc, services, group), vpc, services, group);
  }

  // ----- the second loop

  const WAIT_PERIOD := 60
  const INITIALIZE := "Initialize"
  const WAIT_FOR_ENDPOINTS := "WaitForEndpointAvailableState"
  const WAIT_FOR_INSTANCE := "WaitForProperInstanceState"

  /** The two payload entries the automation keeps. */
  datatype Progress = Progress(waitTime: int, marker: string)

  predicate Available(state: Option<string>) {
    state == Some("available") || state == Some("Available")
  }

  /** The check of services `k..n`; nothing when an endpoint has no state to read. */
  function Await(p: Progress, observed: nat -> Option<string>, k: nat, n: nat): Option<Progress>
    requires k <= n
    decreases n - k
  {
    if k == n then Some(p)
    else if observed(k).None? then None
    else if !Available(observed(k)) then Some(Progress(WAIT_PERIOD, WAIT_FOR_ENDPOINTS))
    else Await(Progress(0, INITIALIZE), observed, k + 1, n)
  }

  predicate AllAvailable(observed: nat -> Option<string>, n: nat) {
    forall k :: 0 <= k < n ==> Available(observed(k))
  }

  lemma {:induction false} AwaitMeaning(p: Progress, observed: nat -> Option<string>, k: nat, n: nat)
    requires k < n && forall j :: 0 <= j < k ==> Available(observed(j))
    ensures AllAvailable(observed, n) <==>
            forall i :: 0 <= i < n ==> observed(i) == Some("available") || observed(i) == Some("Available")
    ensures var r := Await(p, observed, k, n);
            && (r == Some(Progress(0, "Initialize")) <==> AllAvailable(observed, n))
            && (r.Some? && !AllAvailable(observed, n) ==> r.value == Progress(60, "WaitForEndpointAvailableState"))
    decreases n - k
  {
    if Available(observed(k)) && k + 1 < n {
      AwaitMeaning(Progress(0, INITIALIZE), observed, k + 1, n);
    } else if Available(observed(k)) {
      assert Await(Progress(0, INITIALIZE), observed, n, n) == Some(Progress(0, INITIALIZE));
    } else {
      assert !AllAvailable(observed, n);
    }
  }

  /** What AWS does in one call of the manager: assuming the role or looking up the
      instance raises; getting the security group raises; for the k-th service, describing
      its endpoint raises, the change raises, and the state read in the second loop. */
  datatype Env = Env(sessionRaises: bool, groupRaises: bool, describeRaises: nat -> bool,
                     refuses: nat -> bool, observed: nat -> Option<string>)

  class Automation {
    var network: Network
    var changes: seq<Change>
    var progress: Progress

    constructor (network: Network, progress: Progress)
      ensures this.network == network && changes == [] && this.progress == progress
    {
      this.network, changes, this.progress := network, [], progress;
    }

    /** First loop; false when a call raised, with the earlier changes kept. */
    method ServeServices(vpc: string, services: seq<string>, group: string, env: Env) returns (ok: bool)
      modifies this
      ensures progress == old(progress)
      ensures var done := services[..Handled(old(network), vpc, services, group, env, 0)];
              && network == ServeAll(old(network), vpc, done, group)
              && changes == old(changes) + Changes(old(network), vpc, done, group)
              && (ok <==> done == services)
    {
      hide First, ServeAll, Handled, Changes;
      ghost var n := network;
      NothingServed(n, vpc, group);
      assert services[..0] == [];
      for i := 0 to |services|
        invariant progress == old(progress)
        invariant network == ServeAll(n, vpc, services[..i], group)
        invariant changes == old(changes) + Changes(n, vpc, services[..i], group)
        invariant Handled(n, vpc, services, group, env, i) == Handled(n, vpc, services, group, env, 0)
      {
        HandledStep(n, vpc, services, group, env, i);
        ServeStep(n, vpc, services, group, i);
        if env.describeRaises(i) {
          return false;
        }
        var found := First(network.endpoints, vpc, services[i]);
        if found.Some? {
          var e := network.endpoints[found.value];
          if !e.privateDns || group !in e.groups {
            if env.refuses(i) {
              return false;
            }
            network := network.(endpoints := network.endpoints[found.value := Repaired(e, group)]);
            changes := changes + [Modify(e.id)];
          }
        } else {
          if env.refuses(i) {
            return false;
          }
          network := Network(network.endpoints + [Fresh(network, vpc, services[i], group)], network.next + 1);
          changes := changes + [Create(services[i])];
        }
      }
      HandledAll(n, vpc, services, group, env);
      assert services[..|services|] == services;
      ok := true;
    }

    /** `vpc_endpoint_manager`; false when it raised. Without a VPC nothing happens. */
    method VpcEndpointManager(vpc: Option<string>, services: seq<string>, group: string, env: Env) returns (ok: bool)
      modifies this
      ensures !Enters(vpc, env) ==>
                && network == old(network) && progress == old(progress) && changes == old(changes)
                && (ok <==> vpc.None? && !env.sessionRaises)
      ensures Enters(vpc, env) ==>
                var done := services[..Handled(old(network), vpc.value, services, group, env, 0)];
                var awaited := Await(old(progress), env.observed, 0, |services|);
                && network == ServeAll(old(network), vpc.value, done, group)
                && changes == old(changes) + Changes(old(network), vpc.value, done, group)
                && (ok <==> done == services && awaited.Some?)
                && (ok ==> awaited == Some(progress))
    {
      if env.sessionRaises {
        return false;
      }
      hide ServeAll, Handled, Changes;
      if vpc.None? {
        return true;
      }
      if env.groupRaises {
        return false;
      }
      ok := ServeServices(vpc.value, services, group, env);
      if !ok {
        return;
      }
      label Served:
      for k := 0 to |services|
        invariant network == old@Served(network) && changes == old@Served(changes)
        invariant Await(progress, env.observed, k, |services|) == Await(old(progress), env.observed, 0, |services|)
      {
        if env.observed(k).None? {
          return false;
        }
        if !Available(env.observed(k)) {
          progress := Progress(WAIT_PERIOD, WAIT_FOR_ENDPOINTS);
          return true;
        }
        progress := Progress(0, INITIALIZE);
      }
    }
  }

  /** What serving one service asks for. */
  function ChangeFor(n: Network, vpc: string, service: string, group: string): seq<Change> {
    match First(n.endpoints, vpc, service)
    case None => [Create(service)]
    case Some(i) => if Good(n.endpoints[i], group) then [] else [Modify(n.endpoints[i].id)]
  }

  function Changes(n: Network, vpc: string, services: seq<string>, group: string): seq<Change> {
    if services == [] then []
    else
      var before := services[..|services| - 1];
      Changes(n, vpc, before, group) + ChangeFor(ServeAll(n, vpc, before, group), vpc, services[|services| - 1], group)
  }

  /** What is asked for and what happens: a create exactly when the network gains its one new
      endpoint, a modify exactly when the endpoint of that id is the one that changes, and
      nothing exactly when nothing changes. */
  lemma ChangeForMeans(n: Network, vpc: string, service: string, group: string)
    ensures var m, c := Serve(n, vpc, service, group), ChangeFor(n, vpc, service, group);
            && (c == [] <==> m == n)
            && (c == [Create(service)] <==> |m.endpoints| == |n.endpoints| + 1)
            && (c == [] || c == [Create(service)] || exists i ::
                 && 0 <= i < |n.endpoints| && c == [Modify(n.endpoints[i].id)] && m.endpoints[i] != n.endpoints[i]
                 && forall j :: 0 <= j < |n.endpoints| && j != i ==> m.endpoints[j] == n.endpoints[j])
  {
    hide First;
    match First(n.endpoints, vpc, service)
    case None =>
    case Some(i) => assert n.endpoints[i] == n.endpoints[i];
  }

  /** The manager gets to the first loop. */
  predicate Enters(vpc: Option<string>, env: Env) {
    vpc.Some? && !env.sessionRaises && !env.groupRaises
  }

  /** The k-th service cannot be handled: its endpoint cannot be described, or needs a change
      that is refused. */
  predicate Fails(n: Network, vpc: string, services: seq<string>, group: string, env: Env, k: nat)
    requires k < |services|
  {
    || env.describeRaises(k)
    || (ChangeFor(ServeAll(n, vpc, services[..k], group), vpc, services[k], group) != [] && env.refuses(k))
  }

  /** How many services are handled, from the k-th on, before one fails. */
  function Handled(n: Network, vpc: string, services: seq<string>, group: string, env: Env, k: nat): (h: nat)
    requires k <= |services|
    ensures k <= h <= |services|
    ensures forall j :: k <= j < h ==> !Fails(n, vpc, services, group, env, j)
    ensures h < |services| ==> Fails(n, vpc, services, group, env, h)
    decreases |services| - k
  {
    if k == |services| || Fails(n, vpc, services, group, env, k) then k
    else Handled(n, vpc, services, group, env, k + 1)
  }

  /** The endpoint of the k-th service can be described, and a change for it, if refused, would
      have made no difference. */
  predicate Untroubled(n: Network, vpc: string, services: seq<string>, group: string, env: Env, k: nat)
    requires k < |services|
  {
    && !env.describeRaises(k)
    && (env.refuses(k) ==> ServeAll(n, vpc, services[..k + 1], group) == ServeAll(n, vpc, services[..k], group))
  }

  /** The pass goes as far as the first service that is in trouble. */
  lemma HandledIs(n: Network, vpc: string, services: seq<string>, group: string, env: Env)
    ensures var h := Handled(n, vpc, services, group, env, 0);
            && (forall k :: 0 <= k < h ==> Untroubled(n, vpc, services, group, env, k))
            && (h < |services| ==> !Untroubled(n, vpc, services, group, env, h))
  {
    hide First, ServeAll, Fails;
    forall k | 0 <= k < |services|
      ensures Fails(n, vpc, services, group, env, k) <==> !Untroubled(n, vpc, services, group, env, k)
    {
      TroubleFails(n, vpc, services, group, env, k);
    }
  }

  lemma TroubleFails(n: Network, vpc: string, services: seq<string>, group: string, env: Env, k: nat)
    requires k < |services|
    ensures Fails(n, vpc, services, group, env, k) <==> !Untroubled(n, vpc, services, group, env, k)
  {
    hide First, ServeAll;
    ServeStep(n, vpc, services, group, k);
    ChangeForMeans(ServeAll(n, vpc, services[..k], group), vpc, services[k], group);
  }

  lemma NothingServed(n: Network, vpc: string, group: string)
    ensures ServeAll(n, vpc, [], group) == n && Changes(n, vpc, [], group) == []
  {
  }

  lemma HandledStep(n: Network, vpc: string, services: seq<string>, group: string, env: Env, k: nat)
    requires k < |services|
    ensures Handled(n, vpc, services, group, env, k) ==
            if Fails(n, vpc, services, group, env, k) then k else Handled(n, vpc, services, group, env, k + 1)
  {
  }

  lemma HandledAll(n: Network, vpc: string, services: seq<string>, group: string, env: Env)
    ensures Handled(n, vpc, services, group, env, |services|) == |services|
  {
  }

  lemma ServeStep(n: Network, vpc: string, services: seq<string>, group: string, k: nat)
    requires k < |services|
    ensures var m := ServeAll(n, vpc, services[..k], group);
            && ServeAll(n, vpc, services[..k + 1], group) == Serve(m, vpc, services[k], group)
            && Changes(n, vpc, services[..k + 1], group) ==
                 Changes(n, vpc, services[..k], group) + ChangeFor(m, vpc, services[k], group)
  {
    assert services[..k + 1][..k] == services[..k];
  }

  /** On a network that serves every listed service nothing is asked for, so nothing can be
      refused: a second pass issues no create and no modify. */
  lemma {:induction false} ServedAsksNothing(n: Network, vpc: string, services: seq<string>, group: string)
    requires forall s :: s in services ==> Served(n.endpoints, vpc, s, group)
    ensures Changes(n, vpc, services, group) == []
  {
    if services != [] {
      var before := services[..|services| - 1];
      ServedAsksNothing(n, vpc, before, group);
      ServedNeedsNothing(n, vpc, before, group);
      assert services[|services| - 1] in services;
    }
  }

  /** The pass a refusal cut short: every service up to there is served. Otherwise all are. */
  lemma HandledAreServed(n: Network, vpc: string, services: seq<string>, group: string, env: Env)
    ensures var done := services[..Handled(n, vpc, services, group, env, 0)];
            && (forall s :: s in done ==> Served(ServeAll(n, vpc, done, group).endpoints, vpc, s, group))
            && Changes(ServeAll(n, vpc, done, group), vpc, done, group) == []
  {
    var done := services[..Handled(n, vpc, services, group, env, 0)];
    ServeAllSettles(n, vpc, done, group);
    ServedAsksNothing(ServeAll(n, vpc, done, group), vpc, done, group);
  }
}

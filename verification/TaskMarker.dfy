/**
 The SSM automation's `lambda_handler`: a state machine re-entered with its own
 payload, whose TaskMarker decides which stages run.
 */
module TaskMarker {
  import opened Common
  import opened VpcEndpoints

  datatype Config = Config(createEndpoints: bool, attachRole: bool)

  /** What `instance_role_manager` meets: an exception, no instance, or a status (and
      possibly an exception while it then attaches roles and policies). */
  datatype RoleLook = RoleRaises | NoInstance | Status(name: string, raisesLater: bool)

  /** What the endpoint stage meets. */
  datatype EndpointLook = EndpointsRaise | NoVpc | Observed(states: nat -> Option<string>, services: nat)

  datatype Answers = Answers(isStateChange: bool, isCloud9: Option<bool>, endpoints: EndpointLook, role: RoleLook)

  /** The payload returned, nothing when the handler raised; whether in this invocation
      the instance had no VPC or all endpoints were seen available; whether the role
      stage ran. */
  datatype Outcome = Outcome(payload: Option<Progress>, settled: bool, roleRan: bool)

  function EndpointStage(p: Progress, look: EndpointLook): Option<Progress> {
    match look
    case EndpointsRaise => None
    case NoVpc => Some(p)
    case Observed(states, services) => Await(p, states, 0, services)
  }

  predicate Settles(look: EndpointLook) {
    look.NoVpc? || (look.Observed? && AllAvailable(look.states, look.services))
  }

  function RoleStage(p: Progress, look: RoleLook): Option<Progress> {
    match look
    case RoleRaises => None
    case NoInstance => Some(p)
    case Status(name, raisesLater) =>
      if name == "terminated" then Some(p)
      else if name != "running" && name != "stopped" then Some(Progress(WAIT_PERIOD, WAIT_FOR_INSTANCE))
      else if raisesLater then None
      else Some(p)
  }

  function RoleTail(p: Progress, settled: bool, a: Answers, cfg: Config): Outcome {
    if cfg.attachRole && p.marker in [INITIALIZE, WAIT_FOR_INSTANCE]
    then Outcome(RoleStage(p, a.role), settled, true)
    else Outcome(Some(p), settled, false)
  }

  predicate ChecksEndpoints(p: Progress, cfg: Config) {
    cfg.createEndpoints && p.marker in [INITIALIZE, WAIT_FOR_ENDPOINTS]
  }

  /** What the endpoint stage meets on this network: it raises exactly if it cannot get to
      its first loop, if a service fails there, or if an endpoint's state cannot be read
      before one is found unavailable. */
  function LookAt(n: Network, p: Progress, vpc: Option<string>, services: seq<string>, group: string, env: Env)
    : EndpointLook
  {
    if env.sessionRaises then EndpointsRaise
    else
      match vpc
      case None => NoVpc
      case Some(v) =>
        if env.groupRaises || Handled(n, v, services, group, env, 0) < |services| then EndpointsRaise
        else if Await(p, env.observed, 0, |services|).None? then EndpointsRaise
        else Observed(env.observed, |services|)
  }

  /** The endpoints after the stage, also when it raises. */
  function NetworkAfter(n: Network, vpc: Option<string>, services: seq<string>, group: string, env: Env): Network {
    if Enters(vpc, env) then
      ServeAll(n, vpc.value, services[..Handled(n, vpc.value, services, group, env, 0)], group)
    else n
  }

  /** One invocation with the marker found in the event, if any. */
  function Handle(marker: Option<string>, a: Answers, cfg: Config): Outcome {
    var p := Progress(0, if marker.Some? then marker.value else INITIALIZE);
    if !a.isStateChange then Outcome(Some(p), false, false)
    else
      match a.isCloud9
      case None => Outcome(None, false, false)
      case Some(true) => Outcome(Some(p), false, false)
      case Some(false) =>
        if ChecksEndpoints(p, cfg) then
          match EndpointStage(p, a.endpoints)
          case None => Outcome(None, Settles(a.endpoints), false)
          case Some(q) =>
            if q.waitTime != 0 then Outcome(Some(q), Settles(a.endpoints), false)
            else RoleTail(q, Settles(a.endpoints), a, cfg)
        else RoleTail(p, false, a, cfg)
  }

  /** The handler on the real objects: the endpoint stage works on the network. */
  class Handler {
    const cfg: Config
    const automation: Automation
    var roleRuns: nat

    constructor (cfg: Config, automation: Automation)
      ensures this.cfg == cfg && this.automation == automation && roleRuns == 0
    {
      this.cfg, this.automation, roleRuns := cfg, automation, 0;
    }

    method LambdaHandler(marker: Option<string>, isStateChange: bool, isCloud9: Option<bool>, vpc: Option<string>,
                         services: seq<string>, group: string, env: Env, role: RoleLook)
      returns (payload: Option<Progress>)
      modifies this, automation
      ensures var p := Progress(0, if marker.Some? then marker.value else INITIALIZE);
              var look := LookAt(old(automation.network), p, vpc, services, group, env);
              var o := Handle(marker, Answers(isStateChange, isCloud9, look, role), cfg);
              && payload == o.payload && roleRuns == old(roleRuns) + (if o.roleRan then 1 else 0)
              && automation.network ==
                   if isStateChange && isCloud9 == Some(false) && ChecksEndpoints(p, cfg)
                   then NetworkAfter(old(automation.network), vpc, services, group, env)
                   else old(automation.network)
    {
      hide Handled, ServeAll, Changes, Await, RoleStage;
      automation.progress := Progress(0, if marker.Some? then marker.value else INITIALIZE);
      if !isStateChange {
        return Some(automation.progress);
      }
      if isCloud9.None? {
        return None;
      }
      if isCloud9.value {
        return Some(automation.progress);
      }
      if cfg.createEndpoints && automation.progress.marker in [INITIALIZE, WAIT_FOR_ENDPOINTS] {
        var ok := automation.VpcEndpointManager(vpc, services, group, env);
        if !ok {
          return None;
        }
        if automation.progress.waitTime != 0 {
          return Some(automation.progress);
        }
      }
      if cfg.attachRole && automation.progress.marker in [INITIALIZE, WAIT_FOR_INSTANCE] {
        roleRuns := roleRuns + 1;
        return RoleStage(automation.progress, role);
      }
      payload := Some(automation.progress);
    }
  }

  // ----- sequences of invocations

  /** The marker the next invocation finds: the returned payload's, or the same event
      again when the handler raised. */
  function NextMarker(marker: Option<string>, o: Outcome): Option<string> {
    match o.payload
    case None => marker
    case Some(p) => Some(p.marker)
  }

  /** Marker before invocation `n`; the first event carries none. */
  function MarkerBefore(answers: seq<Answers>, cfg: Config, n: nat): Option<string>
    requires n <= |answers|
  {
    if n == 0 then None
    else
      var m := MarkerBefore(answers, cfg, n - 1);
      NextMarker(m, Handle(m, answers[n - 1], cfg))
  }

  function OutcomeAt(answers: seq<Answers>, cfg: Config, n: nat): Outcome
    requires n < |answers|
  {
    Handle(MarkerBefore(answers, cfg, n), answers[n], cfg)
  }

  predicate Waiting(marker: string) {
    marker == WAIT_FOR_ENDPOINTS || marker == WAIT_FOR_INSTANCE
  }

  /** The code always checks at least three services. */
  predicate ChecksServices(answers: seq<Answers>) {
    forall i :: 0 <= i < |answers| && answers[i].endpoints.Observed? ==> answers[i].endpoints.services > 0
  }

  predicate SettledBy(answers: seq<Answers>, cfg: Config, n: nat)
    requires n <= |answers|
  {
    exists j :: 0 <= j < n && OutcomeAt(answers, cfg, j).settled
  }

  lemma HandleStep(marker: Option<string>, a: Answers, cfg: Config)
    requires cfg.createEndpoints
    requires a.endpoints.Observed? ==> a.endpoints.services > 0
    requires Reachable(marker)
    ensures var o := Handle(marker, a, cfg);
            && (o.roleRan ==> o.settled || marker == Some(WAIT_FOR_INSTANCE))
            && (o.payload.Some? ==>
                 && o.payload.value.marker in [INITIALIZE, WAIT_FOR_ENDPOINTS, WAIT_FOR_INSTANCE]
                 && (o.payload.value.waitTime == 0 || o.payload.value.waitTime == WAIT_PERIOD)
                 && (o.payload.value.waitTime == WAIT_PERIOD ==> Waiting(o.payload.value.marker))
                 && (o.payload.value.marker == WAIT_FOR_INSTANCE ==> o.settled || marker == Some(WAIT_FOR_INSTANCE)))
  {
    var p := Progress(0, if marker.Some? then marker.value else INITIALIZE);
    if a.endpoints.Observed? {
      AwaitMeaning(p, a.endpoints.states, 0, a.endpoints.services);
    }
  }

  /** With endpoint creation on, over any sequence of re-invocations: the role stage runs
      only if in this or an earlier invocation all endpoints were seen available or the
      instance had no VPC; the wait is 0 or 60, and 60 comes with a waiting marker. */
  lemma {:induction false} RoleOnlyAfterEndpoints(answers: seq<Answers>, cfg: Config, n: nat)
    requires cfg.createEndpoints && ChecksServices(answers) && n <= |answers|
    ensures Reachable(MarkerBefore(answers, cfg, n))
    ensures MarkerBefore(answers, cfg, n) == Some(WAIT_FOR_INSTANCE) ==> SettledBy(answers, cfg, n)
    ensures n < |answers| && OutcomeAt(answers, cfg, n).roleRan ==> SettledBy(answers, cfg, n + 1)
    ensures n < |answers| && OutcomeAt(answers, cfg, n).payload.Some? ==>
              var p := OutcomeAt(answers, cfg, n).payload.value;
              (p.waitTime == 0 || p.waitTime == WAIT_PERIOD) && (p.waitTime == WAIT_PERIOD ==> Waiting(p.marker))
  {
    if n > 0 {
      RoleOnlyAfterEndpoints(answers, cfg, n - 1);
      HandleStep(MarkerBefore(answers, cfg, n - 1), answers[n - 1], cfg);
      SettledLater(answers, cfg, n - 1);
    }
    if n < |answers| {
      HandleStep(MarkerBefore(answers, cfg, n), answers[n], cfg);
      SettledLater(answers, cfg, n);
    }
  }

  /** A marker the machine can find. */
  predicate Reachable(marker: Option<string>) {
    marker in [None, Some(INITIALIZE), Some(WAIT_FOR_ENDPOINTS), Some(WAIT_FOR_INSTANCE)]
  }

  /** Exactly when the role stage runs: it waited for the instance, or all endpoints are seen
      available now, or there is no VPC and it was not waiting for endpoints. */
  predicate RoleCondition(marker: Option<string>, a: Answers, cfg: Config) {
    && a.isStateChange && a.isCloud9 == Some(false) && cfg.attachRole
    && (|| marker == Some(WAIT_FOR_INSTANCE)
        || (a.endpoints.NoVpc? && marker != Some(WAIT_FOR_ENDPOINTS))
        || (a.endpoints.Observed? && AllAvailable(a.endpoints.states, a.endpoints.services)))
  }

  lemma RoleRunsIff(marker: Option<string>, a: Answers, cfg: Config)
    requires cfg.createEndpoints && Reachable(marker)
    requires a.endpoints.Observed? ==> a.endpoints.services > 0
    ensures Handle(marker, a, cfg).roleRan <==> RoleCondition(marker, a, cfg)
  {
    var p := Progress(0, if marker.Some? then marker.value else INITIALIZE);
    if a.endpoints.Observed? {
      AwaitMeaning(p, a.endpoints.states, 0, a.endpoints.services);
    }
  }

  /** With any marker and configuration. */
  lemma RoleRunsAtAllIff(marker: Option<string>, a: Answers, cfg: Config)
    requires a.endpoints.Observed? ==> a.endpoints.services > 0
    ensures Handle(marker, a, cfg).roleRan <==>
            && a.isStateChange && a.isCloud9 == Some(false) && cfg.attachRole
            && if AtEndpoints(marker, a, cfg)
               then (a.endpoints.NoVpc? && marker != Some("WaitForEndpointAvailableState"))
                    || (a.endpoints.Observed? && AllAvailable(a.endpoints.states, a.endpoints.services))
               else marker in [None, Some("Initialize"), Some("WaitForProperInstanceState")]
  {
    var p := Progress(0, if marker.Some? then marker.value else INITIALIZE);
    MarkersDiffer();
    if a.endpoints.Observed? {
      AwaitMeaning(p, a.endpoints.states, 0, a.endpoints.services);
    }
  }

  /** The same in every sequence of re-invocations. */
  lemma RoleRunsExactly(answers: seq<Answers>, cfg: Config, n: nat)
    requires cfg.createEndpoints && ChecksServices(answers) && n < |answers|
    ensures OutcomeAt(answers, cfg, n).roleRan <==> RoleCondition(MarkerBefore(answers, cfg, n), answers[n], cfg)
  {
    RoleOnlyAfterEndpoints(answers, cfg, n);
    RoleRunsIff(MarkerBefore(answers, cfg, n), answers[n], cfg);
  }

  /** So the converse of `RoleOnlyAfterEndpoints` fails: an instance that was waiting for its
      endpoints and has no VPC any more is done with, without a wait and without its role. */
  lemma NoVpcWhileWaitingSkipsRole(first: Answers, second: Answers, cfg: Config)
    requires cfg.createEndpoints && first.isStateChange && first.isCloud9 == Some(false)
    requires first.endpoints.Observed? && first.endpoints.services > 0
    requires first.endpoints.states(0).Some? && !Available(first.endpoints.states(0))
    requires second.isStateChange && second.isCloud9 == Some(false) && second.endpoints.NoVpc?
    ensures var o := OutcomeAt([first, second], cfg, 1);
            o.settled && o.payload == Some(Progress(0, WAIT_FOR_ENDPOINTS)) && !o.roleRan
  {
    var answers := [first, second];
    assert MarkerBefore(answers, cfg, 0) == None;
    assert Handle(None, first, cfg).payload == Some(Progress(WAIT_PERIOD, WAIT_FOR_ENDPOINTS));
    assert MarkerBefore(answers, cfg, 1) == Some(WAIT_FOR_ENDPOINTS);
  }

  /** The instance's state is one in which the automation waits for it. */
  predicate InTransition(role: RoleLook) {
    role.Status? && role.name != "running" && role.name != "stopped" && role.name != "terminated"
  }

  /** The role stage goes wrong: it cannot look, or fails later for a usable instance. */
  predicate RoleFails(role: RoleLook) {
    role.RoleRaises? || (role.Status? && role.name in ["running", "stopped"] && role.raisesLater)
  }

  /** The endpoint stage is reached. */
  predicate AtEndpoints(marker: Option<string>, a: Answers, cfg: Config) {
    && a.isStateChange && a.isCloud9 == Some(false) && cfg.createEndpoints
    && (marker.None? || marker == Some("Initialize") || marker == Some("WaitForEndpointAvailableState"))
  }

  /** Where the endpoint stage stops: at the first service that is not available. */
  predicate EndpointsFail(look: EndpointLook) {
    look.EndpointsRaise? || (look.Observed? && exists k :: 0 <= k < look.services && StopsUnread(look.states, k))
  }

  predicate StopsUnread(states: nat -> Option<string>, k: nat) {
    states(k).None? && forall j :: 0 <= j < k ==> Available(states(j))
  }

  predicate EndpointsWait(look: EndpointLook) {
    look.Observed? && !AllAvailable(look.states, look.services) && !EndpointsFail(look)
  }

  /** What an invocation returns, entry by entry, for any marker in the event. */
  lemma PayloadMeans(marker: Option<string>, a: Answers, cfg: Config)
    requires a.endpoints.Observed? ==> a.endpoints.services > 0
    ensures var o := Handle(marker, a, cfg);
            && (o.payload.None? <==>
                 || (a.isStateChange && a.isCloud9.None?)
                 || (AtEndpoints(marker, a, cfg) && EndpointsFail(a.endpoints))
                 || (o.roleRan && RoleFails(a.role)))
            && (o.payload == Some(Progress(60, "WaitForEndpointAvailableState")) <==>
                 AtEndpoints(marker, a, cfg) && EndpointsWait(a.endpoints))
            && (o.payload == Some(Progress(60, "WaitForProperInstanceState")) <==>
                 o.roleRan && InTransition(a.role))
            && (o.payload.Some? && o.payload.value.waitTime != 60 ==>
                 && o.payload.value.waitTime == 0
                 && o.payload.value.marker ==
                      if marker.None? || (AtEndpoints(marker, a, cfg) && a.endpoints.Observed?) then "Initialize"
                      else marker.value)
  {
    var p := Progress(0, if marker.Some? then marker.value else INITIALIZE);
    MarkersDiffer();
    if a.endpoints.Observed? {
      AwaitMeaning(p, a.endpoints.states, 0, a.endpoints.services);
      AwaitUnread(p, a.endpoints.states, 0, a.endpoints.services);
    }
  }

  lemma MarkersDiffer()
    ensures WAIT_FOR_ENDPOINTS != WAIT_FOR_INSTANCE
    ensures WAIT_FOR_ENDPOINTS != INITIALIZE && WAIT_FOR_INSTANCE != INITIALIZE
  {
    assert |WAIT_FOR_ENDPOINTS| > |WAIT_FOR_INSTANCE| > |INITIALIZE|;
  }

  lemma {:induction false} AwaitUnread(p: Progress, observed: nat -> Option<string>, k: nat, n: nat)
    requires k <= n && forall j :: 0 <= j < k ==> Available(observed(j))
    ensures Await(p, observed, k, n).None? <==> exists i :: 0 <= i < n && StopsUnread(observed, i)
    decreases n - k
  {
    if k < n && Available(observed(k)) {
      AwaitUnread(Progress(0, INITIALIZE), observed, k + 1, n);
    } else if k < n && observed(k).None? {
      assert StopsUnread(observed, k);
    } else if k < n {
      assert forall i :: k < i < n ==> !StopsUnread(observed, i);
    }
  }

  /** Over every sequence of re-invocations: the wait for the instance is asked for exactly
      when the role stage ran and the instance is neither running, stopped nor terminated;
      an invocation that ran the stage otherwise raises exactly if the stage goes wrong, and
      else asks for no wait. */
  lemma RoleStageMeans(answers: seq<Answers>, cfg: Config, n: nat)
    requires cfg.createEndpoints && ChecksServices(answers) && n < |answers|
    ensures var o, a := OutcomeAt(answers, cfg, n), answers[n];
            && (o.payload == Some(Progress(60, "WaitForProperInstanceState")) <==> o.roleRan && InTransition(a.role))
            && (o.roleRan ==> (o.payload.None? <==> RoleFails(a.role)))
            && (o.roleRan && !InTransition(a.role) && !RoleFails(a.role) ==>
                 && o.payload.Some? && o.payload.value.waitTime == 0
                 && var marker := MarkerBefore(answers, cfg, n);
                 o.payload.value.marker ==
                   if marker == Some("WaitForProperInstanceState") then marker.value else "Initialize")
  {
    RoleOnlyAfterEndpoints(answers, cfg, n);
    RoleRunsExactly(answers, cfg, n);
    PayloadMeans(MarkerBefore(answers, cfg, n), answers[n], cfg);
    if OutcomeAt(answers, cfg, n).roleRan {
      StageIsReached(MarkerBefore(answers, cfg, n), answers[n], cfg);
    }
  }

  lemma StageIsReached(marker: Option<string>, a: Answers, cfg: Config)
    requires cfg.createEndpoints && Reachable(marker) && (a.endpoints.Observed? ==> a.endpoints.services > 0)
    requires Handle(marker, a, cfg).roleRan
    ensures Handle(marker, a, cfg).payload.None? <==> RoleFails(a.role)
    ensures InTransition(a.role) ==>
              Handle(marker, a, cfg).payload == Some(Progress(60, "WaitForProperInstanceState"))
    ensures !InTransition(a.role) && !RoleFails(a.role) ==>
              Handle(marker, a, cfg).payload ==
              Some(Progress(0, if marker == Some("WaitForProperInstanceState") then marker.value else "Initialize"))
  {
    var p := Progress(0, if marker.Some? then marker.value else INITIALIZE);
    MarkersDiffer();
    RoleRunsIff(marker, a, cfg);
    if a.endpoints.Observed? {
      AwaitMeaning(p, a.endpoints.states, 0, a.endpoints.services);
    }
  }

  lemma SettledLater(answers: seq<Answers>, cfg: Config, n: nat)
    requires n < |answers|
    ensures SettledBy(answers, cfg, n) || OutcomeAt(answers, cfg, n).settled ==> SettledBy(answers, cfg, n + 1)
  {
    if j :| 0 <= j < n && OutcomeAt(answers, cfg, j).settled {
      assert OutcomeAt(answers, cfg, j).settled;
    }
  }
}

/** Choice of the agent that runs a task: the first eligible manifest in registry order. */
module CapabilityRouter {
  import opened Sequences
  import opened TaskDefinitions
  import opened JsonText

  datatype AgentManifest = AgentManifest(
    agentId: string,
    capabilities: seq<string>,
    permissions: seq<string>,
    runnable: bool,
    allowedTools: seq<string>,
    resourceScopes: seq<ResourceScope>
  )

  datatype ResourceScope = ResourceScope(pattern: Text, permissions: seq<string>)

  datatype UnassignedReason = CapabilityNotRegistered | NoRunnableAgent | InsufficientPermissions

  datatype RoutingDecision = Assigned(agentId: string) | NotAssigned(reason: UnassignedReason)

  predicate Offers(agent: AgentManifest, task: TaskDefinition) {
    task.requiredCapability in agent.capabilities
  }

  predicate Permitted(agent: AgentManifest, task: TaskDefinition) {
    forall p :: p in task.requiredPermissions ==> p in agent.permissions
  }

  function OfferTest(task: TaskDefinition): AgentManifest -> bool {
    agent => Offers(agent, task)
  }

  function RunnableTest(): AgentManifest -> bool {
    (agent: AgentManifest) => agent.runnable
  }

  function PermissionTest(task: TaskDefinition): AgentManifest -> bool {
    agent => Permitted(agent, task)
  }

  function RouteTaskByCapability(task: TaskDefinition, agents: seq<AgentManifest>): RoutingDecision {
    var capabilityMatches := Filter(OfferTest(task), agents);
    if capabilityMatches == [] then NotAssigned(CapabilityNotRegistered)
    else
      var runnableMatches := Filter(RunnableTest(), capabilityMatches);
      if runnableMatches == [] then NotAssigned(NoRunnableAgent)
      else
        var permitted := Filter(PermissionTest(task), runnableMatches);
        if permitted == [] then NotAssigned(InsufficientPermissions) else Assigned(permitted[0].agentId)
  }

  /** The agent has the capability, can be run, and holds every permission the task needs. */
  ghost predicate Eligible(agent: AgentManifest, task: TaskDefinition) {
    && task.requiredCapability in agent.capabilities && agent.runnable
    && forall p :: p in task.requiredPermissions ==> p in agent.permissions
  }

  lemma {:induction false} FirstKept<T(!new)>(keep: T -> bool, s: seq<T>) returns (i: nat)
    requires Filter(keep, s) != []
    ensures i < |s| && keep(s[i]) && Filter(keep, s)[0] == s[i]
    ensures forall j :: 0 <= j < i ==> !keep(s[j])
  {
    var init := s[..|s| - 1];
    if Filter(keep, init) != [] {
      i := FirstKept(keep, init);
    } else {
      i := |s| - 1;
      assert forall j :: 0 <= j < i ==> s[j] in init;
    }
  }

  /** A task is assigned to the first eligible agent, and left unassigned exactly when there is none. */
  lemma RoutesToFirstEligible(task: TaskDefinition, agents: seq<AgentManifest>)
    ensures var decision := RouteTaskByCapability(task, agents);
      if decision.Assigned?
      then exists i :: IsFirstEligible(task, agents, i) && decision.agentId == agents[i].agentId
      else
        && (forall a :: a in agents ==> !Eligible(a, task))
        && (decision.reason == CapabilityNotRegistered <==> forall a :: a in agents ==> task.requiredCapability !in a.capabilities)
        && (decision.reason == NoRunnableAgent <==>
             && (exists a :: a in agents && task.requiredCapability in a.capabilities)
             && forall a :: a in agents && task.requiredCapability in a.capabilities ==> !a.runnable)
  {
    var offers := OfferTest(task);
    var both := Both(offers, RunnableTest());
    var all := Both(both, PermissionTest(task));
    TestsAreEligibility(task, agents);
    KeptBySome(offers, agents);
    KeptBySome(both, agents);
    KeptBySome(all, agents);
    hide Both, OfferTest, RunnableTest, PermissionTest, Eligible, Filter;
    if Filter(all, agents) != [] {
      var i := FirstKept(all, agents);
      assert IsFirstEligible(task, agents, i);
    }
  }

  lemma KeptBySome<T(!new)>(keep: T -> bool, s: seq<T>)
    ensures Filter(keep, s) != [] <==> exists x :: x in s && keep(x)
  {
    if Filter(keep, s) != [] {
      assert Filter(keep, s)[0] in Filter(keep, s);
    }
  }

  /** The three filters, one after the other, test for the parts of eligibility. */
  lemma TestsAreEligibility(task: TaskDefinition, agents: seq<AgentManifest>)
    ensures var offers := OfferTest(task);
      var both := Both(offers, RunnableTest());
      var all := Both(both, PermissionTest(task));
      && Filter(RunnableTest(), Filter(offers, agents)) == Filter(both, agents)
      && Filter(PermissionTest(task), Filter(RunnableTest(), Filter(offers, agents))) == Filter(all, agents)
      && (forall a :: offers(a) <==> task.requiredCapability in a.capabilities)
      && (forall a :: both(a) <==> task.requiredCapability in a.capabilities && a.runnable)
      && (forall a :: all(a) <==> Eligible(a, task))
  {
    FilterTwice(OfferTest(task), RunnableTest(), agents);
    FilterTwice(Both(OfferTest(task), RunnableTest()), PermissionTest(task), agents);
  }

  ghost predicate IsFirstEligible(task: TaskDefinition, agents: seq<AgentManifest>, i: int) {
    0 <= i < |agents| && Eligible(agents[i], task) && forall j :: 0 <= j < i ==> !Eligible(agents[j], task)
  }
}

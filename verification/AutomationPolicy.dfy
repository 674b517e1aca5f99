/** Which actions may run by themselves, which need approval, and which never run. */
module AutomationPolicy {
  import opened JsonText
  import E = EvidenceAcceptance
  import opened Protocol

  datatype Impact = Low | High | Critical

  datatype TargetScope = Internal | External | Protected

  datatype Risk = Risk(impact: Impact, targetScope: TargetScope, requiredPermission: string, prohibited: bool)

  datatype Classification = Registered(risk: Risk) | Unregistered

  /** What the trusted registry knows of the agent that proposed an action. */
  datatype PolicyAgent = PolicyAgent(registered: bool, permissions: seq<string>)

  /** "CREATE_INTERNAL_DRAFT" */
  const CREATE_INTERNAL_DRAFT: Text :=
    [0x43, 0x52, 0x45, 0x41, 0x54, 0x45, 0x5F, 0x49, 0x4E, 0x54, 0x45, 0x52, 0x4E, 0x41, 0x4C, 0x5F, 0x44, 0x52, 0x41, 0x46, 0x54]

  /** "UPDATE_PRICING" */
  const UPDATE_PRICING: Text := [0x55, 0x50, 0x44, 0x41, 0x54, 0x45, 0x5F, 0x50, 0x52, 0x49, 0x43, 0x49, 0x4E, 0x47]

  /** "DELETE_PROTECTED_DATA" */
  const DELETE_PROTECTED_DATA: Text :=
    [0x44, 0x45, 0x4C, 0x45, 0x54, 0x45, 0x5F, 0x50, 0x52, 0x4F, 0x54, 0x45, 0x43, 0x54, 0x45, 0x44, 0x5F, 0x44, 0x41, 0x54, 0x41]

  function ClassifyAction(kind: Text): Classification {
    if kind == CREATE_INTERNAL_DRAFT then Registered(Risk(Low, Internal, "internal_write", false))
    else if kind == SEND_EMAIL then Registered(Risk(Low, External, "external_write", false))
    else if kind == UPDATE_PRICING then Registered(Risk(High, External, "external_write", false))
    else if kind == DELETE_PROTECTED_DATA then Registered(Risk(Critical, Protected, "destructive", true))
    else Unregistered
  }

  function DecideAutomation(kind: Text, evidence: seq<E.EvidenceStatus>, agent: PolicyAgent): Decision {
    match ClassifyAction(kind)
    case Unregistered => DenyAction
    case Registered(risk) =>
      if !agent.registered then DenyAction
      else if risk.prohibited then DenyAction
      else if risk.impact == High || risk.impact == Critical then RecommendOnly
      else if risk.requiredPermission !in agent.permissions then DenyAction
      else if E.Accepted !in evidence then RecommendOnly
      else if E.Rejected in evidence then RecommendOnly
      else if risk.targetScope == External || risk.targetScope == Protected then RequireApproval
      else AutoExecute
  }

  /** The evidence of the session speaks for automation. */
  predicate Supports(evidence: seq<E.EvidenceStatus>) {
    E.Accepted in evidence && E.Rejected !in evidence
  }

  /**
    * Approval is asked for emails and nothing else, and only drafts run by themselves, both for a registered agent with the
    * permission and on accepted evidence that nothing contradicts; a price change is never more than recommended.
    */
  lemma DecidedExactly(kind: Text, evidence: seq<E.EvidenceStatus>, agent: PolicyAgent)
    ensures DecideAutomation(kind, evidence, agent) == RequireApproval <==>
              kind == Ascii("SEND_EMAIL") && agent.registered && "external_write" in agent.permissions && Supports(evidence)
    ensures DecideAutomation(kind, evidence, agent) == AutoExecute <==>
              kind == Ascii("CREATE_INTERNAL_DRAFT") && agent.registered && "internal_write" in agent.permissions && Supports(evidence)
    ensures DecideAutomation(kind, evidence, agent) == RecommendOnly <==>
              agent.registered
              && (kind == Ascii("UPDATE_PRICING")
                  || (kind == Ascii("SEND_EMAIL") && "external_write" in agent.permissions && !Supports(evidence))
                  || (kind == Ascii("CREATE_INTERNAL_DRAFT") && "internal_write" in agent.permissions && !Supports(evidence)))
  {
    KindNames();
    assert |CREATE_INTERNAL_DRAFT| == 21 && |SEND_EMAIL| == 10 && |UPDATE_PRICING| == 14 && |DELETE_PROTECTED_DATA| == 21;
    assert CREATE_INTERNAL_DRAFT[0] != DELETE_PROTECTED_DATA[0];
  }

  lemma KindNames()
    ensures SEND_EMAIL == Ascii("SEND_EMAIL") && CREATE_INTERNAL_DRAFT == Ascii("CREATE_INTERNAL_DRAFT")
    ensures UPDATE_PRICING == Ascii("UPDATE_PRICING") && DELETE_PROTECTED_DATA == Ascii("DELETE_PROTECTED_DATA")
  {
  }
}

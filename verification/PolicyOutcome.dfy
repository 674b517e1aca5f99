/** What the automation policy makes of a session once its workflow has come to rest. */
module PolicyOutcome {
  import opened Wrappers
  import opened Sequences
  import opened JsonText
  import opened Actions
  import opened ExecutionLedger
  import opened Recovery
  import opened Protocol
  import opened ExecutionServices
  import E = EvidenceAcceptance
  import opened AutomationPolicy
  import A = ApprovalService

  datatype FinalStatus = Finished | Awaiting | Reduced | Recommending | Broken

  /** What the policy makes of one action; in the bypass scenario a protected one is sent to the executor without approval. */
  datatype Effect = Automatic | NeedsApproval | Refused | Recommended | Bypassed(refusedAtBoundary: bool)

  // ---------- how the effects add up ----------

  function StatusAfter(status: FinalStatus, effect: Effect): FinalStatus {
    match effect
    case Automatic => status
    case NeedsApproval => Awaiting
    case Refused => if status != Awaiting then Reduced else status
    case Recommended => if status == Finished then Recommending else status
    case Bypassed(refused) => if refused then Reduced else Broken
  }

  function StatusOf(effects: seq<Effect>): FinalStatus {
    if effects == [] then Finished else StatusAfter(StatusOf(effects[..|effects| - 1]), effects[|effects| - 1])
  }

  predicate BypassFree(effects: seq<Effect>) {
    Bypassed(true) !in effects && Bypassed(false) !in effects
  }

  /** Outside the bypass scenario the order of the actions is irrelevant: the gravest effect among them decides. */
  lemma {:induction false} GravestEffectDecides(effects: seq<Effect>)
    requires BypassFree(effects)
    ensures StatusOf(effects) ==
            if NeedsApproval in effects then Awaiting
            else if Refused in effects then Reduced
            else if Recommended in effects then Recommending
            else Finished
  {
    if effects != [] {
      var init, last := effects[..|effects| - 1], effects[|effects| - 1];
      assert effects == init + [last];
      GravestEffectDecides(init);
    }
  }

  /** With a bypass, the last one and what follows it decide; nothing before it counts. */
  lemma {:induction false} LastBypassDecides(effects: seq<Effect>, k: nat)
    requires k < |effects| && effects[k].Bypassed? && BypassFree(effects[k + 1..])
    ensures StatusOf(effects) ==
            if NeedsApproval in effects[k + 1..] then Awaiting
            else if effects[k].refusedAtBoundary || Refused in effects[k + 1..] then Reduced
            else Broken
    decreases |effects|
  {
    if k < |effects| - 1 {
      var init, last := effects[..|effects| - 1], effects[|effects| - 1];
      assert effects[k + 1..] == init[k + 1..] + [last];
      LastBypassDecides(init, k);
    }
  }

  /** Nothing that would replace the status of an executed bypass. */
  predicate Untouched(effects: seq<Effect>) {
    Bypassed(true) !in effects && NeedsApproval !in effects && Refused !in effects
  }

  /** A bypass was executed, and nothing after it replaces the status it left. */
  predicate Shows(effects: seq<Effect>, k: nat)
    requires k < |effects|
  {
    effects[k] == Bypassed(false) && Untouched(effects[k + 1..])
  }

  ghost predicate SomeShows(effects: seq<Effect>) {
    exists k :: 0 <= k < |effects| && Shows(effects, k)
  }

  lemma ShowsNext(effects: seq<Effect>, k: nat)
    requires k < |effects| - 1
    ensures Shows(effects, k) <==> Shows(effects[..|effects| - 1], k) && Untouched([effects[|effects| - 1]])
  {
    var init, last := effects[..|effects| - 1], effects[|effects| - 1];
    assert effects[k + 1..] == init[k + 1..] + [last];
  }

  lemma SomeShowsNext(effects: seq<Effect>)
    requires effects != []
    ensures var init, last := effects[..|effects| - 1], effects[|effects| - 1];
      SomeShows(effects) <==> last == Bypassed(false) || (SomeShows(init) && Untouched([last]))
  {
    var n := |effects| - 1;
    var init, last := effects[..n], effects[n];
    assert effects[n + 1..] == [];
    assert Shows(effects, n) <==> last == Bypassed(false);
    hide Shows, Untouched;
    if SomeShows(init) && Untouched([last]) {
      var k :| 0 <= k < n && Shows(init, k);
      ShowsNext(effects, k);
    }
    if SomeShows(effects) && last != Bypassed(false) {
      var k :| 0 <= k < n + 1 && Shows(effects, k);
      ShowsNext(effects, k);
    }
  }

  /** An executed bypass shows in the final status only until another one is refused, an approval asked or an action denied. */
  lemma {:induction false} BrokenExactly(effects: seq<Effect>)
    ensures StatusOf(effects) == Broken <==> exists k :: 0 <= k < |effects| && Shows(effects, k)
  {
    hide Shows;
    if effects != [] {
      SomeShowsNext(effects);
      BrokenExactly(effects[..|effects| - 1]);
      hide SomeShows;
    }
    assert SomeShows(effects) <==> exists k :: 0 <= k < |effects| && Shows(effects, k);
  }

  // ---------- when the order of the actions matters ----------

  ghost predicate OrderIsIrrelevant(effects: seq<Effect>) {
    forall others: seq<Effect> :: multiset(others) == multiset(effects) ==> StatusOf(others) == StatusOf(effects)
  }

  /** Without approvals to ask, nothing makes a session await one. */
  lemma {:induction false} NothingAwaited(effects: seq<Effect>)
    requires NeedsApproval !in effects
    ensures StatusOf(effects) != Awaiting
    ensures Bypassed(true) in effects && Bypassed(false) !in effects ==> StatusOf(effects) == Reduced
    ensures Bypassed(false) in effects && Bypassed(true) !in effects && Refused !in effects ==> StatusOf(effects) == Broken
  {
    if effects != [] {
      var init, last := effects[..|effects| - 1], effects[|effects| - 1];
      assert effects == init + [last];
      NothingAwaited(init);
    }
  }

  /** The same effects, with this one at the end. */
  lemma MovedToEnd(effects: seq<Effect>, e: Effect) returns (others: seq<Effect>)
    requires e in effects
    ensures multiset(others) == multiset(effects) && others != [] && others[|others| - 1] == e
    ensures StatusOf(others) == StatusAfter(StatusOf(others[..|others| - 1]), e)
  {
    var i :| 0 <= i < |effects| && effects[i] == e;
    others := effects[..i] + effects[i + 1..] + [e];
    assert effects == effects[..i] + [e] + effects[i + 1..];
  }

  lemma SameEffects(effects: seq<Effect>, others: seq<Effect>)
    requires multiset(others) == multiset(effects)
    ensures forall e :: e in others <==> e in effects
  {
    forall e ensures e in others <==> e in effects {
      assert e in others <==> e in multiset(others);
      assert e in effects <==> e in multiset(effects);
    }
  }

  /**
    * The order in which the actions are stored does not matter if and only if nothing is bypassed, or no approval is asked
    * and all bypasses end alike, with no refusal beside one that was executed.
    */
  lemma OrderIsIrrelevantExactly(effects: seq<Effect>)
    ensures OrderIsIrrelevant(effects) <==>
            || BypassFree(effects)
            || (NeedsApproval !in effects
                && (Bypassed(false) !in effects || (Bypassed(true) !in effects && Refused !in effects)))
  {
    hide StatusOf;
    if BypassFree(effects) {
      forall others: seq<Effect> | multiset(others) == multiset(effects) ensures StatusOf(others) == StatusOf(effects) {
        SameEffects(effects, others);
        GravestEffectDecides(effects);
        GravestEffectDecides(others);
      }
    } else if NeedsApproval !in effects && (Bypassed(false) !in effects || (Bypassed(true) !in effects && Refused !in effects)) {
      forall others: seq<Effect> | multiset(others) == multiset(effects) ensures StatusOf(others) == StatusOf(effects) {
        SameEffects(effects, others);
        NothingAwaited(effects);
        NothingAwaited(others);
      }
    } else {
      var bypass := if Bypassed(false) in effects then Bypassed(false) else Bypassed(true);
      var other := if NeedsApproval in effects then NeedsApproval
                   else if Bypassed(true) in effects then Bypassed(true) else Refused;
      var first := MovedToEnd(effects, bypass);
      var second := MovedToEnd(effects, other);
      SameEffects(effects, second);
      if NeedsApproval !in effects {
        assert forall e :: e in second[..|second| - 1] ==> e in second;
        NothingAwaited(second[..|second| - 1]);
      }
      assert StatusOf(first) != StatusOf(second);
    }
  }

  // ---------- the effect of one action ----------

  /**
    * What one policy run meets: the stored approvals and ledger, whether the error of an attacking attempt arrives before its
    * timeout, and whether the writes of an approval, of a claim and of an outcome succeed.
    */
  datatype Boundary = Boundary(
    approvals: map<string, A.ApprovalRecord>,
    ledger: Ledger,
    inTime: (string, nat) -> bool,
    asks: string -> bool,
    claims: string -> bool,
    records: string -> bool
  )

  /** The action as the bypass scenario hands it to the executor: hashed, with an empty idempotency key. */
  function Attack(a: ProposedAction, hash: Text): ApprovedAction {
    ApprovedAction(a, hash, None)
  }

  /** What one attempt comes to: the executor refuses an empty key before it looks at anything else it could do. */
  function AttemptOf(a: ApprovedAction, inTime: bool): (r: AttemptResult)
    requires a.supplied.None?
    ensures r == Failure(UnknownFailure) || r == Failure(TransientFailure)
    ensures inTime ==> forall receipts :: StageAfterLook(receipts, a) == Done(r)
  {
    if inTime then StageAfterLook(map[], a).result else Failure(TransientFailure)
  }

  predicate IsBypassed(a: ProposedAction, decide: ProposedAction -> Decision, bypass: bool) {
    decide(a) == RequireApproval && bypass && a.content.kind == SEND_EMAIL
  }

  /** The attack ends as refused: it is stopped before the claim or by the executor, or reads a failed record. */
  predicate IsRefused(b: Boundary, a: ApprovedAction) {
    || !Cleared(b.approvals, a, RequireApproval)
    || KeyOf(a) !in b.ledger
    || b.ledger[KeyOf(a)].status == Failed
  }

  function EffectOf(a: ProposedAction, decide: ProposedAction -> Decision, bypass: bool, b: Boundary): Effect {
    match decide(a)
    case RequireApproval =>
      if !IsBypassed(a, decide, bypass) then NeedsApproval
      else Bypassed(PayloadHashFor(a.content).Failure? || IsRefused(b, Attack(a, PayloadHashFor(a.content).value)))
    case DenyAction => Refused
    case RecommendOnly => Recommended
    case AutoExecute => Automatic
  }

  /** The contents cannot be hashed, the approval cannot be saved, or the attack gets as far as a write that fails. */
  predicate Throws(a: ProposedAction, decide: ProposedAction -> Decision, bypass: bool, b: Boundary) {
    && decide(a) == RequireApproval
    && (PayloadHashFor(a.content).Failure?
        || if IsBypassed(a, decide, bypass) then AttackThrows(b, Attack(a, PayloadHashFor(a.content).value)) else !b.asks(a.id))
  }

  predicate AttackThrows(b: Boundary, a: ApprovedAction) {
    && Cleared(b.approvals, a, RequireApproval)
    && (!b.claims(a.action.id) || (KeyOf(a) !in b.ledger && !b.records(a.action.id)))
  }

  function Effects(actions: seq<ProposedAction>, decide: ProposedAction -> Decision, bypass: bool, b: Boundary): (r: seq<Effect>)
    ensures |r| == |actions| && forall i :: 0 <= i < |r| ==> r[i] == EffectOf(actions[i], decide, bypass, b)
  {
    seq(|actions|, i requires 0 <= i < |actions| => EffectOf(actions[i], decide, bypass, b))
  }

  predicate NoneThrows(actions: seq<ProposedAction>, decide: ProposedAction -> Decision, bypass: bool, b: Boundary) {
    forall i :: 0 <= i < |actions| ==> !Throws(actions[i], decide, bypass, b)
  }

  /** An action for which no approval is stored as approved, with the hash of its contents, is always refused. */
  lemma UnapprovedIsRefused(b: Boundary, a: ProposedAction, hash: Text)
    requires a.content.kind == SEND_EMAIL
    requires a.id in b.approvals ==> b.approvals[a.id].status != A.Approved || b.approvals[a.id].payloadHash != hash
    ensures IsRefused(b, Attack(a, hash)) && !AttackThrows(b, Attack(a, hash))
  {
    ClearedExactly(b.approvals, Attack(a, hash), RequireApproval);
    hide Cleared;
  }

  // ---------- under the policy of the source ----------

  function Policy(evidence: seq<E.EvidenceStatus>, agentOf: ProposedAction -> PolicyAgent): ProposedAction -> Decision {
    (a: ProposedAction) => DecideAutomation(a.content.kind, evidence, agentOf(a))
  }

  /** No approval of its present contents is stored as approved for any of the actions. */
  predicate NoneApproved(actions: seq<ProposedAction>, approvals: map<string, A.ApprovalRecord>) {
    forall i :: 0 <= i < |actions| && actions[i].id in approvals && PayloadHashFor(actions[i].content).Success? ==>
      || approvals[actions[i].id].status != A.Approved
      || approvals[actions[i].id].payloadHash != PayloadHashFor(actions[i].content).value
  }

  /** An approval is asked for no action beside a bypass, and no bypass is executed. */
  lemma PolicyEffects(actions: seq<ProposedAction>, evidence: seq<E.EvidenceStatus>, agentOf: ProposedAction -> PolicyAgent,
                      bypass: bool, b: Boundary)
    requires NoneApproved(actions, b.approvals)
    ensures var effects := Effects(actions, Policy(evidence, agentOf), bypass, b);
      && Bypassed(false) !in effects
      && (bypass ==> NeedsApproval !in effects) && (!bypass ==> Bypassed(true) !in effects)
  {
    hide PayloadHashFor, DecideAutomation, IsRefused;
    var effects := Effects(actions, Policy(evidence, agentOf), bypass, b);
    forall i | 0 <= i < |effects|
      ensures effects[i] != Bypassed(false)
      ensures bypass ==> effects[i] != NeedsApproval
      ensures !bypass ==> effects[i] != Bypassed(true)
    {
      var a := actions[i];
      DecidedExactly(a.content.kind, evidence, agentOf(a));
      if a.content.kind == SEND_EMAIL && PayloadHashFor(a.content).Success? {
        UnapprovedIsRefused(b, a, PayloadHashFor(a.content).value);
      }
    }
  }

  /**
    * Under the policy of the source, and as long as no approval of the actions' contents stands, the order of the actions
    * never matters, bypass or not: the gravest effect decides, and a bypassed action counts as a denied one.
    */
  lemma PolicyStatusExactly(actions: seq<ProposedAction>, evidence: seq<E.EvidenceStatus>, agentOf: ProposedAction -> PolicyAgent,
                            bypass: bool, b: Boundary)
    requires NoneApproved(actions, b.approvals)
    ensures var effects := Effects(actions, Policy(evidence, agentOf), bypass, b);
      && OrderIsIrrelevant(effects)
      && StatusOf(effects) == if NeedsApproval in effects then Awaiting
                              else if Refused in effects || Bypassed(true) in effects then Reduced
                              else if Recommended in effects then Recommending
                              else Finished
  {
    var effects := Effects(actions, Policy(evidence, agentOf), bypass, b);
    PolicyEffects(actions, evidence, agentOf, bypass, b);
    hide Effects, StatusOf, OrderIsIrrelevant, Policy, NoneApproved;
    OrderIsIrrelevantExactly(effects);
    if BypassFree(effects) {
      GravestEffectDecides(effects);
    } else {
      NothingAwaited(effects);
    }
  }

  /** Some action is decided so. */
  ghost predicate SomeDecided(actions: seq<ProposedAction>, decide: ProposedAction -> Decision, decision: Decision) {
    exists i :: 0 <= i < |actions| && decide(actions[i]) == decision
  }

  lemma SomeEffect(actions: seq<ProposedAction>, decide: ProposedAction -> Decision, bypass: bool, b: Boundary)
    ensures var effects := Effects(actions, decide, bypass, b);
      && (Refused in effects <==> SomeDecided(actions, decide, DenyAction))
      && (Recommended in effects <==> SomeDecided(actions, decide, RecommendOnly))
      && (!bypass ==> (NeedsApproval in effects <==> SomeDecided(actions, decide, RequireApproval)) && BypassFree(effects))
  {
    hide PayloadHashFor, IsRefused;
    var effects := Effects(actions, decide, bypass, b);
    assert forall i :: 0 <= i < |actions| ==> effects[i] == EffectOf(actions[i], decide, bypass, b);
    assert forall e :: e in effects <==> exists i :: 0 <= i < |effects| && effects[i] == e;
  }

  /**
    * Outside the bypass scenario the decisions alone settle the status: the session awaits approval if one is required for
    * any action, else it is degraded if any is denied, else it recommends if any is only recommended, else it is finished.
    */
  lemma DecisionsDecideStatus(actions: seq<ProposedAction>, decide: ProposedAction -> Decision, b: Boundary)
    ensures StatusOf(Effects(actions, decide, false, b)) ==
            if SomeDecided(actions, decide, RequireApproval) then Awaiting
            else if SomeDecided(actions, decide, DenyAction) then Reduced
            else if SomeDecided(actions, decide, RecommendOnly) then Recommending
            else Finished
  {
    hide StatusOf, Effects, SomeDecided;
    SomeEffect(actions, decide, false, b);
    GravestEffectDecides(Effects(actions, decide, false, b));
  }

  lemma SomeBypassed(actions: seq<ProposedAction>, evidence: seq<E.EvidenceStatus>, agentOf: ProposedAction -> PolicyAgent, b: Boundary)
    requires NoneApproved(actions, b.approvals)
    ensures Bypassed(true) in Effects(actions, Policy(evidence, agentOf), true, b)
       <==> SomeDecided(actions, Policy(evidence, agentOf), RequireApproval)
  {
    hide PayloadHashFor, DecideAutomation, IsRefused;
    var effects := Effects(actions, Policy(evidence, agentOf), true, b);
    PolicyEffects(actions, evidence, agentOf, true, b);
    forall i | 0 <= i < |actions|
      ensures Policy(evidence, agentOf)(actions[i]) == RequireApproval <==> effects[i] == Bypassed(true)
    {
      DecidedExactly(actions[i].content.kind, evidence, agentOf(actions[i]));
      assert effects[i] == EffectOf(actions[i], Policy(evidence, agentOf), true, b);
      assert effects[i] in effects;
    }
    if SomeDecided(actions, Policy(evidence, agentOf), RequireApproval) {
      var i :| 0 <= i < |actions| && Policy(evidence, agentOf)(actions[i]) == RequireApproval;
      assert effects[i] in effects;
    }
  }

  /** In the bypass scenario an action that needs approval is refused at the boundary and degrades the session like a denied one. */
  lemma BypassDecidesStatus(actions: seq<ProposedAction>, evidence: seq<E.EvidenceStatus>, agentOf: ProposedAction -> PolicyAgent,
                            b: Boundary)
    requires NoneApproved(actions, b.approvals)
    ensures var decide := Policy(evidence, agentOf);
      StatusOf(Effects(actions, decide, true, b)) ==
      if SomeDecided(actions, decide, RequireApproval) || SomeDecided(actions, decide, DenyAction) then Reduced
      else if SomeDecided(actions, decide, RecommendOnly) then Recommending
      else Finished
  {
    hide StatusOf, Effects, SomeDecided, NoneApproved, Policy, OrderIsIrrelevant;
    SomeEffect(actions, Policy(evidence, agentOf), true, b);
    SomeBypassed(actions, evidence, agentOf, b);
    PolicyEffects(actions, evidence, agentOf, true, b);
    PolicyStatusExactly(actions, evidence, agentOf, true, b);
  }

  /**
    * Another policy could make the order matter: if it asked for approval of an unprotected action too, this action would
    * leave the session awaiting or not, depending on which of the two comes last.
    */
  lemma BypassDependsOnOrder(x: ProposedAction, y: ProposedAction, decide: ProposedAction -> Decision, b: Boundary)
    requires decide(x) == decide(y) == RequireApproval && x.content.kind != SEND_EMAIL && y.content.kind == SEND_EMAIL
    requires NoneApproved([y], b.approvals)
    ensures StatusOf(Effects([x, y], decide, true, b)) == Reduced
    ensures StatusOf(Effects([y, x], decide, true, b)) == Awaiting
  {
    hide PayloadHashFor, IsRefused, StatusOf;
    if PayloadHashFor(y.content).Success? {
      assert [y][0] == y;
      UnapprovedIsRefused(b, y, PayloadHashFor(y.content).value);
    }
    var first, second := Effects([x, y], decide, true, b), Effects([y, x], decide, true, b);
    assert first == [NeedsApproval, Bypassed(true)] && second == [Bypassed(true), NeedsApproval];
    LastBypassDecides(first, 1);
    LastBypassDecides(second, 0);
  }

  // ---------- one policy run ----------

  function ActionIds(actions: seq<ProposedAction>): (r: seq<string>)
    ensures |r| == |actions| && forall i :: 0 <= i < |r| ==> r[i] == actions[i].id
  {
    seq(|actions|, i requires 0 <= i < |actions| => actions[i].id)
  }

  /** A pending approval is stored for the action, bound to its contents. */
  ghost predicate IsRequested(approvals: map<string, A.ApprovalRecord>, a: ProposedAction, sessionId: string) {
    && a.id in approvals && PayloadHashFor(a.content).Success?
    && approvals[a.id] == A.ApprovalRecord(a.id, sessionId, PayloadHashFor(a.content).value, A.Pending)
  }

  /** Neither the approval of this id nor a ledger record for it has changed. */
  ghost predicate SameFor(id: string, was: Boundary, approvals: map<string, A.ApprovalRecord>, ledger: Ledger) {
    && (id in approvals <==> id in was.approvals) && (id in approvals ==> approvals[id] == was.approvals[id])
    && forall key: Key :: key.actionId == id ==>
         (key in ledger <==> key in was.ledger) && (key in ledger ==> ledger[key] == was.ledger[key])
  }

  ghost predicate Touched(actions: seq<ProposedAction>, decide: ProposedAction -> Decision, n: nat, id: string) {
    exists i :: 0 <= i < n <= |actions| && decide(actions[i]) == RequireApproval && actions[i].id == id
  }

  lemma TouchedNext(actions: seq<ProposedAction>, decide: ProposedAction -> Decision, n: nat)
    requires Distinct(ActionIds(actions)) && n < |actions|
    ensures forall id :: Touched(actions, decide, n + 1, id) <==>
                         Touched(actions, decide, n, id) || (decide(actions[n]) == RequireApproval && actions[n].id == id)
    ensures forall id :: Touched(actions, decide, n + 1, id) ==> Touched(actions, decide, |actions|, id)
    ensures !Touched(actions, decide, n, actions[n].id)
  {
    forall i | 0 <= i < n ensures actions[i].id != actions[n].id {
      assert ActionIds(actions)[i] != ActionIds(actions)[n];
    }
  }

  lemma NothingTouched(actions: seq<ProposedAction>, decide: ProposedAction -> Decision)
    ensures forall id :: !Touched(actions, decide, 0, id)
  {
  }

  lemma AllSame(b: Boundary)
    ensures forall id :: SameFor(id, b, b.approvals, b.ledger)
  {
  }

  lemma AskingKeepsOthers(asked: A.ApprovalRecord, id: string, other: string, b: Boundary,
                          approvals: map<string, A.ApprovalRecord>, ledger: Ledger)
    requires other != id && SameFor(other, b, approvals, ledger)
    ensures SameFor(other, b, approvals[id := asked], ledger)
  {
  }

  /** The checks look at the action's own approval alone. */
  lemma OwnApprovalDecides(a: ApprovedAction, was: map<string, A.ApprovalRecord>, approvals: map<string, A.ApprovalRecord>)
    requires a.action.id in approvals <==> a.action.id in was
    requires a.action.id in approvals ==> approvals[a.action.id] == was[a.action.id]
    ensures Cleared(approvals, a, RequireApproval) <==> Cleared(was, a, RequireApproval)
  {
    hide PayloadHashFor, Admitted;
  }

  lemma HashedIsDecided(approvals: map<string, A.ApprovalRecord>, a: ApprovedAction)
    requires a.supplied.None? && PayloadHashFor(a.action.content) == Success(a.payloadHash)
    ensures Cleared(approvals, a, RequireApproval) || (Gate(approvals, a, RequireApproval).Returned? && Gate(approvals, a, RequireApproval).outcome.terminal)
  {
    hide PayloadHashFor;
  }

  class PolicyDesk {
    const service: ExecutionService
    var approvals: map<string, A.ApprovalRecord>
    var status: Option<FinalStatus> // the status policy saved for the session, if any

    constructor (service: ExecutionService, approvals: map<string, A.ApprovalRecord>)
      ensures this.service == service && this.approvals == approvals && status == None
    {
      this.service, this.approvals, status := service, approvals, None;
    }

    /**
      * Exactly the actions that need approval get a pending one, bound to the hash of their present contents, and the
      * session is saved once, with the status the effects add up to. A failed session and one without actions are left
      * alone; what cannot be hashed or written throws, with no status saved. Approvals and ledger records of other actions
      * are not touched.
      */
    method ApplyPolicy(sessionFailed: bool, sessionId: string, actions: seq<ProposedAction>, decide: ProposedAction -> Decision,
                       bypass: bool, inTime: (string, nat) -> bool, asks: string -> bool, claims: string -> bool,
                       records: string -> bool, ends: bool)
      returns (threw: bool)
      requires Distinct(ActionIds(actions)) && status.None?
      modifies this, service.store
      ensures sessionFailed || actions == [] ==>
                !threw && status == None && approvals == old(approvals) && service.store.data == old(service.store.data)
      ensures var b := Boundary(old(approvals), old(service.store.data), inTime, asks, claims, records);
        && (!sessionFailed && actions != [] ==>
             && (threw <==> !ends || !NoneThrows(actions, decide, bypass, b))
             && status == (if threw then None else Some(StatusOf(Effects(actions, decide, bypass, b))))
             && (!bypass && !threw ==>
                  status == Some(if SomeDecided(actions, decide, RequireApproval) then Awaiting
                                 else if SomeDecided(actions, decide, DenyAction) then Reduced
                                 else if SomeDecided(actions, decide, RecommendOnly) then Recommending
                                 else Finished)))
        && (!sessionFailed && NoneThrows(actions, decide, bypass, b) ==>
             forall i :: 0 <= i < |actions| && EffectOf(actions[i], decide, bypass, b) == NeedsApproval ==>
               IsRequested(approvals, actions[i], sessionId))
        && (forall id :: !Touched(actions, decide, |actions|, id) ==> SameFor(id, b, approvals, service.store.data))
    {
      hide PayloadHashFor, StatusOf, Effects, IsRefused, AttackThrows, Cleared, SameFor, Touched, SomeDecided;
      ghost var b := Boundary(approvals, service.store.data, inTime, asks, claims, records);
      NoEffects(actions, decide, bypass, b);
      AllSame(b);
      NothingTouched(actions, decide);
      if sessionFailed || |actions| == 0 {
        return false;
      }
      var finalStatus := Finished;
      for n := 0 to |actions|
        invariant finalStatus == StatusOf(Effects(actions[..n], decide, bypass, b))
        invariant status.None? && forall i :: 0 <= i < n ==> !Throws(actions[i], decide, bypass, b)
        invariant forall i :: 0 <= i < n && EffectOf(actions[i], decide, bypass, b) == NeedsApproval ==>
                    IsRequested(approvals, actions[i], sessionId)
        invariant forall id :: !Touched(actions, decide, n, id) ==> SameFor(id, b, approvals, service.store.data)
      {
        var action := actions[n];
        EffectsNext(actions, n, decide, bypass, b);
        TouchedNext(actions, decide, n);
        match decide(action) {
          case RequireApproval =>
            var hash := PayloadHashFor(action.content);
            if hash.Failure? {
              return true;
            }
            if bypass && action.content.kind == SEND_EMAIL {
              var refused := AttackExecutor(Attack(action, hash.value), inTime, claims, records, b);
              if refused.Failure? {
                return true;
              }
              finalStatus := if refused.value then Reduced else Broken;
            } else {
              if !asks(action.id) {
                return true;
              }
              var approval := A.ApprovalRecord(action.id, sessionId, hash.value, A.Pending);
              ghost var before := approvals;
              approvals := approvals[action.id := approval];
              forall id | !Touched(actions, decide, n + 1, id) ensures SameFor(id, b, approvals, service.store.data) {
                AskingKeepsOthers(approval, action.id, id, b, before, service.store.data);
              }
              finalStatus := Awaiting;
            }
          case DenyAction =>
            if finalStatus != Awaiting {
              finalStatus := Reduced;
            }
          case RecommendOnly =>
            if finalStatus == Finished {
              finalStatus := Recommending;
            }
          case AutoExecute =>
        }
      }
      assert actions[..|actions|] == actions;
      if !ends {
        return true;
      }
      status := Some(finalStatus);
      DecisionsDecideStatus(actions, decide, b);
      return false;
    }

    /** Whatever throws while policy is applied fails the session, as far as that can still be saved. */
    method ConcludeSession(sessionFailed: bool, sessionId: string, actions: seq<ProposedAction>,
                           decide: ProposedAction -> Decision, bypass: bool, inTime: (string, nat) -> bool,
                           asks: string -> bool, claims: string -> bool, records: string -> bool, ends: bool, fails: bool)
      requires Distinct(ActionIds(actions)) && status.None?
      modifies this, service.store
      ensures sessionFailed || actions == [] ==> status == None
      ensures var b := Boundary(old(approvals), old(service.store.data), inTime, asks, claims, records);
        !sessionFailed && actions != [] ==>
          status == if ends && NoneThrows(actions, decide, bypass, b) then Some(StatusOf(Effects(actions, decide, bypass, b)))
                    else if fails then Some(Broken) else None
    {
      hide StatusOf, Effects, NoneThrows, Touched, SameFor, IsRequested, EffectOf;
      var threw := ApplyPolicy(sessionFailed, sessionId, actions, decide, bypass, inTime, asks, claims, records, ends);
      if threw && fails {
        status := Some(Broken);
      }
    }

    /** The attack is refused, or executed, or throws: what it meets decides, whatever the attempts do. */
    method AttackExecutor(a: ApprovedAction, inTime: (string, nat) -> bool, claims: string -> bool, records: string -> bool, ghost b: Boundary)
      returns (refused: Result<bool, RunError>)
      requires a.supplied.None? && PayloadHashFor(a.action.content) == Success(a.payloadHash)
      requires b.claims == claims && b.records == records && SameFor(a.action.id, b, approvals, service.store.data)
      modifies service.store
      ensures refused.Failure? <==> AttackThrows(b, a)
      ensures refused.Success? ==> (refused.value <==> IsRefused(b, a))
      ensures forall id :: id != a.action.id && SameFor(id, b, approvals, old(service.store.data)) ==>
                SameFor(id, b, approvals, service.store.data)
    {
      hide PayloadHashFor, Cleared, Gate;
      OwnApprovalDecides(a, b.approvals, approvals);
      HashedIsDecided(approvals, a);
      var id := a.action.id;
      var attempts := (n: nat) => AttemptOf(a, inTime(id, n));
      assert forall n: nat :: attempts(n) == AttemptOf(a, inTime(id, n));
      var outcome, made := service.Run(a, RequireApproval, approvals, attempts, claims(id), records(id));
      if outcome.Failure? {
        return Failure(outcome.error);
      }
      assert Cleared(approvals, a, RequireApproval) && KeyOf(a) !in b.ledger ==> outcome.value.terminal by {
        NeverDelivered(attempts, service.maxAttempts, outcome.value);
      }
      return Success(outcome.value.terminal);
    }
  }

  lemma NeverDelivered(attempts: nat -> AttemptResult, maxAttempts: nat, outcome: Outcome)
    requires forall n: nat :: attempts(n) == Failure(UnknownFailure) || attempts(n) == Failure(TransientFailure)
    ensures (forall n: nat :: Decisive(attempts, maxAttempts, n) ==> Followed(attempts(n), n, maxAttempts) == Some(outcome))
         && ((forall n: nat :: !Decisive(attempts, maxAttempts, n)) ==> outcome == GiveUp(RetriesExhausted))
        ==> outcome.terminal
  {
  }

  lemma NoEffects(actions: seq<ProposedAction>, decide: ProposedAction -> Decision, bypass: bool, b: Boundary)
    ensures StatusOf(Effects(actions[..0], decide, bypass, b)) == Finished
  {
  }

  lemma EffectsNext(actions: seq<ProposedAction>, n: nat, decide: ProposedAction -> Decision, bypass: bool, b: Boundary)
    requires n < |actions|
    ensures StatusOf(Effects(actions[..n + 1], decide, bypass, b))
         == StatusAfter(StatusOf(Effects(actions[..n], decide, bypass, b)), EffectOf(actions[n], decide, bypass, b))
  {
    hide EffectOf;
    var longer := Effects(actions[..n + 1], decide, bypass, b);
    assert longer[..n] == Effects(actions[..n], decide, bypass, b);
  }
}

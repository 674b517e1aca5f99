/** Evidence records and the rule by which the server accepts or rejects them. */
module EvidenceAcceptance {
  import opened Wrappers
  import opened JsonText
  import opened TaskLifecycle

  datatype EvidenceStatus = Provisional | Accepted | Rejected | Stale

  /** The ids the coordinator numbers, and the one the controlled spoofing scenario uses. */
  datatype EvidenceId =
    | Numbered(sessionId: string, taskId: string, index: nat)
    | SpoofedId(sessionId: string, taskId: string)

  datatype EvidenceRecord = EvidenceRecord(
    id: EvidenceId,
    sessionId: string,
    taskId: string,
    producerAgentId: string,
    status: EvidenceStatus,
    claim: Text,
    sourceRefs: seq<Text>
  )

  datatype Reason =
    | DifferentSession
    | DifferentTask
    | ProducerNotCompleted
    | ProducerMismatch
    | ClaimMissing
    | SourceMissing
    | SourceNotAuthorized

  /** What the record says of its origin agrees with the task that produced it. */
  ghost predicate OriginAgrees(record: EvidenceRecord, sessionId: string, task: AgentTask) {
    && record.sessionId == sessionId && record.taskId == task.Id()
    && task.status == Completed && task.assignedAgentId == Some(record.producerAgentId)
  }

  ghost predicate SourcesAuthorized(record: EvidenceRecord, authorized: set<Text>) {
    && record.sourceRefs != []
    && forall ref :: ref in record.sourceRefs ==> !IsBlank(ref) && ref in authorized
  }

  /** Which reason stands for which defect. */
  ghost predicate Defect(record: EvidenceRecord, sessionId: string, task: AgentTask, authorized: set<Text>, reason: Reason) {
    match reason
    case DifferentSession => record.sessionId != sessionId
    case DifferentTask => record.taskId != task.Id()
    case ProducerNotCompleted => task.status != Completed
    case ProducerMismatch => task.assignedAgentId != Some(record.producerAgentId)
    case ClaimMissing => IsBlank(record.claim)
    case SourceMissing => record.sourceRefs == [] || exists ref :: ref in record.sourceRefs && IsBlank(ref)
    case SourceNotAuthorized =>
      && record.sourceRefs != [] && (forall ref :: ref in record.sourceRefs ==> !IsBlank(ref))
      && exists ref :: ref in record.sourceRefs && ref !in authorized
  }

  predicate ConcernsOrigin(reason: Reason) {
    reason in {DifferentSession, DifferentTask, ProducerNotCompleted, ProducerMismatch}
  }

  /** The defects in what the record says of its origin. */
  method OriginReasons(record: EvidenceRecord, sessionId: string, task: AgentTask) returns (reasons: seq<Reason>)
    ensures forall reason :: reason in reasons <==> ConcernsOrigin(reason) && Defect(record, sessionId, task, {}, reason)
    ensures forall i :: 0 <= i < |reasons| ==> ConcernsOrigin(reasons[i])
    ensures forall i, j :: 0 <= i < j < |reasons| ==> reasons[i] != reasons[j]
  {
    reasons := [];
    if record.sessionId != sessionId {
      reasons := reasons + [DifferentSession];
    }
    if record.taskId != task.Id() {
      reasons := reasons + [DifferentTask];
    }
    if task.status != Completed {
      reasons := reasons + [ProducerNotCompleted];
    }
    if task.assignedAgentId != Some(record.producerAgentId) {
      reasons := reasons + [ProducerMismatch];
    }
  }

  /** Every defect is named once and nothing else is; a record without any is accepted. */
  method AssessEvidence(record: EvidenceRecord, sessionId: string, task: AgentTask, authorized: set<Text>)
    returns (status: EvidenceStatus, reasons: seq<Reason>)
    ensures forall reason :: reason in reasons <==> Defect(record, sessionId, task, authorized, reason)
    ensures forall i, j :: 0 <= i < j < |reasons| ==> reasons[i] != reasons[j]
    ensures status == Verdict(record, sessionId, task, authorized)
    ensures status == if reasons == [] then Accepted else Rejected
  {
    hide IsBlank, Verdict;
    reasons := OriginReasons(record, sessionId, task);
    if IsBlank(record.claim) {
      reasons := reasons + [ClaimMissing];
    }
    if |record.sourceRefs| == 0 || exists ref :: ref in record.sourceRefs && IsBlank(ref) {
      reasons := reasons + [SourceMissing];
    } else if exists ref :: ref in record.sourceRefs && ref !in authorized {
      reasons := reasons + [SourceNotAuthorized];
    }
    status := if |reasons| == 0 then Accepted else Rejected;
    VerdictExactly(record, sessionId, task, authorized);
    assert reasons != [] ==> reasons[0] in reasons;
  }

  function Verdict(record: EvidenceRecord, sessionId: string, task: AgentTask, authorized: set<Text>): EvidenceStatus {
    if record.sessionId == sessionId && record.taskId == task.Id() && task.status == Completed
       && task.assignedAgentId == Some(record.producerAgentId) && !IsBlank(record.claim) && record.sourceRefs != []
       && (forall ref :: ref in record.sourceRefs ==> !IsBlank(ref) && ref in authorized)
    then Accepted else Rejected
  }

  /** Accepted exactly when nothing is wrong with it, which is when its origin agrees and all its sources are authorized. */
  lemma VerdictExactly(record: EvidenceRecord, sessionId: string, task: AgentTask, authorized: set<Text>)
    ensures Verdict(record, sessionId, task, authorized) in {Accepted, Rejected}
    ensures Verdict(record, sessionId, task, authorized) == Accepted <==>
            forall reason :: !Defect(record, sessionId, task, authorized, reason)
    ensures Verdict(record, sessionId, task, authorized) == Accepted <==>
            OriginAgrees(record, sessionId, task) && !IsBlank(record.claim) && SourcesAuthorized(record, authorized)
  {
    if forall reason :: !Defect(record, sessionId, task, authorized, reason) {
      assert !Defect(record, sessionId, task, authorized, DifferentSession);
      assert !Defect(record, sessionId, task, authorized, DifferentTask);
      assert !Defect(record, sessionId, task, authorized, ProducerNotCompleted);
      assert !Defect(record, sessionId, task, authorized, ProducerMismatch);
      assert !Defect(record, sessionId, task, authorized, ClaimMissing);
      assert !Defect(record, sessionId, task, authorized, SourceMissing);
      assert !Defect(record, sessionId, task, authorized, SourceNotAuthorized);
    }
  }

  function ApplyEvidenceAcceptance(record: EvidenceRecord, sessionId: string, task: AgentTask, authorized: set<Text>): EvidenceRecord {
    record.(status := Verdict(record, sessionId, task, authorized))
  }
}

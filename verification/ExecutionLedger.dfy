/** The idempotency ledger: one abstract map, and the two stores that keep it. */
module ExecutionLedger {
  import opened Wrappers
  import opened JsonText

  /** The idempotency key `sessionId|actionId|payloadHash`, kept as its three parts. */
  datatype Key = Key(sessionId: string, actionId: string, payloadHash: Text)

  datatype Reason =
    | ProtectedActionRequiresApproval
    | IdempotencyKeyMismatch
    | NoApproval
    | ApprovalDenied
    | ApprovalInvalidated
    | HashMismatch
    | AuthRejected
    | InvalidAction
    | UnknownExecutionError
    | RetriesExhausted
    | ReclaimedAfterInterrupt
    | Unspecified

  /** A message id is the counter of the service that issued it. */
  datatype ActionResult = InProgress | Delivered(messageId: nat) | Undelivered(reason: Reason)

  datatype RecordStatus = Pending | Executing | Succeeded | Failed

  datatype ExecutionRecord =
    ExecutionRecord(key: Key, status: RecordStatus, attempts: nat, result: Option<ActionResult>)

  type Ledger = map<Key, ExecutionRecord>

  predicate Terminal(record: ExecutionRecord) {
    record.status == Succeeded || record.status == Failed
  }

  function NewExecutingRecord(key: Key): ExecutionRecord {
    ExecutionRecord(key, Executing, 0, None)
  }

  /** The compare-and-set of a claim: an existing record is never touched. */
  function Claimed(ledger: Ledger, key: Key): Ledger {
    if key in ledger then ledger else ledger[key := NewExecutingRecord(key)]
  }

  /** What loading does to a record that a dead process left behind. */
  function ReclaimedRecord(record: ExecutionRecord): ExecutionRecord {
    if record.status == Executing || record.status == Pending
    then record.(status := Failed, result := Some(Undelivered(ReclaimedAfterInterrupt)))
    else record
  }

  function Reclaimed(ledger: Ledger): (r: Ledger)
    ensures r.Keys == ledger.Keys
  {
    map key | key in ledger :: ReclaimedRecord(ledger[key])
  }

  /** After a reload every record is terminal, terminal ones are as they were, and a second reload changes nothing. */
  lemma ReclaimSettles(ledger: Ledger)
    ensures forall key :: key in ledger ==> Terminal(Reclaimed(ledger)[key])
    ensures forall key :: key in ledger && Terminal(ledger[key]) ==> Reclaimed(ledger)[key] == ledger[key]
    ensures Reclaimed(Reclaimed(ledger)) == Reclaimed(ledger)
  {
    forall key | key in ledger
      ensures Reclaimed(Reclaimed(ledger))[key] == Reclaimed(ledger)[key]
    {
    }
  }

  datatype IoError = WriteFailed

  /**
   * The durable ledger. `data` is the published copy that reads see and `file` what a restart would load;
   * each mutation works on a copy, writes it, and publishes it only when the write succeeded.
   */
  class JsonExecutionStore {
    var data: Ledger
    var file: Option<Ledger>

    constructor (file: Option<Ledger>)
      ensures data == map[] && this.file == file
    {
      data, this.file := map[], file;
    }

    method Load(writes: bool) returns (r: Result<(), IoError>)
      requires data == map[]
      modifies this
      ensures old(file).None? ==> data == map[] && file == if writes then Some(map[]) else None
      ensures old(file).Some? ==> data == Reclaimed(old(file).value)
      ensures old(file).Some? ==> file == if writes then Some(data) else old(file)
      ensures r.Success? <==> file == Some(data)
    {
      if file.None? {
        r := Persist(data, writes);
        return;
      }
      data := file.value;
      var changed := ReclaimInterrupted();
      if changed {
        r := Persist(data, writes);
        return;
      }
      return Success(());
    }

    /** Moves every interrupted record to failed; tells whether there was one. */
    method ReclaimInterrupted() returns (changed: bool)
      modifies this`data
      ensures data == Reclaimed(old(data))
      ensures changed <==> data != old(data)
    {
      changed := false;
      var rest := data.Keys;
      while rest != {}
        invariant rest <= data.Keys == old(data).Keys
        invariant forall key :: key in data ==>
          data[key] == if key in rest then old(data)[key] else ReclaimedRecord(old(data)[key])
        invariant changed <==> data != old(data)
        decreases rest
      {
        var key :| key in rest;
        var record := data[key];
        if record.status == Executing || record.status == Pending {
          data := data[key := record.(status := Failed, result := Some(Undelivered(ReclaimedAfterInterrupt)))];
          changed := true;
          assert data[key] != old(data)[key];
        }
        rest := rest - {key};
      }
    }

    method Get(key: Key) returns (r: Option<ExecutionRecord>)
      ensures r == if key in data then Some(data[key]) else None
    {
      r := if key in data then Some(data[key]) else None;
    }

    method Claim(key: Key, writes: bool) returns (r: Result<Option<ExecutionRecord>, IoError>)
      modifies this
      ensures !writes ==> r.Failure? && data == old(data) && file == old(file)
      ensures writes ==> data == Claimed(old(data), key) && file == Some(data)
      ensures writes ==> r == Success(if key in old(data) then None else Some(NewExecutingRecord(key)))
    {
      var next := data;
      var claimed: Option<ExecutionRecord> := None;
      if key !in next {
        var record := NewExecutingRecord(key);
        next := next[key := record];
        claimed := Some(record);
      }
      var done := Persist(next, writes);
      if done.Failure? {
        return Failure(done.error);
      }
      data := next;
      return Success(claimed);
    }

    method Update(record: ExecutionRecord, writes: bool) returns (r: Result<(), IoError>)
      modifies this
      ensures r.Success? <==> writes
      ensures !writes ==> data == old(data) && file == old(file)
      ensures writes ==> data == old(data)[record.key := record] && file == Some(data)
    {
      var next := data[record.key := record];
      r := Persist(next, writes);
      if r.Success? {
        data := next;
      }
    }

    /** Writes a temporary file and renames it over the ledger file, or fails before the rename. */
    method Persist(next: Ledger, writes: bool) returns (r: Result<(), IoError>)
      modifies this`file
      ensures r.Success? <==> writes
      ensures file == if writes then Some(next) else old(file)
    {
      if writes {
        file := Some(next);
        return Success(());
      }
      return Failure(WriteFailed);
    }
  }

  /** The ledger without a file behind it. */
  class InMemoryExecutionStore {
    var records: Ledger

    constructor ()
      ensures records == map[]
    {
      records := map[];
    }

    method Get(key: Key) returns (r: Option<ExecutionRecord>)
      ensures r == if key in records then Some(records[key]) else None
    {
      r := if key in records then Some(records[key]) else None;
    }

    method Claim(key: Key) returns (r: Option<ExecutionRecord>)
      modifies this
      ensures records == Claimed(old(records), key)
      ensures r == if key in old(records) then None else Some(NewExecutingRecord(key))
    {
      if key in records {
        return None;
      }
      var record := NewExecutingRecord(key);
      records := records[key := record];
      return Some(record);
    }

    method Update(record: ExecutionRecord)
      modifies this
      ensures records == old(records)[record.key := record]
    {
      records := records[record.key := record];
    }
  }
}

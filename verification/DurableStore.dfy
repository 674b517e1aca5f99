/**
  * Queued mutations of one value that is kept in memory and in a file: each is applied to a copy, the copy is written and
  * renamed over the file, and only then published in memory.
  */
module DurableStore {
  import opened Wrappers

  /** A mutation of a copy of the data; None when it throws. */
  type Mutation<!D> = D -> Option<D>

  datatype Job<!D> = Job(ticket: nat, mutation: Mutation<D>)

  /** What the job at the head of the queue is doing. */
  datatype Phase<D> =
    | Idle
    | Writing(next: D) // the temporary file is being written
    | Renamed(next: D) // the file is replaced, memory is not yet

  datatype Store<!D> = Store(
    memory: D,
    disk: D,
    queue: seq<Job<D>>,
    phase: Phase<D>,
    issued: nat,            // tickets given out
    applied: seq<Job<D>>,   // jobs whose result reached the file, in order
    acknowledged: set<nat>, // tickets whose caller was told of success
    failed: set<nat>        // tickets whose caller was told of failure
  )

  datatype Event<!D> =
    | Submit(mutation: Mutation<D>)
    | Begin            // the next job computes its result
    | WriteFails       // writing or renaming fails
    | Rename           // the written file takes the place of the old one
    | Publish          // memory follows, and the caller is told
    | Crash            // memory and queue are lost, the file is loaded again

  function Start<D>(data: D): Store<D> {
    Store(data, data, [], Idle, 0, [], {}, {})
  }

  function Settled<D>(s: Store<D>): Store<D>
    requires s.queue != []
  {
    s.(queue := s.queue[1..], phase := Idle)
  }

  function Step<D>(s: Store<D>, e: Event<D>): Store<D> {
    match e
    case Submit(m) => s.(queue := s.queue + [Job(s.issued, m)], issued := s.issued + 1)
    case Begin =>
      if s.phase.Idle? && s.queue != [] then
        match s.queue[0].mutation(s.memory)
        case Some(next) => s.(phase := Writing(next))
        case None => Settled(s).(failed := s.failed + {s.queue[0].ticket})
      else s
    case WriteFails =>
      if s.phase.Writing? && s.queue != [] then Settled(s).(failed := s.failed + {s.queue[0].ticket}) else s
    case Rename =>
      if s.phase.Writing? && s.queue != [] then
        s.(disk := s.phase.next, phase := Renamed(s.phase.next), applied := s.applied + [s.queue[0]])
      else s
    case Publish =>
      if s.phase.Renamed? && s.queue != [] then
        Settled(s).(memory := s.phase.next, acknowledged := s.acknowledged + {s.queue[0].ticket})
      else s
    case Crash => s.(memory := s.disk, queue := [], phase := Idle)
  }

  function Steps<D>(data: D, events: seq<Event<D>>): Store<D> {
    if events == [] then Start(data)
    else Step(Steps(data, events[..|events| - 1]), events[|events| - 1])
  }

  /** The value that a series of mutations leads to, or None where one throws. */
  function Fold<D>(data: D, jobs: seq<Job<D>>): Option<D> {
    if jobs == [] then Some(data)
    else match Fold(data, jobs[..|jobs| - 1])
      case Some(d) => jobs[|jobs| - 1].mutation(d)
      case None => None
  }

  function Tickets<D>(jobs: seq<Job<D>>): set<nat> {
    set i | 0 <= i < |jobs| :: jobs[i].ticket
  }

  ghost predicate Ascending<D>(jobs: seq<Job<D>>) {
    forall i, j :: 0 <= i < j < |jobs| ==> jobs[i].ticket < jobs[j].ticket
  }

  /** What has reached memory: all that reached the file, but for a rename that is not published yet. */
  function Published<D>(s: Store<D>): seq<Job<D>> {
    if s.phase.Renamed? && s.applied != [] then s.applied[..|s.applied| - 1] else s.applied
  }

  ghost predicate Inv<D>(data: D, s: Store<D>) {
    && Fold(data, s.applied) == Some(s.disk)
    && Fold(data, Published(s)) == Some(s.memory)
    && PhaseInv(s) && OrderInv(s) && SettledInv(s)
  }

  /** Tickets ascend through the file and the queue; a renamed job stands in both until it is published. */
  ghost predicate OrderInv<D>(s: Store<D>) {
    && Ascending(s.applied) && Ascending(s.queue)
    && (forall i :: 0 <= i < |s.applied| ==> s.applied[i].ticket < s.issued)
    && (forall i :: 0 <= i < |s.queue| ==> s.queue[i].ticket < s.issued)
    && (forall i, j :: 0 <= i < |s.applied| && 0 <= j < |s.queue| ==>
         s.applied[i].ticket < s.queue[j].ticket || (s.phase.Renamed? && i == |s.applied| - 1 && j == 0))
  }

  ghost predicate PhaseInv<D>(s: Store<D>) {
    match s.phase
    case Idle => true
    case Writing(next) => s.queue != [] && s.queue[0].mutation(s.memory) == Some(next)
    case Renamed(next) => s.queue != [] && s.applied != [] && s.applied[|s.applied| - 1] == s.queue[0] && next == s.disk
  }

  /** Success was reported for jobs in the file only, failure for jobs that never reached it. */
  ghost predicate SettledInv<D>(s: Store<D>) {
    && (forall t :: t in s.acknowledged ==> t in Tickets(s.applied))
    && (forall t :: t in s.failed ==> t < s.issued && t !in Tickets(s.applied) && t !in Tickets(s.queue))
  }

  lemma StepKeepsInv<D>(data: D, s: Store<D>, e: Event<D>)
    requires Inv(data, s)
    ensures Inv(data, Step(s, e))
  {
    match e
    case Submit(m) => SubmitKeepsInv(data, s, m);
    case Begin => BeginKeepsInv(data, s);
    case WriteFails =>
      if s.phase.Writing? { FailureKeepsInv(data, s); }
    case Rename => RenameKeepsInv(data, s);
    case Publish => PublishKeepsInv(data, s);
    case Crash => CrashKeepsInv(data, s);
  }

  lemma SubmitKeepsInv<D>(data: D, s: Store<D>, m: Mutation<D>)
    requires Inv(data, s)
    ensures Inv(data, Step(s, Submit(m)))
  {
  }

  lemma FailureKeepsInv<D>(data: D, s: Store<D>)
    requires Inv(data, s) && s.queue != [] && !s.phase.Renamed?
    ensures Inv(data, Settled(s).(failed := s.failed + {s.queue[0].ticket}))
  {
  }

  lemma BeginKeepsInv<D>(data: D, s: Store<D>)
    requires Inv(data, s)
    ensures Inv(data, Step(s, Begin))
  {
    if s.phase.Idle? && s.queue != [] && s.queue[0].mutation(s.memory).None? {
      FailureKeepsInv(data, s);
    }
  }

  lemma RenameKeepsOrder<D>(s: Store<D>)
    requires OrderInv(s) && s.phase.Writing? && s.queue != []
    ensures OrderInv(Step(s, Rename))
  {
  }

  lemma RenameKeepsSettled<D>(s: Store<D>)
    requires SettledInv(s) && s.phase.Writing? && s.queue != []
    ensures SettledInv(Step(s, Rename))
  {
    TicketsGrow(s.applied, s.queue[0]);
    assert s.queue[0].ticket in Tickets(s.queue);
    hide Tickets;
  }

  lemma RenameKeepsFold<D>(data: D, s: Store<D>)
    requires Fold(data, s.applied) == Some(s.disk) && s.phase.Writing?
    requires s.queue != [] && s.queue[0].mutation(s.disk) == Some(s.phase.next)
    ensures Fold(data, s.applied + [s.queue[0]]) == Some(s.phase.next)
  {
    assert (s.applied + [s.queue[0]])[..|s.applied|] == s.applied;
  }

  lemma RenameKeepsInv<D>(data: D, s: Store<D>)
    requires Inv(data, s)
    ensures Inv(data, Step(s, Rename))
  {
    hide Fold, OrderInv, SettledInv;
    if s.phase.Writing? {
      RenameKeepsFold(data, s);
      RenameKeepsOrder(s);
      RenameKeepsSettled(s);
      assert (s.applied + [s.queue[0]])[..|s.applied|] == s.applied;
    }
  }

  lemma TicketsGrow<D>(jobs: seq<Job<D>>, job: Job<D>)
    ensures Tickets(jobs + [job]) == Tickets(jobs) + {job.ticket}
  {
    var after := jobs + [job];
    assert after[|jobs|] == job;
    assert forall i :: 0 <= i < |jobs| ==> after[i] == jobs[i];
  }

  lemma PublishKeepsInv<D>(data: D, s: Store<D>)
    requires Inv(data, s)
    ensures Inv(data, Step(s, Publish))
  {
    if s.phase.Renamed? {
      var last := s.applied[|s.applied| - 1];
      assert last.ticket in Tickets(s.applied);
    }
  }

  lemma CrashKeepsInv<D>(data: D, s: Store<D>)
    requires Inv(data, s)
    ensures Inv(data, Step(s, Crash))
  {
  }

  lemma {:induction false} StepsInv<D>(data: D, events: seq<Event<D>>)
    ensures Inv(data, Steps(data, events))
  {
    if events != [] {
      StepsInv(data, events[..|events| - 1]);
      StepKeepsInv(data, Steps(data, events[..|events| - 1]), events[|events| - 1]);
    }
  }

  /**
    * In every state, after any failures and crashes: the file holds the result of the applied jobs in the order they
    * were queued, memory holds the same or lacks only the job whose rename it is about to publish, every acknowledged
    * job is among those applied, and none that was reported as failed is.
    */
  lemma FileAndMemoryAreTheAppliedJobs<D>(data: D, events: seq<Event<D>>)
    ensures var s := Steps(data, events);
      && Fold(data, s.applied) == Some(s.disk) && Ascending(s.applied)
      && Fold(data, Published(s)) == Some(s.memory)
      && s.acknowledged <= Tickets(s.applied) && s.failed !! Tickets(s.applied)
  {
    StepsInv(data, events);
  }

  /** What once reached the file stays part of it, through every later failure and crash. */
  lemma {:induction false} AppliedOnlyGrows<D>(data: D, events: seq<Event<D>>, m: nat)
    requires m <= |events|
    ensures Steps(data, events[..m]).applied <= Steps(data, events).applied
    ensures Steps(data, events[..m]).acknowledged <= Steps(data, events).acknowledged
    decreases |events|
  {
    if m < |events| {
      var init := events[..|events| - 1];
      assert init[..m] == events[..m];
      AppliedOnlyGrows(data, init, m);
    } else {
      assert events[..m] == events;
    }
  }

  /** Loading the file after a crash brings back every job that was ever acknowledged. */
  lemma {:induction false} AcknowledgedSurvivesCrashes<D>(data: D, events: seq<Event<D>>, m: nat, t: nat)
    requires m <= |events| && t in Steps(data, events[..m]).acknowledged
    ensures var reloaded := Step(Steps(data, events), Crash);
      t in Tickets(reloaded.applied) && Fold(data, reloaded.applied) == Some(reloaded.memory)
  {
    hide Inv, Fold, Steps, Tickets, Published;
    var s, earlier := Steps(data, events), Steps(data, events[..m]);
    AppliedOnlyGrows(data, events, m);
    assert t in s.acknowledged;
    FileAndMemoryAreTheAppliedJobs(data, events);
    assert t in Tickets(s.applied);
  }

  // ---------- every call is answered ----------

  /** Every ticket given out was answered, or its job is still in the queue. */
  ghost predicate Accounted<D>(s: Store<D>) {
    forall t: nat :: t < s.issued ==> t in s.acknowledged || t in s.failed || t in Tickets(s.queue)
  }

  lemma HeadOrRest<D>(jobs: seq<Job<D>>)
    requires jobs != []
    ensures Tickets(jobs) == {jobs[0].ticket} + Tickets(jobs[1..])
  {
    assert jobs[0].ticket in Tickets(jobs);
    forall t | t in Tickets(jobs) ensures t == jobs[0].ticket || t in Tickets(jobs[1..]) {
      var i :| 0 <= i < |jobs| && jobs[i].ticket == t;
      assert i > 0 ==> jobs[1..][i - 1].ticket == t;
    }
    forall t | t in Tickets(jobs[1..]) ensures t in Tickets(jobs) {
      var i :| 0 <= i < |jobs| - 1 && jobs[1..][i].ticket == t;
      assert jobs[i + 1].ticket == t;
    }
  }

  lemma StepKeepsAccounted<D>(s: Store<D>, e: Event<D>)
    requires Accounted(s) && !e.Crash?
    ensures Accounted(Step(s, e))
  {
    if e.Submit? {
      TicketsGrow(s.queue, Job(s.issued, e.mutation));
    }
    if s.queue != [] {
      HeadOrRest(s.queue);
    }
    hide Tickets;
  }

  /** While the process lives no call is forgotten: each was answered, with success or failure but not both, or is still queued. */
  lemma {:induction false} EveryCallIsAnswered<D>(data: D, events: seq<Event<D>>, t: nat)
    requires forall i :: 0 <= i < |events| ==> !events[i].Crash?
    requires t < Steps(data, events).issued
    ensures var s := Steps(data, events);
      && (t in s.acknowledged || t in s.failed || t in Tickets(s.queue))
      && !(t in s.acknowledged && t in s.failed) && !(t in s.failed && t in Tickets(s.queue))
  {
    StepsInv(data, events);
    AllAccounted(data, events);
    hide Steps, Fold;
  }

  lemma {:induction false} AllAccounted<D>(data: D, events: seq<Event<D>>)
    requires forall i :: 0 <= i < |events| ==> !events[i].Crash?
    ensures Accounted(Steps(data, events))
  {
    hide Step;
    if events != [] {
      hide Accounted;
      AllAccounted(data, events[..|events| - 1]);
      StepKeepsAccounted(Steps(data, events[..|events| - 1]), events[|events| - 1]);
    } else {
      hide Tickets;
    }
  }

  // ---------- a failure does not block ----------

  /** The events that carry the job at the head of an idle store to its end. */
  function Carry<D>(written: bool): seq<Event<D>> {
    if written then [Begin, Rename, Publish] else [Begin, WriteFails]
  }

  function Applied<D>(s: Store<D>, events: seq<Event<D>>): Store<D>
    decreases |events|
  {
    if events == [] then s else Applied(Step(s, events[0]), events[1..])
  }

  /** The data after jobs that are written or not, where those that throw or are not written change nothing. */
  function Outcome<D>(memory: D, jobs: seq<Job<D>>, written: seq<bool>): D
    requires |jobs| == |written|
  {
    if jobs == [] then memory
    else
      var after := match jobs[0].mutation(memory) case Some(next) => (if written[0] then next else memory) case None => memory;
      Outcome(after, jobs[1..], written[1..])
  }

  function CarryAll<D>(written: seq<bool>): seq<Event<D>> {
    if written == [] then [] else Carry(written[0]) + CarryAll(written[1..])
  }

  lemma {:induction false} AppliedAppend<D>(s: Store<D>, a: seq<Event<D>>, b: seq<Event<D>>)
    ensures Applied(s, a + b) == Applied(Applied(s, a), b)
    decreases |a|
  {
    if a == [] {
      assert a + b == b;
    } else {
      assert (a + b)[1..] == a[1..] + b;
      AppliedAppend(Step(s, a[0]), a[1..], b);
    }
  }

  lemma CarryHead<D>(s: Store<D>, written: bool)
    requires s.phase.Idle? && s.queue != [] && s.memory == s.disk
    ensures var after := Applied(s, Carry(written));
      && after.phase.Idle? && after.queue == s.queue[1..]
      && after.memory == after.disk
      && after.memory == match s.queue[0].mutation(s.memory)
                         case Some(next) => (if written then next else s.memory)
                         case None => s.memory
  {
    var e: seq<Event<D>> := Carry(written);
    var s1 := Step(s, e[0]);
    var s2 := Step(s1, e[1]);
    assert Applied(s, e) == Applied(s1, e[1..]) && e[1..][0] == e[1];
    assert Applied(s1, e[1..]) == Applied(s2, e[1..][1..]);
    if written {
      var last: seq<Event<D>> := [Publish];
      assert e[1..][1..] == last && last[1..] == [];
      assert Applied(s2, last) == Applied(Step(s2, Publish), []);
    } else {
      assert e[1..][1..] == [];
    }
  }

  /** Every queued job is carried out in turn; one that fails changes nothing and holds up none of those behind it. */
  lemma {:induction false} FailuresDoNotBlock<D>(s: Store<D>, written: seq<bool>)
    requires s.phase.Idle? && s.memory == s.disk && |written| == |s.queue|
    ensures var after := Applied(s, CarryAll(written));
      && after.queue == [] && after.phase.Idle?
      && after.memory == after.disk == Outcome(s.memory, s.queue, written)
    decreases |s.queue|
  {
    if s.queue != [] {
      var first, rest := Carry<D>(written[0]), CarryAll<D>(written[1..]);
      AppliedAppend(s, first, rest);
      CarryHead(s, written[0]);
      FailuresDoNotBlock(Applied(s, first), written[1..]);
    }
  }
}

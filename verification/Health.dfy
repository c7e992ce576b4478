/** The one atomic byte that tells the health endpoint how the process is doing. */
module ProcessHealthCell {
  datatype ProcessHealth = Healthy | Degraded | RuntimeFailed | StartupFailed
  type u8 = x: int | 0 <= x < 0x100

  function Encode(h: ProcessHealth): u8 {
    match h
    case Healthy => 0
    case Degraded => 1
    case RuntimeFailed => 2
    case StartupFailed => 3
  }

  function Decode(value: u8): ProcessHealth {
    if value == 0 then Healthy
    else if value == 1 then Degraded
    else if value == 2 then RuntimeFailed
    else StartupFailed
  }

  /** The codes are told apart, and a byte that is none of them reads as the worst state. */
  lemma DecodeEncode(h: ProcessHealth, value: u8)
    ensures Decode(Encode(h)) == h
    ensures Decode(value) == h <==> value == Encode(h) || (h.StartupFailed? && value > 3)
  {
    match h
    case Healthy =>
    case Degraded =>
    case RuntimeFailed =>
    case StartupFailed =>
  }

  /** What one operation does to the cell. */
  datatype Mark = Degrade | RuntimeFail | Store(h: ProcessHealth)

  /** Degrading is a compare-and-swap from Healthy; the others overwrite. */
  function AfterMark(cell: u8, m: Mark): u8 {
    match m
    case Degrade => if cell == Encode(Healthy) then Encode(Degraded) else cell
    case RuntimeFail => Encode(RuntimeFailed)
    case Store(h) => Encode(h)
  }

  function AfterMarks(cell: u8, marks: seq<Mark>): u8
    decreases |marks|
  {
    if marks == [] then cell else AfterMarks(AfterMark(cell, marks[0]), marks[1..])
  }

  /** The worst of some runtime failures. */
  function Join(marks: seq<Mark>): ProcessHealth {
    if RuntimeFail in marks then RuntimeFailed else if Degrade in marks then Degraded else Healthy
  }

  /** The runtime failures among some operations. */
  predicate OnlyFailures(marks: seq<Mark>) {
    forall m :: m in marks ==> !m.Store?
  }

  function Worse(a: ProcessHealth, b: ProcessHealth): ProcessHealth {
    if Encode(a) < Encode(b) then b else a
  }

  lemma {:induction false} FailuresJoin(cell: u8, marks: seq<Mark>)
    requires OnlyFailures(marks) && cell <= Encode(RuntimeFailed)
    ensures AfterMarks(cell, marks) == Encode(Worse(Decode(cell), Join(marks)))
    decreases |marks|
  {
    if marks != [] {
      FailuresJoin(AfterMark(cell, marks[0]), marks[1..]);
      assert marks == [marks[0]] + marks[1..];
    }
  }

  lemma {:induction false} AfterMarksAppend(cell: u8, a: seq<Mark>, b: seq<Mark>)
    ensures AfterMarks(cell, a + b) == AfterMarks(AfterMarks(cell, a), b)
    decreases |a|
  {
    if a == [] {
      assert a + b == b;
    } else {
      assert (a + b)[1..] == a[1..] + b;
      AfterMarksAppend(AfterMark(cell, a[0]), a[1..], b);
    }
  }

  lemma JoinAppend(a: seq<Mark>, b: seq<Mark>)
    ensures Join(a + b) == Worse(Join(a), Join(b))
  {}

  /** The store that ends the start-up forgets every earlier failure: the cell is the worst of all of them exactly
      when nothing before the store was worse than what came after. That the workers are started after it is
      therefore needed. */
  lemma StoreForgetsIff(initial: ProcessHealth, before: seq<Mark>, after: seq<Mark>)
    requires OnlyFailures(before) && OnlyFailures(after)
    ensures Decode(AfterMarks(Encode(initial), before + [Store(Healthy)] + after)) == Join(after)
    ensures Join(after) == Join(before + after) <==> Encode(Join(before)) <= Encode(Join(after))
  {
    AfterMarksAppend(Encode(initial), before + [Store(Healthy)], after);
    AfterMarksAppend(Encode(initial), before, [Store(Healthy)]);
    FailuresJoin(Encode(Healthy), after);
    JoinAppend(before, after);
  }

  /** A runtime failure reported before the start-up has ended makes the reported state better, not worse. */
  lemma RuntimeFailureWorsensIff(cell: u8)
    ensures Encode(Decode(AfterMark(cell, RuntimeFail))) >= Encode(Decode(cell)) <==> Decode(cell) != StartupFailed
  {}

  class ProcessHealthState {
    var state: u8

    constructor (initial: ProcessHealth)
      ensures Current() == initial
    {
      state := Encode(initial);
    }

    function Current(): ProcessHealth
      reads this
    {
      Decode(state)
    }

    method Set(next: ProcessHealth)
      modifies this
      ensures Current() == next && state == AfterMark(old(state), Store(next))
    {
      state := Encode(next);
    }

    method MarkDegraded()
      modifies this
      ensures state == AfterMark(old(state), Degrade)
      ensures Current() == if old(Current()).Healthy? then Degraded else old(Current())
    {
      if state == Encode(Healthy) {
        state := Encode(Degraded);
      }
    }

    method MarkRuntimeFailed()
      modifies this
      ensures state == AfterMark(old(state), RuntimeFail) && Current() == RuntimeFailed
    {
      Set(RuntimeFailed);
    }
  }
}

/** The five workers, their own status, and the supervisor that watches their tasks end. */
module WorkerHealth {
  import opened ProcessHealthCell

  datatype Worker = EventListener | Keeper | NotificationWorker | RefundWorker | ExpiryWorker
  datatype Criticality = Critical | NonCritical
  /** Healthy, Degraded and Disabled in the source; two are renamed here so as not to be confused with the cell's. */
  datatype WorkerStatus = Operating | Impaired | Disabled
  datatype Reason = RpcUnavailable | RetryBackoff | CircuitBreakerTripped | PanicRecovered
  datatype Lifecycle = Starting | Running | Exited | Panicked | Cancelled

  function CriticalityOf(w: Worker): Criticality {
    if w.Keeper? then Critical else NonCritical
  }

  function SuggestedStatus(reason: Reason): WorkerStatus {
    match reason
    case RpcUnavailable => Impaired
    case RetryBackoff => Impaired
    case CircuitBreakerTripped => Disabled
    case PanicRecovered => Disabled
  }

  /** Between which of its statements a worker is.
      Marking: its status is Impaired, the cell is not yet marked.
      Returning: the cell is marked, its status is about to change.
      Ended: its task is over, the supervisor has not recorded it yet. */
  datatype Phase = Unborn | Spawned | Idle | Marking | Returning(to: WorkerStatus) | Ended | Recorded

  datatype State = State(
    cell: u8, phase: map<Worker, Phase>, status: map<Worker, WorkerStatus>, lifecycle: map<Worker, Lifecycle>)

  datatype Step =
    | Spawn(w: Worker)
    | Begin(w: Worker)
    | TurnDegraded(w: Worker)
    | MarkCell(w: Worker)
    | TurnHealthy(w: Worker)
    | TripBreaker
    | ReportFailure(w: Worker, reason: Reason)
    | QueryFails(w: Worker, reason: Reason)
    | CycleEnds(w: Worker)
    | Return(w: Worker)
    | End(w: Worker, how: Lifecycle)
    | Record(w: Worker)

  /** The cell has been set to Healthy and no worker is started yet. */
  const BOOTED := State(Encode(Healthy), map w | w in Workers() :: Unborn, map w | w in Workers() :: Operating, map[])

  function Workers(): set<Worker> {
    {EventListener, Keeper, NotificationWorker, RefundWorker, ExpiryWorker}
  }

  predicate Reconnecting(w: Worker) {
    w.EventListener? || w.NotificationWorker?
  }

  predicate Cyclic(w: Worker) {
    w.RefundWorker? || w.ExpiryWorker?
  }

  predicate Idles(s: State, w: Worker) {
    w in s.phase && w in s.status && s.phase[w].Idle?
  }

  /** A worker that has been disabled skips its cycles. The two batch workers give only these two reasons. */
  predicate Enabled(s: State, step: Step) {
    match step
    case Spawn(w) => w in s.phase && s.phase[w].Unborn?
    case Begin(w) => w in s.phase && s.phase[w].Spawned?
    case TurnDegraded(w) => Reconnecting(w) && Idles(s, w)
    case MarkCell(w) => w in s.phase && s.phase[w].Marking?
    case TurnHealthy(w) => Reconnecting(w) && Idles(s, w)
    case TripBreaker => Idles(s, Keeper) && !s.status[Keeper].Disabled?
    case ReportFailure(w, reason) => Cyclic(w) && Idles(s, w) && !s.status[w].Disabled? && reason.RetryBackoff?
    case QueryFails(w, reason) => Cyclic(w) && Idles(s, w) && !s.status[w].Disabled? && reason.RpcUnavailable?
    case CycleEnds(w) => (Cyclic(w) || w.Keeper?) && Idles(s, w) && !s.status[w].Disabled?
    case Return(w) => w in s.phase && s.phase[w].Returning?
    case End(w, how) =>
      && w in s.phase && !s.phase[w].Unborn? && !s.phase[w].Spawned? && !s.phase[w].Ended? && !s.phase[w].Recorded?
      && (how.Exited? || how.Panicked? || how.Cancelled?)
    case Record(w) => w in s.phase && s.phase[w].Ended?
  }

  /** What the step does to the cell, if anything. */
  function MarkOf(step: Step): seq<Mark> {
    match step
    case MarkCell(_) => [Degrade]
    case TripBreaker => [Degrade]
    case ReportFailure(_, reason) => if SuggestedStatus(reason).Impaired? then [Degrade] else []
    case QueryFails(_, reason) => if SuggestedStatus(reason).Impaired? then [Degrade] else []
    case Record(w) => [if CriticalityOf(w).Critical? then RuntimeFail else Degrade]
    case _ => []
  }

  function Apply(s: State, step: Step): State
    requires Enabled(s, step)
  {
    var s1 := s.(cell := AfterMarks(s.cell, MarkOf(step)));
    match step
    case Spawn(w) => s1.(phase := s.phase[w := Spawned], lifecycle := s.lifecycle[w := Starting])
    case Begin(w) => s1.(phase := s.phase[w := Idle], lifecycle := s.lifecycle[w := Running])
    case TurnDegraded(w) =>
      if s.status[w].Impaired? then s1 else s1.(phase := s.phase[w := Marking], status := s.status[w := Impaired])
    case MarkCell(w) => s1.(phase := s.phase[w := Idle])
    case TurnHealthy(w) => s1.(status := s.status[w := Operating])
    case TripBreaker => s1.(phase := s.phase[Keeper := Returning(SuggestedStatus(CircuitBreakerTripped))])
    case ReportFailure(_, _) => s1
    case QueryFails(w, reason) => s1.(phase := s.phase[w := Returning(SuggestedStatus(reason))])
    case CycleEnds(w) => s1.(status := s.status[w := Operating])
    case Return(w) => s1.(phase := s.phase[w := Idle], status := s.status[w := s.phase[w].to])
    case End(w, how) => s1.(phase := s.phase[w := Ended], lifecycle := s.lifecycle[w := how])
    case Record(w) => s1.(phase := s.phase[w := Recorded])
  }

  ghost predicate Legal(s: State, run: seq<Step>)
    decreases |run|
  {
    run == [] || (Enabled(s, run[0]) && Legal(Apply(s, run[0]), run[1..]))
  }

  ghost function Exec(s: State, run: seq<Step>): State
    requires Legal(s, run)
    decreases |run|
  {
    if run == [] then s else Exec(Apply(s, run[0]), run[1..])
  }

  function MarksOf(run: seq<Step>): seq<Mark> {
    if run == [] then [] else MarkOf(run[0]) + MarksOf(run[1..])
  }

  lemma {:induction false} CellAfterRun(s: State, run: seq<Step>)
    requires Legal(s, run)
    ensures Exec(s, run).cell == AfterMarks(s.cell, MarksOf(run)) && OnlyFailures(MarksOf(run))
    decreases |run|
  {
    if run != [] {
      CellAfterRun(Apply(s, run[0]), run[1..]);
      AfterMarksAppend(s.cell, MarkOf(run[0]), MarksOf(run[1..]));
    }
  }

  lemma MarkKinds(step: Step)
    ensures MarkOf(step) == [] || MarkOf(step) == [Degrade] || (MarkOf(step) == [RuntimeFail] && step == Record(Keeper))
    ensures RuntimeFail in MarkOf(Record(Keeper))
  {}

  lemma {:induction false} MarksMean(run: seq<Step>)
    ensures RuntimeFail in MarksOf(run) <==> Record(Keeper) in run
    ensures Join(MarksOf(run)).Healthy? <==> forall step :: step in run ==> MarkOf(step) == []
    ensures !Join(MarksOf(run)).StartupFailed?
  {
    if run != [] {
      MarkKinds(run[0]);
      MarksMean(run[1..]);
      assert run == [run[0]] + run[1..];
    }
  }

  /** The events after which the process is no longer reported as healthy. */
  predicate Reports(step: Step) {
    step.MarkCell? || step.TripBreaker? || step.ReportFailure? || step.QueryFails? || step.Record?
  }

  lemma {:induction false} ReportsMark(s: State, run: seq<Step>)
    requires Legal(s, run)
    ensures forall step :: step in run ==> (MarkOf(step) != [] <==> Reports(step))
    decreases |run|
  {
    if run != [] {
      ReportsMark(Apply(s, run[0]), run[1..]);
      assert forall step :: step in run ==> step == run[0] || step in run[1..];
    }
  }

  /** In every interleaving the cell is the worst of all that was reported, and what that means event by event:
      the end of the critical worker, or else any failure at all. */
  lemma HealthIsTheWorst(run: seq<Step>)
    requires Legal(BOOTED, run)
    ensures var h := Decode(Exec(BOOTED, run).cell);
            && h == Join(MarksOf(run))
            && (h == RuntimeFailed <==> Record(Keeper) in run)
            && (h == Healthy <==> forall step :: step in run ==>
                  !(step.MarkCell? || step.TripBreaker? || step.ReportFailure? || step.QueryFails? || step.Record?))
            && h != StartupFailed
  {
    ReportsMark(BOOTED, run);
    CellAfterRun(BOOTED, run);
    FailuresJoin(Encode(Healthy), MarksOf(run));
    MarksMean(run);
  }

  /** Two runs that report the same things, in whatever order and however often, end alike. */
  lemma OrderDoesNotMatter(run1: seq<Step>, run2: seq<Step>)
    requires Legal(BOOTED, run1) && Legal(BOOTED, run2)
    requires forall m :: m in MarksOf(run1) <==> m in MarksOf(run2)
    ensures Exec(BOOTED, run1).cell == Exec(BOOTED, run2).cell
  {
    CellAfterRun(BOOTED, run1);
    CellAfterRun(BOOTED, run2);
    FailuresJoin(Encode(Healthy), MarksOf(run1));
    FailuresJoin(Encode(Healthy), MarksOf(run2));
  }

  /** It never gets better. */
  lemma HealthNeverImproves(run: seq<Step>, more: seq<Step>)
    requires Legal(BOOTED, run) && Legal(Exec(BOOTED, run), more)
    ensures Exec(BOOTED, run).cell <= Exec(Exec(BOOTED, run), more).cell
  {
    CellAfterRun(BOOTED, run);
    CellAfterRun(Exec(BOOTED, run), more);
    FailuresJoin(Encode(Healthy), MarksOf(run));
    FailuresJoin(Exec(BOOTED, run).cell, MarksOf(more));
  }

  // ---------------------------------------------------------------- what the workers know of themselves

  /** A status other than Operating is backed by the cell, except between the two statements that change both. */
  ghost predicate Backed(s: State, w: Worker) {
    && w in s.phase && w in s.status
    && (s.status[w].Operating? || s.phase[w].Marking? || s.phase[w].Ended? || s.cell != Encode(Healthy))
    && (s.phase[w].Returning? ==> s.cell != Encode(Healthy))
    && (s.phase[w].Recorded? ==> s.cell != Encode(Healthy))
    && (w.Keeper? && s.phase[w].Recorded? ==> s.cell == Encode(RuntimeFailed))
    && (s.phase[w].Ended? || s.phase[w].Recorded? <==>
          w in s.lifecycle && (s.lifecycle[w].Exited? || s.lifecycle[w].Panicked? || s.lifecycle[w].Cancelled?))
  }

  ghost predicate Inv(s: State) {
    s.cell <= Encode(RuntimeFailed) && forall w: Worker :: Backed(s, w)
  }

  lemma MarkRaises(cell: u8, step: Step)
    requires cell <= Encode(RuntimeFailed)
    ensures var after := AfterMarks(cell, MarkOf(step));
            && cell <= after <= Encode(RuntimeFailed)
            && (MarkOf(step) != [] ==> after != Encode(Healthy))
            && (step == Record(Keeper) ==> after == Encode(RuntimeFailed))
  {
    var ms := MarkOf(step);
    assert ms == [] || ms == [ms[0]];
    if ms != [] {
      assert AfterMarks(AfterMark(cell, ms[0]), ms[1..]) == AfterMark(cell, ms[0]);
    }
  }

  lemma InvStep(s: State, step: Step)
    requires Inv(s) && Enabled(s, step)
    ensures Inv(Apply(s, step))
  {
    MarkRaises(s.cell, step);
    forall w: Worker ensures Backed(Apply(s, step), w) {
      assert Backed(s, w);
    }
  }

  lemma {:induction false} InvRun(s: State, run: seq<Step>)
    requires Inv(s) && Legal(s, run)
    ensures Inv(Exec(s, run))
    decreases |run|
  {
    if run != [] {
      InvStep(s, run[0]);
      InvRun(Apply(s, run[0]), run[1..]);
    }
  }

  /** A worker that is between two cycles and knows itself impaired or disabled is never reported as healthy, although
      it does not mark the cell again while it stays so; a task that ended is known once the supervisor recorded it. */
  lemma ImpairedIsReported(run: seq<Step>, w: Worker)
    requires Legal(BOOTED, run)
    ensures var s := Exec(BOOTED, run);
            && w in s.phase && w in s.status
            && (s.phase[w].Idle? && !s.status[w].Operating? ==> Decode(s.cell) != Healthy)
            && (s.phase[w].Recorded? ==> Decode(s.cell) != Healthy && (w.Keeper? ==> Decode(s.cell) == RuntimeFailed))
  {
    assert Inv(BOOTED) by {
      forall w: Worker ensures Backed(BOOTED, w) {
        assert w.EventListener? || w.Keeper? || w.NotificationWorker? || w.RefundWorker? || w.ExpiryWorker?;
        assert w in Workers();
      }
    }
    InvRun(BOOTED, run);
    assert Backed(Exec(BOOTED, run), w);
  }

  /** That a worker has recovered is not reported: the worker is back at work and the process stays degraded. */
  lemma RecoveryIsNotReported(w: Worker)
    requires w.EventListener? || w.NotificationWorker?
    ensures var run := [Spawn(w), Begin(w), TurnDegraded(w), MarkCell(w), TurnHealthy(w)];
            && Legal(BOOTED, run)
            && Exec(BOOTED, run).status == BOOTED.status && Decode(Exec(BOOTED, run).cell) == Degraded
            && Exec(BOOTED, run).lifecycle == map[w := Running]
  {
    assert w in Workers();
    var s1 := Apply(BOOTED, Spawn(w));
    var s2 := Apply(s1, Begin(w));
    DegradesAndRecovers(s2, w);
    Prepend(s1, Begin(w), [TurnDegraded(w), MarkCell(w), TurnHealthy(w)]);
    Prepend(BOOTED, Spawn(w), [Begin(w), TurnDegraded(w), MarkCell(w), TurnHealthy(w)]);
  }

  lemma DegradesAndRecovers(s: State, w: Worker)
    requires Reconnecting(w) && Idles(s, w) && s.status[w].Operating? && Decode(s.cell) == Healthy
    ensures var run := [TurnDegraded(w), MarkCell(w), TurnHealthy(w)];
            && Legal(s, run) && Exec(s, run).status == s.status && Exec(s, run).lifecycle == s.lifecycle
            && Decode(Exec(s, run).cell) == Degraded
  {
    var s1 := Apply(s, TurnDegraded(w));
    var s2 := Apply(s1, MarkCell(w));
    assert s2.cell == Encode(Degraded) by {
      assert AfterMarks(s1.cell, [Degrade]) == AfterMarks(AfterMark(s1.cell, Degrade), []);
    }
    assert Apply(s2, TurnHealthy(w)).status == s.status;
    Prepend(s2, TurnHealthy(w), []);
    Prepend(s1, MarkCell(w), [TurnHealthy(w)]);
    Prepend(s, TurnDegraded(w), [MarkCell(w), TurnHealthy(w)]);
  }

  lemma Prepend(s: State, step: Step, rest: seq<Step>)
    requires Enabled(s, step) && Legal(Apply(s, step), rest)
    ensures Legal(s, [step] + rest) && Exec(s, [step] + rest) == Exec(Apply(s, step), rest)
  {
    assert ([step] + rest)[1..] == rest;
  }
}

/** The statements of the workers on their status and on the shared cell. */
module HealthHandlers {
  import opened Common
  import opened ProcessHealthCell
  import opened WorkerHealth

  lemma OneStep(s: State, x: Step)
    requires Enabled(s, x)
    ensures Legal(s, [x]) && Exec(s, [x]) == Apply(s, x)
  {
    assert [x][1..] == [];
    assert Legal(Apply(s, x), []);
    assert Exec(s, [x]) == Exec(Apply(s, x), [x][1..]);
  }

  lemma TwoSteps(s: State, x: Step, y: Step)
    requires Enabled(s, x) && Enabled(Apply(s, x), y)
    ensures Legal(s, [x, y]) && Exec(s, [x, y]) == Apply(Apply(s, x), y)
  {
    assert [x, y][1..] == [y];
    OneStep(Apply(s, x), y);
  }

  lemma OneMark(cell: u8, m: Mark)
    ensures AfterMarks(cell, [m]) == AfterMark(cell, m)
  {
    assert [m][1..] == [];
  }

  /** Entering degraded mode is a run of the protocol. */
  lemma DegradingIsARun(s: State, w: Worker) returns (run: seq<Step>)
    requires Reconnecting(w) && Idles(s, w)
    ensures Legal(s, run) && Idles(Exec(s, run), w) && Exec(s, run).status[w].Impaired?
    ensures Exec(s, run).cell == if s.status[w].Impaired? then s.cell else AfterMark(s.cell, Degrade)
    ensures run != [] && (s.status[w].Impaired? ==> Exec(s, run) == s)
  {
    if s.status[w].Impaired? {
      run := [TurnDegraded(w)];
      OneStep(s, TurnDegraded(w));
      assert AfterMarks(s.cell, []) == s.cell;
    } else {
      run := [TurnDegraded(w), MarkCell(w)];
      TwoSteps(s, TurnDegraded(w), MarkCell(w));
      OneMark(s.cell, Degrade);
    }
  }

  /** So is a tripped circuit breaker. */
  lemma TrippingIsARun(s: State) returns (run: seq<Step>)
    requires Idles(s, Keeper) && !s.status[Keeper].Disabled?
    ensures Legal(s, run) && Idles(Exec(s, run), Keeper) && Exec(s, run).status[Keeper].Disabled?
    ensures Exec(s, run).cell == AfterMark(s.cell, Degrade)
  {
    run := [TripBreaker, Return(Keeper)];
    TwoSteps(s, TripBreaker, Return(Keeper));
    OneMark(s.cell, Degrade);
  }

  /** So are the ways in which a batch worker that is not disabled ends its cycle: a query that fails impairs it, a
      refund that fails is only reported, and a cycle that ends well puts it back to work. */
  lemma CyclesAreRuns(s: State, w: Worker)
    requires (w.RefundWorker? || w.ExpiryWorker?) && Idles(s, w) && !s.status[w].Disabled?
    ensures var fails := [QueryFails(w, RpcUnavailable), Return(w)];
            && Legal(s, fails) && Idles(Exec(s, fails), w) && Exec(s, fails).status == s.status[w := Impaired]
            && Exec(s, fails).cell == AfterMark(s.cell, Degrade)
    ensures var reports := [ReportFailure(w, RetryBackoff)];
            Legal(s, reports) && Exec(s, reports) == s.(cell := AfterMark(s.cell, Degrade))
    ensures var ends := [CycleEnds(w)];
            Legal(s, ends) && Exec(s, ends) == s.(status := s.status[w := Operating])
  {
    TwoSteps(s, QueryFails(w, RpcUnavailable), Return(w));
    OneStep(s, ReportFailure(w, RetryBackoff));
    OneStep(s, CycleEnds(w));
    OneMark(s.cell, Degrade);
    assert AfterMarks(s.cell, []) == s.cell;
  }

  /** And so is the end of a task, as the supervisor sees it. */
  lemma EndingIsARun(s: State, w: Worker, how: Lifecycle) returns (run: seq<Step>)
    requires w in s.phase && (s.phase[w].Idle? || s.phase[w].Marking? || s.phase[w].Returning?)
    requires how.Exited? || how.Panicked? || how.Cancelled?
    ensures Legal(s, run) && w in Exec(s, run).lifecycle && Exec(s, run).lifecycle[w] == how
    ensures w in Exec(s, run).phase && Exec(s, run).phase[w].Recorded?
    ensures Exec(s, run).cell == AfterMarks(s.cell, MarkOf(Record(w)))
  {
    run := [End(w, how), Record(w)];
    TwoSteps(s, End(w, how), Record(w));
  }

  /** And so is its whole life, when the worker between its start and its end is left out. */
  lemma SupervisingIsARun(s: State, w: Worker, how: Lifecycle) returns (run: seq<Step>)
    requires w in s.phase && s.phase[w].Unborn? && (how.Exited? || how.Panicked? || how.Cancelled?)
    ensures Legal(s, run) && w in Exec(s, run).lifecycle && Exec(s, run).lifecycle[w] == how
    ensures Exec(s, run).cell == AfterMarks(s.cell, MarkOf(Record(w)))
  {
    var s1 := Apply(s, Spawn(w));
    var s2 := Apply(s1, Begin(w));
    run := EndingIsARun(s2, w, how);
    Prepend(s1, Begin(w), run);
    run := [Begin(w)] + run;
    Prepend(s, Spawn(w), run);
    run := [Spawn(w)] + run;
  }

  method TransitionToDegraded(status: WorkerStatus, health: ProcessHealthState) returns (next: WorkerStatus)
    modifies health
    ensures next.Impaired?
    ensures health.state == if status.Impaired? then old(health.state) else AfterMark(old(health.state), Degrade)
    ensures health.Current() == if status != Impaired && old(health.Current()) == Healthy then Degraded
                                else old(health.Current())
  {
    if status.Impaired? {
      return status;
    }
    next := Impaired;
    health.MarkDegraded();
  }

  method StatusForReason(reason: Reason, health: ProcessHealthState) returns (status: WorkerStatus)
    modifies health
    ensures status == if reason == RpcUnavailable || reason == RetryBackoff then Impaired else Disabled
    ensures health.state == if status.Impaired? then AfterMark(old(health.state), Degrade) else old(health.state)
    ensures status.Impaired? ==> health.Current() != Healthy
  {
    status := SuggestedStatus(reason);
    if status.Impaired? {
      health.MarkDegraded();
    }
  }

  function CircuitBreakerStatus(vaultSol: real, minimum: real): Option<(WorkerStatus, Reason)> {
    if vaultSol < minimum then Some((SuggestedStatus(CircuitBreakerTripped), CircuitBreakerTripped)) else None
  }

  const LAMPORTS := 1_000_000_000.0

  /** The balance in SOL as the source computes it, in floats. */
  function VaultSol(balance: nat, round: real -> real): real {
    round(round(balance as real) / LAMPORTS)
  }

  /** Rounding to a 64-bit float matters here only in that it keeps the order. For a threshold that is a float, the
      breaker trips exactly when the balance as a float is below the threshold and its quotient in SOL does not round
      up to the threshold itself. */
  lemma BreakerTripsIff(balance: nat, minimum: real, round: real -> real)
    requires round(minimum) == minimum
    requires forall x: real, y: real :: x <= y ==> round(x) <= round(y)
    ensures VaultSol(balance, round) < minimum <==>
            && round(balance as real) < minimum * 1_000_000_000.0
            && round(round(balance as real) / 1_000_000_000.0) != minimum
  {
    var lamports := round(balance as real);
    var sol := lamports / LAMPORTS;
    assert sol < minimum <==> lamports < minimum * LAMPORTS by {
      assert sol * LAMPORTS == lamports;
    }
    assert sol >= minimum ==> round(sol) >= round(minimum);
    assert sol <= minimum ==> round(sol) <= round(minimum);
  }

  /** The part of check_hot_wallet_balances that decides the keeper's status; balance is None when the chain could
      not be asked. */
  method CheckHotWalletBalances(balance: Option<nat>, minimum: real, round: real -> real, health: ProcessHealthState)
    returns (status: WorkerStatus)
    modifies health
    ensures status.Disabled? <==>
              balance.Some? && round(round(balance.value as real) / 1_000_000_000.0) < minimum
    ensures !status.Disabled? ==> status.Operating? && health.state == old(health.state)
    ensures status.Disabled? ==>
              health.Current() == if old(health.Current()) == Healthy then Degraded else old(health.Current())
  {
    if balance.None? {
      return Operating;
    }
    var vaultSol := round(round(balance.value as real) / LAMPORTS);
    var tripped := CircuitBreakerStatus(vaultSol, minimum);
    if tripped.Some? {
      health.MarkDegraded();
      return tripped.value.0;
    }
    return Operating;
  }

  class WorkerSupervisor {
    var lifecycle: map<Worker, Lifecycle>

    constructor ()
      ensures lifecycle == map[]
    {
      lifecycle := map[];
    }

    function LifecycleOf(w: Worker): Option<Lifecycle>
      reads this
    {
      if w in lifecycle then Some(lifecycle[w]) else None
    }

    method RecordRuntimeFailure(w: Worker, health: ProcessHealthState)
      modifies health
      ensures health.state == AfterMarks(old(health.state), MarkOf(Record(w)))
      ensures health.Current() == if w == Keeper then RuntimeFailed
                                  else if old(health.Current()) == Healthy then Degraded else old(health.Current())
    {
      assert MarkOf(Record(w))[1..] == [];
      match CriticalityOf(w) {
        case NonCritical => health.MarkDegraded();
        case Critical => health.MarkRuntimeFailed();
      }
    }

    /** A worker's task from start to end, as the supervisor sees it. */
    method Spawn(w: Worker, how: Lifecycle, health: ProcessHealthState)
      requires how.Exited? || how.Panicked? || how.Cancelled?
      modifies this, health
      ensures lifecycle == old(lifecycle)[w := how] && LifecycleOf(w) == Some(how)
      ensures health.state == AfterMarks(old(health.state), MarkOf(Record(w)))
    {
      lifecycle := lifecycle[w := Starting];
      lifecycle := lifecycle[w := Running];
      lifecycle := lifecycle[w := how];
      RecordRuntimeFailure(w, health);
    }
  }
}

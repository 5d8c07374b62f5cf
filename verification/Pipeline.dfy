/**
  The partition pipeline with a fixed set of datasets: the upstream half and one sink that tracks its
  deliveries with the delivery tracker and reports contiguous prefixes.
 */
module Pipeline {
  import opened Common
  import opened PipelineFront
  import DT = DeliveryTracking

  datatype Sink = Sink(run: DT.Run, reporting: Option<nat>, orderViolation: bool)

  datatype State = State(front: Front, sink: Sink)

  datatype Step = Up(step: FrontStep) | Sunk(sink: SinkStep)

  datatype SinkStep =
    | SinkAccepts(units: nat)
    | SinkCompletes(id: nat, units: nat)
    | SinkTakes
    | SinkReports

  ghost predicate Init(s: State) {
    FrontInit(s.front) && !s.front.evolving && s.sink == Sink(DT.RunOf([]), None, false)
  }

  predicate SinkEnabled(s: State, step: SinkStep) {
    && !s.front.sinkStopped
    && match step
       case SinkAccepts(_) => s.front.queues.deliveries != []
       case SinkCompletes(id, units) => DT.Complete(s.sink.run.tracker, id, units).Ok?
       case SinkTakes => s.sink.reporting.None?
       case SinkReports => s.sink.reporting.Some? && CanReceive(s.front)
  }

  function AcceptDelivery(s: State, units: nat): State
    requires SinkEnabled(s, SinkAccepts(units))
  {
    var delivery := s.front.queues.deliveries[0];
    if DT.Accept(s.sink.run.tracker, delivery.id, units, delivery.messages).Err? then
      State(s.front.(sinkStopped := true), s.sink.(orderViolation := true))
    else
      State(TakeDelivery(s.front),
            s.sink.(run := DT.Apply(s.sink.run, DT.OpAccept(delivery.id, units, delivery.messages))))
  }

  function TakeReport(sink: Sink): Sink {
    var report := DT.Take(sink.run.tracker).1;
    sink.(run := DT.Apply(sink.run, DT.OpTake),
          reporting := if report.None? then None else Some(report.value.through))
  }

  function SinkNext(s: State, step: SinkStep): State
    requires SinkEnabled(s, step)
  {
    match step
    case SinkAccepts(units) => AcceptDelivery(s, units)
    case SinkCompletes(id, units) => s.(sink := s.sink.(run := DT.Apply(s.sink.run, DT.OpComplete(id, units))))
    case SinkTakes => s.(sink := TakeReport(s.sink))
    case SinkReports => State(SendEvent(s.front, s.sink.reporting.value), s.sink.(reporting := None))
  }

  predicate Enabled(s: State, step: Step) {
    match step
    case Up(up) => FrontEnabled(s.front, up)
    case Sunk(sink) => SinkEnabled(s, sink)
  }

  ghost function Next(s: State, step: Step): State
    requires Enabled(s, step)
  {
    match step
    case Up(up) => s.(front := FrontNext(s.front, up))
    case Sunk(sink) => SinkNext(s, sink)
  }

  /** `trace` is a run: it starts in an initial state and every state follows by an enabled step. */
  ghost predicate IsRun(trace: seq<State>, steps: seq<Step>) {
    && |trace| == |steps| + 1
    && Init(trace[0])
    && forall i | 0 <= i < |steps| :: Enabled(trace[i], steps[i]) && trace[i + 1] == Next(trace[i], steps[i])
  }
}

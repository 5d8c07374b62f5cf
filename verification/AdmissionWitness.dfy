/** Runs of the admission barrier in which a promise one might expect of it fails. */
module AdmissionWitness {
  import opened Common
  import opened Admission
  import opened AdmissionEvents

  ghost predicate Reachable(s: State) {
    exists trace, steps :: IsRun(trace, steps) && trace[|steps|] == s
  }

  lemma ReachableNext(s: State, step: Step)
    requires Reachable(s) && Enabled(s, step)
    ensures Reachable(Next(s, step))
  {
    var trace, steps :| IsRun(trace, steps) && trace[|steps|] == s;
    var longer, more := trace + [Next(s, step)], steps + [step];
    assert IsRun(longer, more) && longer[|more|] == Next(s, step);
  }

  /** A fresh coordinator whose catalog already has the delivery's datasets. */
  function Fresh(catalog: set<Name>): State {
    State(false, Opening(None), catalog, SinkState(false, [], 0, 0, catalog), false, false, [], [], [])
  }

  /** A session is open and the delivery has been taken from the input. */
  function Offered(delivery: Delivery): State {
    Fresh(delivery.datasets).(phase := Offering(delivery), consumed := [Data(delivery)],
                              sink := SinkState(true, [], 0, 0, delivery.datasets))
  }

  lemma OfferedIsReachable(delivery: Delivery)
    ensures Reachable(Offered(delivery))
  {
    var s0 := Fresh(delivery.datasets);
    var none: seq<Step> := [];
    assert IsRun([s0], none) && [s0][|none|] == s0;
    ReachableNext(s0, OpenSession);
    var s1 := s0.(phase := Listening, sink := s0.sink.(session := true));
    assert Elements<Name>([]) == {} == delivery.datasets - s1.catalog;
    ReachableNext(s1, Receive(Data(delivery), Ok([])));
    assert [] + [Data(delivery)] == [Data(delivery)];
  }

  /** A sink that closes its input early and then ends its session well: the run ends well, uncancelled,
      and the delivery it was offered, whatever it is, never entered a session. */
  lemma RefusedDeliveryIsDropped(delivery: Delivery)
    ensures exists trace: seq<State>, steps: seq<Step> ::
              && IsRun(trace, steps)
              && trace[|steps|].phase == Stopped(Completed) && !trace[|steps|].cancelled
              && DataOf(trace[|steps|].consumed) == [delivery] && trace[|steps|].sink.entered == []
  {
    OfferedIsReachable(delivery);
    var s2 := Offered(delivery);
    ReachableNext(s2, OfferRefused);
    var s3 := s2.(phase := Closing(NoBarrier), lost := true, refused := true);
    ReachableNext(s3, SessionEnds(true));
    var s4 := s3.(phase := Checking(NoBarrier), sink := s3.sink.(session := false));
    ReachableNext(s4, Check);
    var trace: seq<State>, steps: seq<Step> :| IsRun(trace, steps) && trace[|steps|] == s4.(phase := Stopped(Completed));
    ConsumeOne([], Data(delivery));
    assert [] + [Data(delivery)] == [Data(delivery)];
    assert DataOf(trace[|steps|].consumed) == [delivery];
  }

  /** The delivery is in a session and written, but not reported. */
  function Written(delivery: Delivery): State {
    var s := Offered(delivery);
    s.(phase := Listening, sink := s.sink.(entered := [delivery], durable := 1))
  }

  /** The same when a new dataset arrives. */
  function Unreported(delivery: Delivery, id: nat, dataset: Name): State {
    Written(delivery).(phase := Closing(SourceBarrier(id, dataset)),
                       consumed := [Data(delivery), Dataset(id, dataset)])
  }

  lemma UnreportedIsReachable(delivery: Delivery, id: nat, dataset: Name)
    ensures Reachable(Unreported(delivery, id, dataset))
  {
    OfferedIsReachable(delivery);
    var s2 := Offered(delivery);
    ReachableNext(s2, Offer);
    var s3 := s2.(phase := Listening, sink := s2.sink.(entered := [delivery]));
    assert [] + [delivery] == [delivery];
    assert Next(s2, Offer) == s3;
    ReachableNext(s3, SinkWrites(1));
    var s4 := Written(delivery);
    ReachableNext(s4, Receive(Dataset(id, dataset), Ok([])));
    assert [Data(delivery)] + [Dataset(id, dataset)] == [Data(delivery), Dataset(id, dataset)];
    assert Next(s4, Receive(Dataset(id, dataset), Ok([]))) == Unreported(delivery, id, dataset);
  }

  /** The same, after the session drained, the dataset was installed and is about to be acknowledged. */
  function Unacknowledged(delivery: Delivery, id: nat, dataset: Name): State {
    var s := Unreported(delivery, id, dataset);
    var catalog := s.catalog + {dataset};
    s.(phase := Acknowledging(id, dataset), catalog := catalog, sink := s.sink.(session := false, installed := catalog))
  }

  lemma UnacknowledgedIsReachable(delivery: Delivery, id: nat, dataset: Name)
    ensures Reachable(Unacknowledged(delivery, id, dataset))
  {
    UnreportedIsReachable(delivery, id, dataset);
    var s5 := Unreported(delivery, id, dataset);
    ReachableNext(s5, SessionEnds(true));
    var s6 := s5.(phase := Checking(SourceBarrier(id, dataset)), sink := s5.sink.(session := false));
    ReachableNext(s6, Check);
    var s7 := s6.(phase := PreparingSource(id, dataset));
    ReachableNext(s7, Prepare(true));
    var s8 := s7.(phase := InstallingSource(id, dataset), catalog := s7.catalog + {dataset});
    ReachableNext(s8, Install(true));
    var s9 := s8.(phase := AckChecking(id, dataset), sink := s8.sink.(installed := s8.catalog));
    ReachableNext(s9, Check);
  }

  /** The dataset has been acknowledged. */
  function Acknowledged(delivery: Delivery, id: nat, dataset: Name): State {
    Unacknowledged(delivery, id, dataset).(phase := Opening(None), acked := [id], events := [id])
  }

  /** A session may drain without reporting: the contract asks no more. Then a dataset is acknowledged
      before the delivery ahead of it is reported, and the reader gets the two ids in the wrong order. */
  lemma DrainWithoutReportBreaksOrder(delivery: Delivery, id: nat, dataset: Name)
    requires delivery.id < id
    ensures exists trace: seq<State>, steps: seq<Step> ::
              && IsRun(trace, steps) && IdsIncrease(trace[|steps|].consumed)
              && trace[|steps|].events == [id, delivery.id]
  {
    UnacknowledgedIsReachable(delivery, id, dataset);
    var s10 := Unacknowledged(delivery, id, dataset);
    ReachableNext(s10, Acknowledge(true));
    var s11 := Acknowledged(delivery, id, dataset);
    assert [] + [id] == [id];
    assert Next(s10, Acknowledge(true)) == s11;
    ReachableNext(s11, OpenSession);
    var s12 := s11.(phase := Listening, sink := s11.sink.(session := true));
    ReachableNext(s12, SinkReports(1));
    assert [id] + [delivery.id] == [id, delivery.id];
    var trace: seq<State>, steps: seq<Step> :| IsRun(trace, steps) && trace[|steps|] == Next(s12, SinkReports(1));
    assert trace[|steps|].events == [id, delivery.id];
  }
}

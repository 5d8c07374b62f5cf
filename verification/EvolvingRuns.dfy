/** Runs of the evolving pipeline put together step by step, one half at a time. */
module EvolvingRuns {
  import opened Common
  import opened PipelineFront
  import opened EvolvingPipeline
  import AD = Admission

  /** Some path goes from `origin` to `s`. */
  ghost predicate Leads(origin: State, s: State) {
    exists trace, steps :: IsPath(trace, steps) && trace[0] == origin && trace[|steps|] == s
  }

  lemma LeadsToItself(s: State)
    ensures Leads(s, s)
  {
    var none: seq<Step> := [];
    assert IsPath([s], none) && [s][|none|] == s;
  }

  lemma PathTakes(trace: seq<State>, steps: seq<Step>, step: Step)
    requires IsPath(trace, steps) && Enabled(trace[|steps|], step)
    ensures IsPath(trace + [Next(trace[|steps|], step)], steps + [step])
  {
  }

  lemma LeadsNext(origin: State, s: State, step: Step)
    requires Leads(origin, s) && Enabled(s, step)
    ensures Leads(origin, Next(s, step))
  {
    var trace, steps :| IsPath(trace, steps) && trace[0] == origin && trace[|steps|] == s;
    PathTakes(trace, steps, step);
    var longer, more := trace + [Next(s, step)], steps + [step];
    assert longer[0] == origin && longer[|more|] == Next(s, step);
  }

  lemma JoinedStep(trace: seq<State>, steps: seq<Step>, path: seq<State>, onward: seq<Step>, i: nat)
    requires IsPath(trace, steps) && IsPath(path, onward) && path[0] == trace[|steps|] && i < |steps + onward|
    ensures var longer, more := trace + path[1..], steps + onward;
            Enabled(longer[i], more[i]) && longer[i + 1] == Next(longer[i], more[i])
  {
    var longer, more := trace + path[1..], steps + onward;
    if i < |steps| {
      assert longer[i] == trace[i] && longer[i + 1] == trace[i + 1] && more[i] == steps[i];
    } else {
      var k := i - |steps|;
      assert longer[i] == path[k] && longer[i + 1] == path[k + 1] && more[i] == onward[k];
    }
  }

  lemma PathsJoin(trace: seq<State>, steps: seq<Step>, path: seq<State>, onward: seq<Step>)
    requires IsPath(trace, steps) && IsPath(path, onward) && path[0] == trace[|steps|]
    ensures IsPath(trace + path[1..], steps + onward)
  {
    var longer, more := trace + path[1..], steps + onward;
    forall i | 0 <= i < |more|
      ensures Enabled(longer[i], more[i]) && longer[i + 1] == Next(longer[i], more[i])
    {
      JoinedStep(trace, steps, path, onward, i);
    }
  }

  /** A run goes on along a path from its last state. */
  lemma RunGoesOn(trace: seq<State>, steps: seq<Step>, s: State)
    requires IsRun(trace, steps) && Leads(trace[|steps|], s)
    ensures exists longer, more :: IsRun(longer, more) && trace <= longer && steps <= more && longer[|more|] == s
  {
    var path, onward :| IsPath(path, onward) && path[0] == trace[|steps|] && path[|onward|] == s;
    PathsJoin(trace, steps, path, onward);
    var longer, more := trace + path[1..], steps + onward;
    assert IsRun(longer, more) && longer[|more|] == s;
  }

  /** A run that ends with a given step. */
  lemma RunTakes(trace: seq<State>, steps: seq<Step>, step: Step)
    requires IsRun(trace, steps) && Enabled(trace[|steps|], step)
    ensures exists longer, more ::
              IsRun(longer, more) && more != [] && more[|more| - 1] == step && longer[|more|] == Next(trace[|steps|], step)
  {
    PathTakes(trace, steps, step);
    var longer, more := trace + [Next(trace[|steps|], step)], steps + [step];
    assert IsRun(longer, more) && more[|more| - 1] == step && longer[|more|] == Next(trace[|steps|], step);
  }

  lemma UpStep(origin: State, front: Front, up: FrontStep, after: Front, back: AD.State)
    requires Leads(origin, State(front, back)) && !up.Environment?
    requires FrontEnabled(front, up) && FrontNext(front, up) == after
    ensures Leads(origin, State(after, back))
  {
    LeadsNext(origin, State(front, back), Up(up));
  }

  lemma DownStep(origin: State, front: Front, back: AD.State, down: AD.Step, after: AD.State)
    requires Leads(origin, State(front, back)) && AD.Enabled(back, down) && AD.Next(back, down) == after
    requires Sent(back, down).None? && !down.Cancel? && !down.Receive? && !down.InputClosed?
    ensures Leads(origin, State(front, after))
  {
    LeadsNext(origin, State(front, back), Down(down));
  }

  lemma TakeStep(origin: State, front: Front, back: AD.State, input: AD.Input, after: AD.State)
    requires Leads(origin, State(front, back))
    requires front.queues.deliveries != [] && Carries(front.queues.deliveries[0], input)
    requires AD.Enabled(back, AD.Receive(input, Ok([]))) && AD.Next(back, AD.Receive(input, Ok([]))) == after
    ensures Leads(origin, State(TakeDelivery(front), after))
  {
    LeadsNext(origin, State(front, back), Down(AD.Receive(input, Ok([]))));
  }

  lemma SendStep(origin: State, front: Front, back: AD.State, down: AD.Step, id: nat, after: AD.State)
    requires Leads(origin, State(front, back)) && CanReceive(front)
    requires !down.Cancel? && !down.Receive? && !down.InputClosed?
    requires AD.Enabled(back, down) && Sent(back, down) == Some(id) && AD.Next(back, down) == after
    ensures Leads(origin, State(SendEvent(front, id), after))
  {
    LeadsNext(origin, State(front, back), Down(down));
  }
}

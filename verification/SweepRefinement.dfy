// A sweep of the service is a run of the protocol in which nobody else moves, so
// what holds of every run holds of it.

module SweepRefinement {
  import opened Dispatch
  import opened DispatchSweep
  import opened Protocol
  import opened Invariants
  import Evolution
  import ClaimSteps

  // ── The steps a sweep takes ───────────────────────────────────────

  function RowTrace(p: Progress, i: nat, env: Env): seq<WorkerStep>
    decreases NOWHERE - i
  {
    if i >= NOWHERE then [] else [Choose(p, i, env)] + RowTrace(Advance(p, Choose(p, i, env)), i + 1, env)
  }

  function RowsTrace(p: Progress, rows: nat, first: nat, envs: nat -> Env): seq<WorkerStep>
    decreases rows
  {
    if rows == 0 then []
    else RowTrace(p, 0, envs(first)) + RowsTrace(RowFrom(p, 0, envs(first)), rows - 1, first + 1, envs)
  }

  lemma {:induction false} AdvanceConcat(p: Progress, a: seq<WorkerStep>, b: seq<WorkerStep>)
    ensures AdvanceAll(p, a + b) == AdvanceAll(AdvanceAll(p, a), b)
  {
    hide Advance;
    if b == [] {
      assert a + b == a;
    } else {
      var n := |b| - 1;
      assert (a + b)[..|a + b| - 1] == a + b[..n];
      AdvanceConcat(p, a, b[..n]);
    }
  }

  lemma AdvanceOne(p: Progress, step: WorkerStep)
    ensures AdvanceAll(p, [step]) == Advance(p, step)
  {
    hide Advance;
    assert [step][..0] == [];
  }

  lemma {:induction false} RowTraceIsRow(p: Progress, i: nat, env: Env)
    ensures AdvanceAll(p, RowTrace(p, i, env)) == RowFrom(p, i, env)
    decreases NOWHERE - i
  {
    hide Advance;
    hide Choose;
    if i < NOWHERE {
      var step := Choose(p, i, env);
      AdvanceConcat(p, [step], RowTrace(Advance(p, step), i + 1, env));
      AdvanceOne(p, step);
      RowTraceIsRow(Advance(p, step), i + 1, env);
    }
  }

  lemma {:induction false} RowsTraceIsRows(p: Progress, rows: nat, first: nat, envs: nat -> Env)
    ensures AdvanceAll(p, RowsTrace(p, rows, first, envs)) == RowsFrom(p, rows, first, envs)
    decreases rows
  {
    hide RowFrom;
    hide RowTrace;
    if rows > 0 {
      var after := RowFrom(p, 0, envs(first));
      AdvanceConcat(p, RowTrace(p, 0, envs(first)), RowsTrace(after, rows - 1, first + 1, envs));
      RowTraceIsRow(p, 0, envs(first));
      RowsTraceIsRows(after, rows - 1, first + 1, envs);
    }
  }

  // ── As events ─────────────────────────────────────────────────────

  function WorkEvents(w: nat, steps: seq<WorkerStep>): (es: seq<Event>)
    ensures |es| == |steps| && forall i :: 0 <= i < |es| ==> es[i] == Work(w, steps[i])
  {
    seq(|steps|, i requires 0 <= i < |steps| => Work(w, steps[i]))
  }

  lemma {:induction false} WorkingIsAdvancing(s: State, w: nat, steps: seq<WorkerStep>)
    ensures
      var after, p := RunFrom(s, WorkEvents(w, steps)), AdvanceAll(Progress(TablesOf(s), WorkerOf(s, w)), steps);
      TablesOf(after) == p.tables && WorkerOf(after, w) == p.worker
  {
    hide Protocol.Apply;
    hide Advance;
    if steps != [] {
      var n := |steps| - 1;
      WorkingIsAdvancing(s, w, steps[..n]);
      assert WorkEvents(w, steps)[..n] == WorkEvents(w, steps[..n]);
      OneWork(RunFrom(s, WorkEvents(w, steps[..n])), w, steps[n]);
    }
  }

  lemma OneWork(s: State, w: nat, step: WorkerStep)
    ensures
      var after, p := Protocol.Apply(s, Work(w, step)), Advance(Progress(TablesOf(s), WorkerOf(s, w)), step);
      TablesOf(after) == p.tables && WorkerOf(after, w) == p.worker
  {
    hide ClaimStep;
    hide ReadChannelStep;
    hide MintLookupStep;
    hide MintContactStep;
    hide MintCampaignStep;
    hide MintWriteStep;
    hide SettleStep;
    hide DeliverStep;
    hide Complete;
  }

  function SweepEvents(s: State, w: nat, envs: nat -> Env): seq<Event> {
    var start := Progress(TablesOf(s), Busy(Batch(s.jobs), 0, Next));
    [BeginSweep(w)] + WorkEvents(w, RowsTrace(start, |Batch(s.jobs)|, 0, envs) + [Finish])
  }

  // A sweep by a worker at rest is that run of the protocol, and it keeps the
  // protocol's invariant.
  lemma SweepIsARun(s: State, w: nat, envs: nat -> Env)
    requires Inv(s) && WorkerOf(s, w).Idle?
    ensures
      var after := RunFrom(s, SweepEvents(s, w, envs));
      TablesOf(after) == SweepOf(TablesOf(s), envs) && Inv(after)
  {
    hide Inv;
    hide Batch;
    hide RowsTrace;
    hide RowsFrom;
    hide Advance;
    var start := Progress(TablesOf(s), Busy(Batch(s.jobs), 0, Next));
    var steps := RowsTrace(start, |Batch(s.jobs)|, 0, envs) + [Finish];
    var begun := s.(workers := s.workers[w := start.worker]);
    Evolution.RunSplits(s, [BeginSweep(w)], WorkEvents(w, steps));
    assert [BeginSweep(w)][..0] == [];
    assert RunFrom(s, [BeginSweep(w)]) == begun;
    WorkingIsAdvancing(begun, w, steps);
    AdvanceConcat(start, RowsTrace(start, |Batch(s.jobs)|, 0, envs), [Finish]);
    RowsTraceIsRows(start, |Batch(s.jobs)|, 0, envs);
    AdvanceOne(RowsFrom(start, |Batch(s.jobs)|, 0, envs), Finish);
    ClaimSteps.EveryRunKeepsInv(s, SweepEvents(s, w, envs));
  }
}

/**
 The counters and the fate of probe runs, told by the steps that were taken: which
 increments a run makes, in which cases it ends how, and what every counter therefore holds.
 */
module AccountingHistory {
  import opened Accounting

  // ---------- the steps of one run ----------

  /** How often a step was taken. */
  function Occurrences(run: seq<Label>, l: Label): nat {
    if run == [] then 0 else (if run[0] == l then 1 else 0) + Occurrences(run[1..], l)
  }

  lemma {:induction false} OccursIff(run: seq<Label>, l: Label)
    ensures Occurrences(run, l) > 0 <==> l in run
    decreases |run|
  {
    if run == [] {
    } else {
      OccursIff(run[1..], l);
      assert run == [run[0]] + run[1..];
    }
  }

  /** Is this step, of the run it names, behind it? */
  predicate Behind(x: Run, l: Label) {
    match l
    case Reconfigure(_, _) => false
    case Launch(_) => false
    case Abort(_) => x.pc == Aborted
    case SkipAttempt(_) => !x.spec.attempts && x.pc !in {Created, Aborted}
    case OtelAttempt(_) => x.spec.attempts && x.pc !in {Created, Aborted}
    case PromAttempt(_) => x.spec.attempts && x.pc !in {Created, Aborted, AttemptHalf}
    case Fail(_) => x.pc == Failed
    case Record(_) => x.pc in {Recorded, SuccessHalf, Succeeded}
    case SkipSuccess(_) => !x.spec.successes && x.pc == Succeeded
    case OtelSuccess(_) => x.spec.successes && x.pc in {SuccessHalf, Succeeded}
    case PromSuccess(_) => x.spec.successes && x.pc == Succeeded
  }

  predicate Taken(s: State, l: Label)
    requires MovesRun(l)
  {
    l.r < |s.runs| && Behind(s.runs[l.r], l)
  }

  /** Where a step leaves the run that takes it. */
  function Target(l: Label): Pc
    requires MovesRun(l)
  {
    match l
    case Abort(_) => Aborted
    case SkipAttempt(_) => Acting
    case OtelAttempt(_) => AttemptHalf
    case PromAttempt(_) => Acting
    case Fail(_) => Failed
    case Record(_) => Recorded
    case SkipSuccess(_) => Succeeded
    case OtelSuccess(_) => SuccessHalf
    case PromSuccess(_) => Succeeded
  }

  lemma MovesOne(s: State, l: Label)
    requires Enabled(s, l) && MovesRun(l)
    ensures l.r < |s.runs| && Next(s, l).runs == s.runs[l.r := s.runs[l.r].(pc := Target(l))]
  {
  }

  /** May a run take this step? */
  predicate Ready(x: Run, l: Label)
    requires MovesRun(l)
  {
    match l
    case Abort(_) => x.pc == Created
    case SkipAttempt(_) => x.pc == Created && !x.spec.attempts
    case OtelAttempt(_) => x.pc == Created && x.spec.attempts
    case PromAttempt(_) => x.pc == AttemptHalf && x.spec.attempts
    case Fail(_) => x.pc == Acting
    case Record(_) => x.pc == Acting
    case SkipSuccess(_) => x.pc == Recorded && !x.spec.successes
    case OtelSuccess(_) => x.pc == Recorded && x.spec.successes
    case PromSuccess(_) => x.pc == SuccessHalf && x.spec.successes
  }

  lemma BehindNext(x: Run, a: Label, l: Label)
    requires MovesRun(a) && MovesRun(l) && a.r == l.r && Ready(x, a)
    ensures Behind(x.(pc := Target(a)), l) <==> Behind(x, l) || a == l
    ensures a == l ==> !Behind(x, l)
  {
  }

  lemma EnabledReady(s: State, l: Label)
    requires WellFormed(s) && Enabled(s, l) && MovesRun(l)
    ensures l.r < |s.runs| && Ready(s.runs[l.r], l)
  {
  }

  /** Reconfiguring moves no run, and a new run has nothing behind it. */
  lemma TakenUnmoved(s: State, a: Label, l: Label)
    requires Enabled(s, a) && !MovesRun(a) && MovesRun(l)
    ensures Taken(Next(s, a), l) <==> Taken(s, l)
  {
  }

  /** A step is behind a run from the moment it is taken, once and for all. */
  lemma TakenNext(s: State, a: Label, l: Label)
    requires WellFormed(s) && Enabled(s, a) && MovesRun(l)
    ensures Taken(Next(s, a), l) <==> Taken(s, l) || a == l
    ensures a == l ==> !Taken(s, l)
  {
    if MovesRun(a) {
      MovesOne(s, a);
      EnabledReady(s, a);
      if a.r == l.r {
        BehindNext(s.runs[a.r], a, l);
      }
    } else {
      TakenUnmoved(s, a, l);
    }
  }

  lemma {:induction false} TakenOfRun(s: State, run: seq<Label>, t: State, l: Label)
    requires Inv(s) && Runs(s, run, t) && MovesRun(l)
    ensures Occurrences(run, l) == (if Taken(t, l) then 1 else 0) - (if Taken(s, l) then 1 else 0)
    decreases |run|
  {
    if run == [] {
    } else {
      TakenNext(s, run[0], l);
      StepInv(s, run[0]);
      TakenOfRun(Next(s, run[0]), run[1..], t, l);
    }
  }

  lemma StepOfRun(run: seq<Label>, t: State, l: Label)
    requires Runs(Init(), run, t) && MovesRun(l)
    ensures l in run <==> l.r < |t.runs| && Behind(t.runs[l.r], l)
    ensures Occurrences(run, l) <= 1
  {
    TakenOfRun(Init(), run, t, l);
    OccursIff(run, l);
  }

  /** In every run of the program each step of a probe run is taken at most once, and the probe run is
      over exactly by the step that ends it. */
  lemma EndsByStep(run: seq<Label>, t: State, r: nat)
    requires Runs(Init(), run, t) && r < |t.runs|
    ensures forall l :: MovesRun(l) && l.r == r ==> Occurrences(run, l) <= 1
    ensures t.runs[r].pc == Aborted <==> Abort(r) in run
    ensures t.runs[r].pc == Failed <==> Fail(r) in run
    ensures t.runs[r].pc == Succeeded <==> SkipSuccess(r) in run || PromSuccess(r) in run
  {
    forall l | MovesRun(l) && l.r == r ensures Occurrences(run, l) <= 1 {
      StepOfRun(run, t, l);
    }
    StepOfRun(run, t, Abort(r));
    StepOfRun(run, t, Fail(r));
    StepOfRun(run, t, SkipSuccess(r));
    StepOfRun(run, t, PromSuccess(r));
  }

  /** A run that has acted has made both attempt increments, or none if the metric is not enabled; one
      that has succeeded has recorded, and has made both success increments, or none likewise. */
  lemma IncrementsOfRun(run: seq<Label>, t: State, r: nat)
    requires Runs(Init(), run, t) && r < |t.runs|
    ensures Fail(r) in run || Record(r) in run ==>
              && (OtelAttempt(r) in run <==> t.runs[r].spec.attempts)
              && (PromAttempt(r) in run <==> t.runs[r].spec.attempts)
    ensures t.runs[r].pc == Succeeded ==>
              && Record(r) in run
              && (OtelSuccess(r) in run <==> t.runs[r].spec.successes)
              && (PromSuccess(r) in run <==> t.runs[r].spec.successes)
  {
    StepOfRun(run, t, Fail(r));
    StepOfRun(run, t, Record(r));
    StepOfRun(run, t, OtelAttempt(r));
    StepOfRun(run, t, PromAttempt(r));
    StepOfRun(run, t, OtelSuccess(r));
    StepOfRun(run, t, PromSuccess(r));
  }

  // ---------- what the counters hold ----------

  function CountLabels(run: seq<Label>, f: Label -> bool): nat {
    if run == [] then 0 else (if f(run[0]) then 1 else 0) + CountLabels(run[1..], f)
  }

  function PromAttempts(s: State, i: nat): nat {
    if i < |s.probes| then s.probes[i].promAttempts else 0
  }

  function PromSuccesses(s: State, i: nat): nat {
    if i < |s.probes| then s.probes[i].promSuccesses else 0
  }

  /** An increment of a Prometheus counter of probe i, in a run that ends in t. */
  function PromAttemptOf(t: State, i: nat): Label -> bool {
    (l: Label) => l.PromAttempt? && l.r < |t.runs| && t.runs[l.r].probe == i
  }

  function PromSuccessOf(t: State, i: nat): Label -> bool {
    (l: Label) => l.PromSuccess? && l.r < |t.runs| && t.runs[l.r].probe == i
  }

  /** An increment of the OpenTelemetry count k. */
  function OtelOf(t: State, k: Instrument): Label -> bool {
    (l: Label) =>
      || (l.OtelAttempt? && l.r < |t.runs| && t.runs[l.r].spec.attemptsInstrument == k)
      || (l.OtelSuccess? && l.r < |t.runs| && t.runs[l.r].spec.successesInstrument == k)
  }

  lemma CountersNext(s: State, l: Label, i: nat, k: Instrument)
    requires Enabled(s, l)
    ensures PromAttempts(Next(s, l), i) == PromAttempts(s, i) + if PromAttemptOf(s, i)(l) then 1 else 0
    ensures PromSuccesses(Next(s, l), i) == PromSuccesses(s, i) + if PromSuccessOf(s, i)(l) then 1 else 0
    ensures Value(Next(s, l).otel, k) == Value(s.otel, k) + if OtelOf(s, k)(l) then 1 else 0
  {
  }

  lemma {:induction false} CountersOfRun(s: State, run: seq<Label>, t: State, i: nat, k: Instrument)
    requires Runs(s, run, t)
    ensures PromAttempts(t, i) == PromAttempts(s, i) + CountLabels(run, PromAttemptOf(t, i))
    ensures PromSuccesses(t, i) == PromSuccesses(s, i) + CountLabels(run, PromSuccessOf(t, i))
    ensures Value(t.otel, k) == Value(s.otel, k) + CountLabels(run, OtelOf(t, k))
    decreases |run|
  {
    if run == [] {
    } else {
      CountersNext(s, run[0], i, k);
      RunKeepsProbes(s, run, t);
      CountersOfRun(Next(s, run[0]), run[1..], t, i, k);
    }
  }

  /** In every run of the program each counter holds exactly its own increments. */
  lemma CountersAreIncrements(run: seq<Label>, t: State, i: nat, k: Instrument)
    requires Runs(Init(), run, t) && i < |t.probes|
    ensures t.probes[i].promAttempts == CountLabels(run, PromAttemptOf(t, i))
    ensures t.probes[i].promSuccesses == CountLabels(run, PromSuccessOf(t, i))
    ensures Value(t.otel, k) == CountLabels(run, OtelOf(t, k))
  {
    CountersOfRun(Init(), run, t, i, k);
  }

  // ---------- who runs ----------

  lemma {:induction false} LaunchedLater(s: State, run: seq<Label>, t: State, first: nat)
    requires Runs(s, run, t) && first <= |s.probes|
    requires forall i :: 0 <= i < first ==> s.probes[i].generation < s.generation
    ensures |s.runs| <= |t.runs|
    ensures forall r :: |s.runs| <= r < |t.runs| ==> t.runs[r].probe >= first
    decreases |run|
  {
    if run == [] {
    } else {
      var u := Next(s, run[0]);
      RunKeepsProbes(u, run[1..], t);
      LaunchedLater(u, run[1..], t, first);
    }
  }

  /** Once a config has been replaced, none of its probes is ever launched again. */
  lemma ReplacedProbesRest(s: State, l: Label, u: State, run: seq<Label>, t: State)
    requires Reachable(s) && l.Reconfigure? && Enabled(s, l) && u == Next(s, l) && Runs(u, run, t)
    ensures |s.runs| <= |t.runs|
    ensures forall r :: |s.runs| <= r < |t.runs| ==> t.runs[r].probe >= |s.probes|
  {
    ReachableInv(s);
    LaunchedLater(u, run, t, |s.probes|);
  }

  // ---------- every run can succeed ----------

  /** One step, in front of a run. */
  lemma Then(s: State, l: Label, run: seq<Label>, t: State) returns (all: seq<Label>)
    requires Enabled(s, l) && Runs(Next(s, l), run, t)
    ensures Runs(s, all, t) && all == [l] + run
  {
    all := [l] + run;
    assert all[1..] == run;
  }

  /** From the first success increment on. */
  lemma FinishesHalf(s: State, r: nat) returns (run: seq<Label>, t: State)
    requires Inv(s) && r < |s.runs| && s.runs[r].pc == SuccessHalf
    ensures Runs(s, run, t) && Inv(t) && t.runs == s.runs[r := s.runs[r].(pc := Succeeded)]
    ensures s.runs[r].spec.responseTime ==> t.mutex == FREE
  {
    var l := PromSuccess(r);
    MovesOne(s, l);
    StepInv(s, l);
    t := Next(s, l);
    run := Then(s, l, [], t);
  }

  /** Past the response time, a run can go on to succeed, and gives back the mutex. */
  lemma Finishes(s: State, r: nat) returns (run: seq<Label>, t: State)
    requires Inv(s) && r < |s.runs| && s.runs[r].pc in {Recorded, SuccessHalf}
    ensures Runs(s, run, t) && Inv(t) && t.runs == s.runs[r := s.runs[r].(pc := Succeeded)]
    ensures s.runs[r].spec.responseTime ==> t.mutex == FREE
  {
    if s.runs[r].pc == SuccessHalf {
      run, t := FinishesHalf(s, r);
    } else {
      var l := if s.runs[r].spec.successes then OtelSuccess(r) else SkipSuccess(r);
      MovesOne(s, l);
      StepInv(s, l);
      t := Next(s, l);
      run := [];
      if l.OtelSuccess? {
        run, t := FinishesHalf(t, r);
      }
      run := Then(s, l, run, t);
    }
  }

  lemma {:induction false} Concat(s: State, first: seq<Label>, u: State, second: seq<Label>, t: State)
    returns (run: seq<Label>)
    requires Runs(s, first, u) && Runs(u, second, t)
    ensures Runs(s, run, t)
  {
    RunsConcat(s, first, u, second, t);
    run := first + second;
  }

  /** A run that is acting can succeed, after whoever holds the mutex. */
  lemma ActingSucceeds(s: State, r: nat) returns (run: seq<Label>, t: State)
    requires Inv(s) && r < |s.runs| && s.runs[r].pc == Acting
    ensures Runs(s, run, t) && r < |t.runs| && t.runs[r].pc == Succeeded
  {
    var first, u := [], s;
    if s.mutex != FREE {
      first, u := Finishes(s, s.mutex);
    }
    MovesOne(u, Record(r));
    StepInv(u, Record(r));
    run, t := Finishes(Next(u, Record(r)), r);
    run := Then(u, Record(r), run, t);
    run := Concat(s, first, u, run, t);
  }

  /** A run that has just begun, or is between its attempt increments, can act. */
  lemma CanAct(s: State, r: nat) returns (run: seq<Label>, t: State)
    requires Inv(s) && r < |s.runs| && s.runs[r].pc in {Created, AttemptHalf}
    ensures Runs(s, run, t) && Inv(t) && r < |t.runs| && t.runs[r].pc == Acting
  {
    var spec := s.runs[r].spec;
    var l := if s.runs[r].pc == AttemptHalf then PromAttempt(r) else if spec.attempts then OtelAttempt(r) else SkipAttempt(r);
    MovesOne(s, l);
    StepInv(s, l);
    t := Next(s, l);
    run := [];
    if l.OtelAttempt? {
      MovesOne(t, PromAttempt(r));
      StepInv(t, PromAttempt(r));
      var u := t;
      t := Next(u, PromAttempt(r));
      run := Then(u, PromAttempt(r), run, t);
    }
    run := Then(s, l, run, t);
  }

  /** In every reachable state every run that is not over can still succeed, whichever of its metrics
      are enabled and whoever holds the mutex. */
  lemma CanSucceed(s: State, r: nat) returns (run: seq<Label>, t: State)
    requires Reachable(s) && r < |s.runs| && s.runs[r].pc !in {Failed, Aborted}
    ensures Runs(s, run, t) && r < |t.runs| && t.runs[r].pc == Succeeded
  {
    ReachableInv(s);
    if s.runs[r].pc == Succeeded {
      run, t := [], s;
    } else if s.runs[r].pc in {Recorded, SuccessHalf} {
      run, t := Finishes(s, r);
    } else if s.runs[r].pc == Acting {
      run, t := ActingSucceeds(s, r);
    } else {
      var first, u := CanAct(s, r);
      run, t := ActingSucceeds(u, r);
      run := Concat(s, first, u, run, t);
    }
  }

  /** ...and every run that has not recorded can still fail, and one that has just begun be aborted. */
  lemma CanFail(s: State, r: nat) returns (run: seq<Label>, t: State)
    requires Reachable(s) && r < |s.runs| && s.runs[r].pc in {Created, AttemptHalf, Acting}
    ensures Runs(s, run, t) && r < |t.runs| && t.runs[r].pc == Failed
    ensures s.runs[r].pc == Created ==> Enabled(s, Abort(r)) && Next(s, Abort(r)).runs[r].pc == Aborted
  {
    ReachableInv(s);
    assert s.runs[r].probe < |s.probes|;
    var first, u := [], s;
    if s.runs[r].pc != Acting {
      first, u := CanAct(s, r);
    }
    MovesOne(u, Fail(r));
    t := Next(u, Fail(r));
    run := Then(u, Fail(r), [], t);
    run := Concat(s, first, u, run, t);
  }

  /** A run has to wait in exactly one case: it has a response time to store, and another run is
      between storing its own and the end of its success increments. */
  lemma WaitsIff(s: State, r: nat)
    requires Reachable(s) && r < |s.runs| && s.runs[r].pc == Acting
    ensures Enabled(s, Record(r)) <==>
            !(s.runs[r].spec.responseTime
              && exists q :: 0 <= q < |s.runs| && s.runs[q].spec.responseTime && s.runs[q].pc in {Recorded, SuccessHalf})
  {
    ReachableInv(s);
    assert s.runs[r].probe < |s.probes|;
    if s.mutex != FREE {
      assert Critical(s.runs[s.mutex]);
    }
    forall q | 0 <= q < |s.runs| && s.runs[q].spec.responseTime && s.runs[q].pc in {Recorded, SuccessHalf}
      ensures s.mutex != FREE
    {
      assert Critical(s.runs[q]);
    }
  }
}

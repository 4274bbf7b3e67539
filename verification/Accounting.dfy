/**
 Probe accounting under concurrency: any number of overlapping probe runs, across
 reconfigurations, each incrementing an OpenTelemetry and a Prometheus counter one after
 the other, with the success increments inside the response-time critical section.
 */
module Accounting {
  /** What an OpenTelemetry count is kept under: the version of the providers that the counter was
      made with, and its name with its attributes. Making the counter again gives the same count. */
  datatype Instrument = Instrument(providers: nat, name: string)

  /** Which metrics of a probe are enabled, and the instruments of its two counters. Prometheus
      counters are always new objects. */
  datatype Spec = Spec(
    attempts: bool, successes: bool, responseTime: bool,
    attemptsInstrument: Instrument, successesInstrument: Instrument)

  /** A probe as built by one config generation. */
  datatype Probe = Probe(generation: nat, spec: Spec, promAttempts: nat, promSuccesses: nat)

  /** Where a run is: before PreMeasurable, between its two increments, acting, between
      PostMeasurable's entry and its success increments, between those two, or over. */
  datatype Pc = Created | AttemptHalf | Acting | Recorded | SuccessHalf | Succeeded | Failed | Aborted

  /** A run of `act`, which was handed its probe's metrics when it was launched. */
  datatype Run = Run(probe: nat, spec: Spec, pc: Pc)

  datatype State = State(
    generation: nat, probes: seq<Probe>, runs: seq<Run>, otel: map<Instrument, nat>, mutex: int)

  const FREE := -1

  datatype Label =
    | Reconfigure(specs: seq<Spec>, providers: nat)
    | Launch(probe: nat)
    | Abort(r: nat)          // the request could not be built
    | SkipAttempt(r: nat) | OtelAttempt(r: nat) | PromAttempt(r: nat)
    | Fail(r: nat) | Record(r: nat)
    | SkipSuccess(r: nat) | OtelSuccess(r: nat) | PromSuccess(r: nat)

  function Init(): State {
    State(0, [], [], map[], FREE)
  }

  /** Run r exists, of an existing probe, and is at pc. */
  predicate At(s: State, r: nat, pc: Pc) {
    r < |s.runs| && s.runs[r].pc == pc && s.runs[r].probe < |s.probes|
  }

  predicate MadeWith(spec: Spec, providers: nat) {
    spec.attemptsInstrument.providers == spec.successesInstrument.providers == providers
  }

  predicate Enabled(s: State, l: Label) {
    match l
    case Reconfigure(specs, providers) =>
      // the window that the token handshake leaves (ProtocolSafety.TokenImpliesProvidersInstalled)
      && s.generation + 1 <= providers <= s.generation + 2
      && forall i :: 0 <= i < |specs| ==> MadeWith(specs[i], providers)
    case Launch(p) => p < |s.probes| && s.probes[p].generation == s.generation
    case Abort(r) => At(s, r, Created)
    case SkipAttempt(r) => At(s, r, Created) && !s.runs[r].spec.attempts
    case OtelAttempt(r) => At(s, r, Created) && s.runs[r].spec.attempts
    case PromAttempt(r) => At(s, r, AttemptHalf)
    case Fail(r) => At(s, r, Acting)
    case Record(r) => At(s, r, Acting) && (s.runs[r].spec.responseTime ==> s.mutex == FREE)
    case SkipSuccess(r) => At(s, r, Recorded) && !s.runs[r].spec.successes
    case OtelSuccess(r) => At(s, r, Recorded) && s.runs[r].spec.successes
    case PromSuccess(r) => At(s, r, SuccessHalf)
  }

  function Built(specs: seq<Spec>, generation: nat): (ps: seq<Probe>)
    ensures |ps| == |specs|
    ensures forall i :: 0 <= i < |ps| ==> ps[i] == Probe(generation, specs[i], 0, 0)
  {
    seq(|specs|, i requires 0 <= i < |specs| => Probe(generation, specs[i], 0, 0))
  }

  function Goto(s: State, r: nat, pc: Pc): State
    requires r < |s.runs|
  {
    s.(runs := s.runs[r := s.runs[r].(pc := pc)])
  }

  /** PostMeasurable returns, and its deferred unlock runs. */
  function Unlock(s: State, r: nat): State
    requires r < |s.runs|
  {
    if s.runs[r].spec.responseTime then s.(mutex := FREE) else s
  }

  function Value(counts: map<Instrument, nat>, k: Instrument): nat {
    if k in counts then counts[k] else 0
  }

  function Bump(counts: map<Instrument, nat>, k: Instrument): (r: map<Instrument, nat>)
    ensures forall j :: Value(r, j) == Value(counts, j) + if j == k then 1 else 0
  {
    counts[k := Value(counts, k) + 1]
  }

  function Next(s: State, l: Label): State
    requires Enabled(s, l)
  {
    match l
    case Reconfigure(specs, _) =>
      s.(generation := s.generation + 1, probes := s.probes + Built(specs, s.generation + 1))
    case Launch(p) => s.(runs := s.runs + [Run(p, s.probes[p].spec, Created)])
    case Abort(r) => Goto(s, r, Aborted)
    case SkipAttempt(r) => Goto(s, r, Acting)
    case OtelAttempt(r) =>
      Goto(s, r, AttemptHalf).(otel := Bump(s.otel, s.runs[r].spec.attemptsInstrument))
    case PromAttempt(r) =>
      var p := s.runs[r].probe;
      Goto(s, r, Acting).(probes := s.probes[p := s.probes[p].(promAttempts := s.probes[p].promAttempts + 1)])
    case Fail(r) => Goto(s, r, Failed)
    case Record(r) =>
      Goto(s, r, Recorded).(mutex := if s.runs[r].spec.responseTime then r else s.mutex)
    case SkipSuccess(r) => Unlock(Goto(s, r, Succeeded), r)
    case OtelSuccess(r) =>
      Goto(s, r, SuccessHalf).(otel := Bump(s.otel, s.runs[r].spec.successesInstrument))
    case PromSuccess(r) =>
      var p := s.runs[r].probe;
      Unlock(Goto(s, r, Succeeded), r)
        .(probes := s.probes[p := s.probes[p].(promSuccesses := s.probes[p].promSuccesses + 1)])
  }

  ghost predicate Runs(s: State, run: seq<Label>, t: State)
    decreases |run|
  {
    if run == [] then s == t
    else Enabled(s, run[0]) && Runs(Next(s, run[0]), run[1..], t)
  }

  ghost predicate Reachable(s: State) {
    exists run :: Runs(Init(), run, s)
  }

  // ---------- counting runs ----------

  function Count(runs: seq<Run>, f: Run -> bool): nat {
    if runs == [] then 0 else (if f(runs[0]) then 1 else 0) + Count(runs[1..], f)
  }

  lemma {:induction false} CountConcat(a: seq<Run>, b: seq<Run>, f: Run -> bool)
    ensures Count(a + b, f) == Count(a, f) + Count(b, f)
    decreases |a|
  {
    if a == [] {
      assert a + b == b;
    } else {
      CountConcat(a[1..], b, f);
      assert (a + b)[1..] == a[1..] + b;
    }
  }

  lemma CountUpdate(runs: seq<Run>, r: nat, run: Run, f: Run -> bool)
    requires r < |runs|
    ensures Count(runs[r := run], f)
            == Count(runs, f) - (if f(runs[r]) then 1 else 0) + (if f(run) then 1 else 0)
  {
    assert runs == runs[..r] + ([runs[r]] + runs[r + 1..]);
    assert runs[r := run] == runs[..r] + ([run] + runs[r + 1..]);
    CountConcat(runs[..r], [runs[r]] + runs[r + 1..], f);
    CountConcat(runs[..r], [run] + runs[r + 1..], f);
    CountConcat([runs[r]], runs[r + 1..], f);
    CountConcat([run], runs[r + 1..], f);
  }

  /** Splitting runs in two disjoint classes splits the count. */
  lemma {:induction false} CountSplit(runs: seq<Run>, f: Run -> bool, g: Run -> bool, h: Run -> bool)
    requires forall r :: r in runs ==> !(g(r) && h(r)) && (f(r) <==> g(r) || h(r))
    ensures Count(runs, f) == Count(runs, g) + Count(runs, h)
    decreases |runs|
  {
    if runs == [] {
    } else {
      CountSplit(runs[1..], f, g, h);
    }
  }

  lemma {:induction false} CountZeroIff(runs: seq<Run>, f: Run -> bool)
    ensures Count(runs, f) == 0 <==> forall r :: r in runs ==> !f(r)
    decreases |runs|
  {
    if runs == [] {
    } else {
      CountZeroIff(runs[1..], f);
      assert forall r :: r in runs <==> r == runs[0] || r in runs[1..];
    }
  }

  lemma CountZero(runs: seq<Run>, f: Run -> bool)
    requires forall r :: r in runs ==> !f(r)
    ensures Count(runs, f) == 0
  {
    CountZeroIff(runs, f);
  }

  // ---------- the invariant: every counter counts runs ----------

  function PromAttempted(i: nat): Run -> bool {
    (r: Run) => r.probe == i && r.spec.attempts && r.pc !in {Created, AttemptHalf, Aborted}
  }

  function OtelAttempted(k: Instrument): Run -> bool {
    (r: Run) => r.spec.attemptsInstrument == k && r.spec.attempts && r.pc !in {Created, Aborted}
  }

  function PromSucceeded(i: nat): Run -> bool {
    (r: Run) => r.probe == i && r.spec.successes && r.pc == Succeeded
  }

  function OtelSucceeded(k: Instrument): Run -> bool {
    (r: Run) => r.spec.successesInstrument == k && r.spec.successes && r.pc in {SuccessHalf, Succeeded}
  }

  predicate WellFormed(s: State) {
    && (forall i :: 0 <= i < |s.probes| ==>
          var p := s.probes[i];
          && p.generation <= s.generation
          && (MadeWith(p.spec, p.generation) || MadeWith(p.spec, p.generation + 1)))
    && (forall r :: 0 <= r < |s.runs| ==>
          && s.runs[r].probe < |s.probes| && s.runs[r].spec == s.probes[s.runs[r].probe].spec
          && (s.runs[r].pc.AttemptHalf? ==> s.runs[r].spec.attempts)
          && (s.runs[r].pc.SuccessHalf? ==> s.runs[r].spec.successes))
  }

  predicate PromInv(s: State) {
    forall i: nat :: i < |s.probes| ==>
      && s.probes[i].promAttempts == Count(s.runs, PromAttempted(i))
      && s.probes[i].promSuccesses == Count(s.runs, PromSucceeded(i))
  }

  /** An OpenTelemetry count is of every run that used it, for attempts or for successes. */
  ghost predicate OtelInv(s: State) {
    forall k :: Value(s.otel, k) == Count(s.runs, OtelAttempted(k)) + Count(s.runs, OtelSucceeded(k))
  }

  /** Is the run inside the response-time critical section? */
  predicate Critical(r: Run) {
    r.spec.responseTime && r.pc in {Recorded, SuccessHalf}
  }

  /** The mutex is held by exactly the run inside the critical section. */
  predicate MutexInv(s: State) {
    && FREE <= s.mutex < |s.runs|
    && forall r :: 0 <= r < |s.runs| ==> (Critical(s.runs[r]) <==> r == s.mutex)
  }

  ghost predicate Inv(s: State) {
    WellFormed(s) && PromInv(s) && OtelInv(s) && MutexInv(s)
  }

  /** The run whose step this is (or none). */
  predicate MovesRun(l: Label) {
    !l.Reconfigure? && !l.Launch?
  }

  /** A run keeps its probe, and the probe its spec. */
  lemma MoveWellFormed(s: State, l: Label)
    requires WellFormed(s) && Enabled(s, l) && MovesRun(l)
    ensures WellFormed(Next(s, l))
  {
    var t := Next(s, l);
    assert |t.probes| == |s.probes| && |t.runs| == |s.runs|;
    assert forall i :: 0 <= i < |t.probes| ==>
        t.probes[i].spec == s.probes[i].spec && t.probes[i].generation == s.probes[i].generation;
    assert forall r :: 0 <= r < |t.runs| ==>
        t.runs[r].probe == s.runs[r].probe && t.runs[r].spec == s.runs[r].spec;
  }

  lemma StepWellFormed(s: State, l: Label)
    requires WellFormed(s) && Enabled(s, l)
    ensures WellFormed(Next(s, l))
  {
    if MovesRun(l) {
      MoveWellFormed(s, l);
    }
  }

  lemma StepMutex(s: State, l: Label)
    requires MutexInv(s) && Enabled(s, l)
    ensures MutexInv(Next(s, l))
  {
  }

  lemma MovePromAttempts(s: State, l: Label, i: nat)
    requires WellFormed(s) && Enabled(s, l) && MovesRun(l) && i < |s.probes|
    requires s.probes[i].promAttempts == Count(s.runs, PromAttempted(i))
    ensures |Next(s, l).probes| == |s.probes|
    ensures Next(s, l).probes[i].promAttempts == Count(Next(s, l).runs, PromAttempted(i))
  {
    CountUpdate(s.runs, l.r, Next(s, l).runs[l.r], PromAttempted(i));
  }

  lemma MovePromSuccesses(s: State, l: Label, i: nat)
    requires WellFormed(s) && Enabled(s, l) && MovesRun(l) && i < |s.probes|
    requires s.probes[i].promSuccesses == Count(s.runs, PromSucceeded(i))
    ensures |Next(s, l).probes| == |s.probes|
    ensures Next(s, l).probes[i].promSuccesses == Count(Next(s, l).runs, PromSucceeded(i))
  {
    CountUpdate(s.runs, l.r, Next(s, l).runs[l.r], PromSucceeded(i));
  }

  /** A run joins those that used an instrument exactly by its increment of it. */
  lemma MoveAttempted(s: State, l: Label, k: Instrument)
    requires WellFormed(s) && Enabled(s, l) && MovesRun(l)
    ensures Count(Next(s, l).runs, OtelAttempted(k)) == Count(s.runs, OtelAttempted(k))
            + if l.OtelAttempt? && s.runs[l.r].spec.attemptsInstrument == k then 1 else 0
  {
    CountUpdate(s.runs, l.r, Next(s, l).runs[l.r], OtelAttempted(k));
  }

  lemma MoveSucceeded(s: State, l: Label, k: Instrument)
    requires WellFormed(s) && Enabled(s, l) && MovesRun(l)
    ensures Count(Next(s, l).runs, OtelSucceeded(k)) == Count(s.runs, OtelSucceeded(k))
            + if l.OtelSuccess? && s.runs[l.r].spec.successesInstrument == k then 1 else 0
  {
    CountUpdate(s.runs, l.r, Next(s, l).runs[l.r], OtelSucceeded(k));
  }

  lemma MoveOtel(s: State, l: Label, k: Instrument)
    requires WellFormed(s) && Enabled(s, l) && MovesRun(l)
    requires Value(s.otel, k) == Count(s.runs, OtelAttempted(k)) + Count(s.runs, OtelSucceeded(k))
    ensures var t := Next(s, l);
            Value(t.otel, k) == Count(t.runs, OtelAttempted(k)) + Count(t.runs, OtelSucceeded(k))
  {
    MoveAttempted(s, l, k);
    MoveSucceeded(s, l, k);
  }

  lemma MoveInv(s: State, l: Label)
    requires WellFormed(s) && PromInv(s) && OtelInv(s) && Enabled(s, l) && MovesRun(l)
    ensures PromInv(Next(s, l)) && OtelInv(Next(s, l))
  {
    var t := Next(s, l);
    assert |t.probes| == |s.probes|;
    forall i: nat | i < |t.probes|
      ensures t.probes[i].promAttempts == Count(t.runs, PromAttempted(i))
      ensures t.probes[i].promSuccesses == Count(t.runs, PromSucceeded(i))
    {
      MovePromAttempts(s, l, i);
      MovePromSuccesses(s, l, i);
    }
    forall k ensures Value(t.otel, k) == Count(t.runs, OtelAttempted(k)) + Count(t.runs, OtelSucceeded(k)) {
      MoveOtel(s, l, k);
    }
  }

  lemma LaunchCounts(s: State, p: nat, f: Run -> bool)
    requires Enabled(s, Launch(p)) && !f(Run(p, s.probes[p].spec, Created))
    ensures Count(Next(s, Launch(p)).runs, f) == Count(s.runs, f)
  {
    CountConcat(s.runs, [Run(p, s.probes[p].spec, Created)], f);
  }

  lemma LaunchInv(s: State, p: nat)
    requires Inv(s) && Enabled(s, Launch(p))
    ensures PromInv(Next(s, Launch(p))) && OtelInv(Next(s, Launch(p)))
  {
    var t := Next(s, Launch(p));
    forall i: nat
      ensures Count(t.runs, PromAttempted(i)) == Count(s.runs, PromAttempted(i))
      ensures Count(t.runs, PromSucceeded(i)) == Count(s.runs, PromSucceeded(i))
    {
      LaunchCounts(s, p, PromAttempted(i));
      LaunchCounts(s, p, PromSucceeded(i));
    }
    forall k: Instrument
      ensures Count(t.runs, OtelAttempted(k)) == Count(s.runs, OtelAttempted(k))
      ensures Count(t.runs, OtelSucceeded(k)) == Count(s.runs, OtelSucceeded(k))
    {
      LaunchCounts(s, p, OtelAttempted(k));
      LaunchCounts(s, p, OtelSucceeded(k));
    }
  }

  lemma ReconfigureInv(s: State, l: Label)
    requires Inv(s) && l.Reconfigure? && Enabled(s, l)
    ensures PromInv(Next(s, l)) && OtelInv(Next(s, l))
  {
    forall i: nat | i >= |s.probes|
      ensures Count(s.runs, PromAttempted(i)) == Count(s.runs, PromSucceeded(i)) == 0
    {
      CountZero(s.runs, PromAttempted(i));
      CountZero(s.runs, PromSucceeded(i));
    }
  }

  /** Every step of any run, and every reconfiguration, keeps the invariant. */
  lemma StepInv(s: State, l: Label)
    requires Inv(s) && Enabled(s, l)
    ensures Inv(Next(s, l))
  {
    StepWellFormed(s, l);
    StepMutex(s, l);
    match l
    case Reconfigure(_, _) => ReconfigureInv(s, l);
    case Launch(p) => LaunchInv(s, p);
    case _ => MoveInv(s, l);
  }

  lemma {:induction false} RunInv(s: State, run: seq<Label>, t: State)
    requires Inv(s) && Runs(s, run, t)
    ensures Inv(t)
    decreases |run|
  {
    if run == [] {
    } else {
      StepInv(s, run[0]);
      RunInv(Next(s, run[0]), run[1..], t);
    }
  }

  lemma ReachableInv(s: State)
    requires Reachable(s)
    ensures Inv(s)
  {
    var run :| Runs(Init(), run, s);
    RunInv(Init(), run, s);
  }

  // ---------- what the counters mean ----------

  function InFlight(i: nat): Run -> bool {
    (r: Run) => r.probe == i && r.spec.attempts && r.pc in {Acting, Recorded, SuccessHalf}
  }

  function HasFailed(i: nat): Run -> bool {
    (r: Run) => r.probe == i && r.spec.attempts && r.pc == Failed
  }

  /** Every counted attempt has succeeded, has failed or is in flight: nothing is lost and
      nothing is counted twice, so successes never exceed attempts. */
  lemma Conservation(s: State, i: nat)
    requires Reachable(s) && i < |s.probes| && s.probes[i].spec.attempts && s.probes[i].spec.successes
    ensures s.probes[i].promAttempts
            == s.probes[i].promSuccesses + Count(s.runs, HasFailed(i)) + Count(s.runs, InFlight(i))
    ensures s.probes[i].promSuccesses <= s.probes[i].promAttempts
  {
    ReachableInv(s);
    var over := (r: Run) => PromSucceeded(i)(r) || HasFailed(i)(r);
    CountSplit(s.runs, PromAttempted(i), over, InFlight(i));
    CountSplit(s.runs, over, PromSucceeded(i), HasFailed(i));
  }

  function HalfAttempted(i: nat): Run -> bool {
    (r: Run) => r.probe == i && r.pc == AttemptHalf
  }

  function HalfSucceeded(i: nat): Run -> bool {
    (r: Run) => r.probe == i && r.pc == SuccessHalf
  }

  /** Runs of other probes. */
  function Elsewhere(i: nat, f: Run -> bool): Run -> bool {
    (r: Run) => f(r) && r.probe != i
  }

  /** The count that a probe's attempts go to holds its Prometheus count, its runs between the two
      increments, and whatever else goes to the same count: attempts of other probes, successes. */
  lemma OtelAttemptsSplit(s: State, i: nat)
    requires Reachable(s) && i < |s.probes| && s.probes[i].spec.attempts
    ensures var k := s.probes[i].spec.attemptsInstrument;
            Value(s.otel, k)
            == s.probes[i].promAttempts + Count(s.runs, HalfAttempted(i))
               + Count(s.runs, Elsewhere(i, OtelAttempted(k))) + Count(s.runs, OtelSucceeded(k))
  {
    ReachableInv(s);
    var k := s.probes[i].spec.attemptsInstrument;
    var own := (r: Run) => PromAttempted(i)(r) || HalfAttempted(i)(r);
    CountSplit(s.runs, OtelAttempted(k), own, Elsewhere(i, OtelAttempted(k)));
    CountSplit(s.runs, own, PromAttempted(i), HalfAttempted(i));
  }

  lemma OtelSuccessesSplit(s: State, i: nat)
    requires Reachable(s) && i < |s.probes| && s.probes[i].spec.successes
    ensures var k := s.probes[i].spec.successesInstrument;
            Value(s.otel, k)
            == s.probes[i].promSuccesses + Count(s.runs, HalfSucceeded(i))
               + Count(s.runs, Elsewhere(i, OtelSucceeded(k))) + Count(s.runs, OtelAttempted(k))
  {
    ReachableInv(s);
    var k := s.probes[i].spec.successesInstrument;
    var own := (r: Run) => PromSucceeded(i)(r) || HalfSucceeded(i)(r);
    CountSplit(s.runs, OtelSucceeded(k), own, Elsewhere(i, OtelSucceeded(k)));
    CountSplit(s.runs, own, PromSucceeded(i), HalfSucceeded(i));
  }

  /** A probe's OpenTelemetry attempts are ahead of its Prometheus attempts by exactly its runs
      between the two increments, if and only if no attempt of another probe and no success has
      gone to the same count. */
  lemma AttemptsAgreeIff(s: State, i: nat)
    requires Reachable(s) && i < |s.probes| && s.probes[i].spec.attempts
    ensures var k := s.probes[i].spec.attemptsInstrument;
            Value(s.otel, k) == s.probes[i].promAttempts + Count(s.runs, HalfAttempted(i))
            <==> forall r :: r in s.runs ==> !(OtelAttempted(k)(r) && r.probe != i) && !OtelSucceeded(k)(r)
  {
    var k := s.probes[i].spec.attemptsInstrument;
    OtelAttemptsSplit(s, i);
    CountZeroIff(s.runs, Elsewhere(i, OtelAttempted(k)));
    CountZeroIff(s.runs, OtelSucceeded(k));
  }

  lemma SuccessesAgreeIff(s: State, i: nat)
    requires Reachable(s) && i < |s.probes| && s.probes[i].spec.successes
    ensures var k := s.probes[i].spec.successesInstrument;
            Value(s.otel, k) == s.probes[i].promSuccesses + Count(s.runs, HalfSucceeded(i))
            <==> forall r :: r in s.runs ==> !(OtelSucceeded(k)(r) && r.probe != i) && !OtelAttempted(k)(r)
  {
    var k := s.probes[i].spec.successesInstrument;
    OtelSuccessesSplit(s, i);
    CountZeroIff(s.runs, Elsewhere(i, OtelSucceeded(k)));
    CountZeroIff(s.runs, OtelAttempted(k));
  }

  function Instruments(spec: Spec): set<Instrument> {
    {spec.attemptsInstrument, spec.successesInstrument}
  }

  /** Probe i has its two instruments to itself. */
  predicate Unshared(s: State, i: nat)
    requires i < |s.probes|
  {
    && s.probes[i].spec.attemptsInstrument != s.probes[i].spec.successesInstrument
    && forall j :: 0 <= j < |s.probes| && j != i ==> Instruments(s.probes[j].spec) !! Instruments(s.probes[i].spec)
  }

  /** So with instruments of its own a probe's counts always agree in that sense; for a success with
      a response time the mutex lets at most one run be between the increments. */
  lemma CountersAgree(s: State, i: nat)
    requires Reachable(s) && i < |s.probes| && Unshared(s, i)
    requires s.probes[i].spec.attempts && s.probes[i].spec.successes
    ensures var p := s.probes[i];
            && Value(s.otel, p.spec.attemptsInstrument) == p.promAttempts + Count(s.runs, HalfAttempted(i))
            && Value(s.otel, p.spec.successesInstrument) == p.promSuccesses + Count(s.runs, HalfSucceeded(i))
    ensures s.probes[i].spec.responseTime ==> Count(s.runs, HalfSucceeded(i)) <= 1
  {
    ReachableInv(s);
    forall r | r in s.runs ensures r.spec == s.probes[r.probe].spec && r.probe < |s.probes| {
    }
    AttemptsAgreeIff(s, i);
    SuccessesAgreeIff(s, i);
    if s.probes[i].spec.responseTime {
      AtMostOneHalf(s, i);
    }
  }

  /** Only neighbouring generations can share an instrument. */
  lemma SharedOnlyByNeighbours(s: State, i: nat, j: nat)
    requires Reachable(s) && i < |s.probes| && j < |s.probes|
    requires s.probes[i].generation + 1 < s.probes[j].generation
    ensures Instruments(s.probes[i].spec) !! Instruments(s.probes[j].spec)
  {
    ReachableInv(s);
    var p, q := s.probes[i], s.probes[j];
    assert MadeWith(p.spec, p.generation) || MadeWith(p.spec, p.generation + 1);
    assert MadeWith(q.spec, q.generation) || MadeWith(q.spec, q.generation + 1);
  }

  lemma AtMostOneHalf(s: State, i: nat)
    requires Inv(s) && i < |s.probes| && s.probes[i].spec.responseTime
    ensures Count(s.runs, HalfSucceeded(i)) <= 1
  {
    var f := HalfSucceeded(i);
    if s.mutex == FREE {
      CountZero(s.runs, f);
    } else {
      var m := s.mutex as nat;
      assert s.runs == s.runs[..m] + ([s.runs[m]] + s.runs[m + 1..]);
      CountConcat(s.runs[..m], [s.runs[m]] + s.runs[m + 1..], f);
      CountConcat([s.runs[m]], s.runs[m + 1..], f);
      assert forall r :: 0 <= r < |s.runs| && f(s.runs[r]) ==> r == m;
      CountZero(s.runs[..m], f);
      CountZero(s.runs[m + 1..], f);
    }
  }

  lemma Step(s: State, l: Label) returns (t: State)
    requires Reachable(s) && Enabled(s, l)
    ensures t == Next(s, l) && Reachable(t)
  {
    t := Next(s, l);
    var run :| Runs(Init(), run, s);
    RunsConcat(Init(), run, s, [l], t);
  }

  lemma {:induction false} RunsConcat(s: State, first: seq<Label>, t: State, second: seq<Label>, u: State)
    requires Runs(s, first, t) && Runs(t, second, u)
    ensures Runs(s, first + second, u)
    decreases |first|
  {
    if first == [] {
      assert first + second == second;
    } else {
      RunsConcat(Next(s, first[0]), first[1..], t, second, u);
      assert (first + second)[1..] == first[1..] + second;
    }
  }

  lemma FirstLaunch(spec: Spec) returns (s: State)
    requires spec.attempts && MadeWith(spec, 2)
    ensures Reachable(s) && s.probes == [Probe(1, spec, 0, 0)] && s.runs == [Run(0, spec, Created)]
    ensures s.generation == 1 && s.otel == map[]
  {
    assert Runs(Init(), [], Init());
    s := Step(Init(), Reconfigure([spec], 2));
    assert s.probes == [Probe(1, spec, 0, 0)];
    s := Step(s, Launch(0));
  }

  lemma FirstAttemptFails(spec: Spec) returns (s: State)
    requires spec.attempts && MadeWith(spec, 2)
    ensures Reachable(s) && |s.probes| == 1 && |s.runs| == 1 && s.runs[0].pc == Failed
    ensures s.generation == 1 && s.probes[0].spec == spec && Value(s.otel, spec.attemptsInstrument) == 1
  {
    s := FirstLaunch(spec);
    s := Step(s, OtelAttempt(0));
    s := Step(s, PromAttempt(0));
    s := Step(s, Fail(0));
  }

  /** Neighbours do share: when providers 2 are installed for both of the first two generations, as
      the protocol allows (ProtocolSafety.SameProvidersTwice), a metric that keeps its name counts
      attempts of both, and its counts disagree although no run is under way. */
  lemma SharedInstrumentDisagrees(spec: Spec) returns (s: State)
    requires spec.attempts && MadeWith(spec, 2)
    ensures Reachable(s) && |s.probes| == 2 && s.probes[0].spec == s.probes[1].spec == spec
    ensures forall r :: 0 <= r < |s.runs| ==> s.runs[r].pc in {Succeeded, Failed, Aborted}
    ensures Value(s.otel, spec.attemptsInstrument) > s.probes[1].promAttempts
  {
    s := FirstAttemptFails(spec);
    s := Step(s, Reconfigure([spec], 2));
  }

  // ---------- generations ----------

  lemma {:induction false} RunKeepsProbes(s: State, run: seq<Label>, t: State)
    requires Runs(s, run, t)
    ensures |s.runs| <= |t.runs| && |s.probes| <= |t.probes|
    ensures forall r :: 0 <= r < |s.runs| ==> t.runs[r].probe == s.runs[r].probe && t.runs[r].spec == s.runs[r].spec
    decreases |run|
  {
    if run == [] {
    } else {
      RunKeepsProbes(Next(s, run[0]), run[1..], t);
    }
  }

  /** Runs that a class leaves out do not count. */
  lemma CountSuffix(runs: seq<Run>, m: nat, f: Run -> bool)
    requires m <= |runs| && forall r :: 0 <= r < m ==> !f(runs[r])
    ensures Count(runs, f) == Count(runs[m..], f)
  {
    assert runs == runs[..m] + runs[m..];
    CountConcat(runs[..m], runs[m..], f);
    CountZero(runs[..m], f);
  }

  /** Whatever happens after a reconfiguration, the Prometheus counters of the new probes count
      only runs launched after it: a late run of the old generation never touches them. */
  lemma NewProbesCountNewRuns(s: State, l: Label, u: State, run: seq<Label>, t: State, j: nat)
    requires Reachable(s) && l.Reconfigure? && Enabled(s, l) && u == Next(s, l) && Runs(u, run, t)
    requires |s.probes| <= j < |u.probes|
    ensures |s.runs| <= |t.runs| && j < |t.probes|
    ensures t.probes[j].promAttempts == Count(t.runs[|s.runs|..], PromAttempted(j))
    ensures t.probes[j].promSuccesses == Count(t.runs[|s.runs|..], PromSucceeded(j))
  {
    ReachableInv(s);
    StepInv(s, l);
    RunInv(u, run, t);
    RunKeepsProbes(u, run, t);
    assert forall r :: 0 <= r < |s.runs| ==> t.runs[r].probe < |s.probes|;
    CountSuffix(t.runs, |s.runs|, PromAttempted(j));
    CountSuffix(t.runs, |s.runs|, PromSucceeded(j));
  }
}

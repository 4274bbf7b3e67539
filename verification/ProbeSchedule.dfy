/**
 When egress starts probes: a ticker whose channel holds one tick and is not drained by
 Stop or Reset, the initial delay of the config in force, and the probe list that every
 update replaces.
 */
module ProbeSchedule {
  /** The egress part of a config; durations in nanoseconds. */
  datatype Config = Config(probes: seq<string>, initialDelay: int, period: int)

  /** A probe started: of which applied config (counted from 1), which probe, and when. */
  datatype Start = Start(version: nat, probe: string, time: int)

  /** A config applied, and when. */
  datatype Applied = Applied(config: Config, time: int)

  datatype State = State(
    now: int, ticking: bool, tick: seq<int>, initialDelayTime: int,
    applied: seq<Applied>, started: seq<Start>)

  datatype Event =
    | Elapse(duration: nat)    // time passes
    | Fire                     // the ticker fires
    | ServeTick                // the select takes the tick
    | Apply(config: Config)    // the rest of updateConfig, after the token

  /** Before any config the ticker is stopped. */
  function Init(start: int): State {
    State(start, false, [], start, [], [])
  }

  predicate Enabled(s: State, e: Event) {
    match e
    case Elapse(_) => true
    case Fire => s.ticking
    case ServeTick => s.tick != []
    case Apply(_) => true
  }

  /** The probes of a list, started now under config `version`. */
  function Starts(version: nat, probes: seq<string>, now: int): (r: seq<Start>)
    ensures |r| == |probes| && forall i :: 0 <= i < |r| ==> r[i] == Start(version, probes[i], now)
  {
    seq(|probes|, i requires 0 <= i < |probes| => Start(version, probes[i], now))
  }

  function InForce(s: State): seq<string> {
    if s.applied == [] then [] else s.applied[|s.applied| - 1].config.probes
  }

  function Next(s: State, e: Event): State
    requires Enabled(s, e)
  {
    match e
    case Elapse(d) => s.(now := s.now + d)
    case Fire => if s.tick == [] then s.(tick := [s.now]) else s
    case ServeTick =>
      var starts := if s.initialDelayTime < s.now then Starts(|s.applied|, InForce(s), s.now) else [];
      s.(tick := s.tick[1..], started := s.started + starts)
    case Apply(c) =>
      s.(applied := s.applied + [Applied(c, s.now)], initialDelayTime := s.now + c.initialDelay, ticking := c.period > 0)
  }

  ghost predicate Runs(s: State, run: seq<Event>, t: State)
    decreases |run|
  {
    if run == [] then s == t
    else Enabled(s, run[0]) && Runs(Next(s, run[0]), run[1..], t)
  }

  /** Egress's own variables, updated step by step. */
  class Egress {
    var now: int
    var ticking: bool
    var tick: seq<int>
    var initialDelayTime: int
    var probes: seq<string>
    var version: nat
    var started: seq<Start>
    ghost var applied: seq<Applied>

    ghost function View(): State
      reads this
    {
      State(now, ticking, tick, initialDelayTime, applied, started)
    }

    ghost predicate Valid()
      reads this
    {
      probes == InForce(View()) && version == |applied|
    }

    constructor (start: int)
      ensures Valid() && View() == Init(start)
    {
      now, ticking, tick, initialDelayTime := start, false, [], start;
      probes, version, started, applied := [], 0, [], [];
    }

    method UpdateConfig(config: Config)
      requires Valid()
      modifies this
      ensures Valid() && View() == Next(old(View()), Apply(config))
    {
      probes := [];
      for i := 0 to |config.probes|
        invariant probes == config.probes[..i]
        invariant View() == old(View()) && version == old(version)
      {
        probes := probes + [config.probes[i]];
      }
      initialDelayTime := now + config.initialDelay;
      ticking := config.period > 0;
      version := version + 1;
      applied := applied + [Applied(config, now)];
    }

    method OnTick()
      requires Valid() && tick != []
      modifies this
      ensures Valid() && View() == Next(old(View()), ServeTick)
    {
      tick := tick[1..];
      if initialDelayTime < now {
        PerformProbes();
      }
    }

    method PerformProbes()
      modifies `started
      ensures started == old(started) + Starts(version, probes, now)
    {
      for i := 0 to |probes|
        invariant started == old(started) + Starts(version, probes, now)[..i]
      {
        started := started + [Start(version, probes[i], now)];
      }
    }
  }

  // ---------- every run ----------

  /** Was the start made under the config applied as number `version`, and after its delay? */
  predicate Proper(s: State, x: Start) {
    && 1 <= x.version <= |s.applied|
    && x.probe in s.applied[x.version - 1].config.probes
    && s.applied[x.version - 1].time <= x.time <= s.now
    && s.applied[x.version - 1].time + s.applied[x.version - 1].config.initialDelay < x.time
    && (x.version < |s.applied| ==> x.time <= s.applied[x.version].time)
  }

  predicate Inv(s: State) {
    && |s.tick| <= 1
    && (s.applied == [] ==> !s.ticking && s.tick == [] && s.started == [])
    && (s.applied != [] ==>
          var last := s.applied[|s.applied| - 1];
          last.time <= s.now && s.initialDelayTime == last.time + last.config.initialDelay)
    && (forall i :: 0 <= i < |s.started| ==> Proper(s, s.started[i]))
  }

  lemma StepInv(s: State, e: Event)
    requires Inv(s) && Enabled(s, e)
    ensures Inv(Next(s, e))
  {
  }

  /** In every run no probe starts before a first config is applied, and every probe started is of
      the config applied most recently, later than that config's initial delay. */
  lemma {:induction false} StartsAreProper(s: State, run: seq<Event>, t: State)
    requires Inv(s) && Runs(s, run, t)
    ensures Inv(t)
    ensures t.applied == [] ==> t.started == []
    ensures forall i :: 0 <= i < |t.started| ==> Proper(t, t.started[i])
    decreases |run|
  {
    if run == [] {
    } else {
      StepInv(s, run[0]);
      StartsAreProper(Next(s, run[0]), run[1..], t);
    }
  }

  lemma InitInv(start: int)
    ensures Inv(Init(start))
  {
  }

  function TicksServed(run: seq<Event>): nat {
    if run == [] then 0 else (if run[0].ServeTick? then 1 else 0) + TicksServed(run[1..])
  }

  /** After a config without a positive period, and until the next config, only the one tick that
      was already in the channel is still served. */
  lemma {:induction false} StoppedTicker(s: State, run: seq<Event>, t: State)
    requires Inv(s) && !s.ticking && Runs(s, run, t)
    requires forall k :: 0 <= k < |run| ==> !run[k].Apply?
    ensures TicksServed(run) + |t.tick| == |s.tick| <= 1
    decreases |run|
  {
    if run == [] {
    } else {
      StepInv(s, run[0]);
      assert !run[0].Apply?;
      StoppedTicker(Next(s, run[0]), run[1..], t);
    }
  }

  /** That tick is real: it can start the probes of a config whose period says never. */
  lemma StaleTickStarts(start: int, first: Config, second: Config) returns (run: seq<Event>, t: State)
    requires first.period > 0 && second.period <= 0 && second.initialDelay >= 0
    ensures Runs(Init(start), run, t) && !t.ticking
    ensures t.started == Starts(2, second.probes, t.now)
  {
    var s1 := Next(Init(start), Apply(first));
    var s2 := Next(s1, Fire);
    var s3 := Next(s2, Apply(second));
    var s4 := Next(s3, Elapse(second.initialDelay + 1));
    t := Next(s4, ServeTick);
    var r4 := [ServeTick];
    assert Runs(s4, r4, t);
    var r3 := [Elapse(second.initialDelay + 1)] + r4;
    assert Runs(s3, r3, t);
    var r2 := [Apply(second)] + r3;
    assert Runs(s2, r2, t);
    var r1 := [Fire] + r2;
    assert Runs(s1, r1, t);
    run := [Apply(first)] + r1;
    assert [] + t.started == t.started;
  }

  /** A run of the config in force alone. */
  ghost predicate RunsWithoutApply(s: State, run: seq<Event>, t: State) {
    Runs(s, run, t) && forall k :: 0 <= k < |run| ==> !run[k].Apply?
  }

  lemma {:induction false} NothingToStart(s: State, run: seq<Event>, t: State)
    requires !s.ticking && (s.tick == [] || InForce(s) == []) && RunsWithoutApply(s, run, t)
    ensures t.started == s.started
    decreases |run|
  {
    if run == [] {
    } else {
      assert !run[0].Apply?;
      NothingToStart(Next(s, run[0]), run[1..], t);
    }
  }

  /** The buffered tick, served late enough, starts the whole list in force. */
  lemma BufferedTickStarts(s: State) returns (run: seq<Event>, t: State)
    requires s.tick != []
    ensures RunsWithoutApply(s, run, t)
    ensures t.started == s.started + Starts(|s.applied|, InForce(s), t.now)
  {
    var wait: nat := if s.initialDelayTime < s.now then 0 else s.initialDelayTime - s.now + 1;
    var s1 := Next(s, Elapse(wait));
    t := Next(s1, ServeTick);
    assert Runs(s1, [ServeTick], t);
    run := [Elapse(wait), ServeTick];
    assert run[1..] == [ServeTick];
  }

  /** A stopped ticker starts no further probe, whatever happens until the next config, if and only
      if no tick is buffered or no probe is in force. */
  lemma StoppedStartsNothingIff(s: State)
    requires !s.ticking
    ensures (forall run, t :: RunsWithoutApply(s, run, t) ==> t.started == s.started)
            <==> s.tick == [] || InForce(s) == []
  {
    if s.tick == [] || InForce(s) == [] {
      forall run, t | RunsWithoutApply(s, run, t) ensures t.started == s.started {
        NothingToStart(s, run, t);
      }
    } else {
      var run, t := BufferedTickStarts(s);
      assert |t.started| > |s.started|;
    }
  }

  // ---------- what is started, told by the events alone ----------

  function ElapsedBy(e: Event): int {
    if e.Elapse? then e.duration else 0
  }

  function AppliedBy(e: Event, now: int): seq<Applied> {
    if e.Apply? then [Applied(e.config, now)] else []
  }

  /** What an event has to start: a tick, every probe of the latest config once its initial delay is
      over; anything else, nothing. */
  function DueBy(e: Event, applied: seq<Applied>, now: int): seq<Start> {
    if !e.ServeTick? || applied == [] then []
    else
      var last := applied[|applied| - 1];
      if now > last.time + last.config.initialDelay then Starts(|applied|, last.config.probes, now) else []
  }

  /** The time after a run. */
  function Clock(start: int, run: seq<Event>): int {
    if run == [] then start else Clock(start, run[..|run| - 1]) + ElapsedBy(run[|run| - 1])
  }

  /** The configs applied in a run, and when. */
  function AppliedIn(start: int, run: seq<Event>): seq<Applied> {
    if run == [] then []
    else
      var before := run[..|run| - 1];
      AppliedIn(start, before) + AppliedBy(run[|run| - 1], Clock(start, before))
  }

  /** What the events of a run have to start. */
  function AllDue(start: int, run: seq<Event>): seq<Start> {
    if run == [] then []
    else
      var before := run[..|run| - 1];
      AllDue(start, before) + DueBy(run[|run| - 1], AppliedIn(start, before), Clock(start, before))
  }

  /** Has the ticker fired since a tick was last served? */
  predicate TickWaits(run: seq<Event>) {
    exists k :: 0 <= k < |run| && run[k].Fire? && forall j :: k < j < |run| ==> !run[j].ServeTick?
  }

  /** The last step of a run. */
  lemma {:induction false} RunsLast(s: State, run: seq<Event>, t: State) returns (u: State)
    requires Runs(s, run, t) && run != []
    ensures Runs(s, run[..|run| - 1], u) && Enabled(u, run[|run| - 1]) && t == Next(u, run[|run| - 1])
    decreases |run|
  {
    if |run| == 1 {
      u := s;
    } else {
      u := RunsLast(Next(s, run[0]), run[1..], t);
      assert run[..|run| - 1][1..] == run[1..][..|run| - 2];
    }
  }

  /** One event, by its effect on the clock, the configs, the starts and the ticker. */
  lemma HistoryNext(s: State, e: Event)
    requires Inv(s) && Enabled(s, e)
    ensures var t := Next(s, e);
            && t.now == s.now + ElapsedBy(e)
            && t.applied == s.applied + AppliedBy(e, s.now)
            && t.started == s.started + DueBy(e, s.applied, s.now)
            && (t.tick != [] <==> e.Fire? || (s.tick != [] && !e.ServeTick?))
            && t.ticking == if e.Apply? then e.config.period > 0 else s.ticking
  {
  }

  lemma TickWaitsNext(run: seq<Event>, e: Event)
    ensures TickWaits(run + [e]) <==> e.Fire? || (TickWaits(run) && !e.ServeTick?)
  {
    var all := run + [e];
    assert all[|run|] == e;
    if e.Fire? {
      assert all[|run|].Fire?;
    } else if TickWaits(run) && !e.ServeTick? {
      var k :| 0 <= k < |run| && run[k].Fire? && forall j :: k < j < |run| ==> !run[j].ServeTick?;
      assert all[k].Fire?;
    }
    if k :| 0 <= k < |all| && all[k].Fire? && forall j :: k < j < |all| ==> !all[j].ServeTick? {
      if k < |run| {
        assert run[k].Fire? && !all[|run|].ServeTick?;
        assert forall j :: k < j < |run| ==> run[j] == all[j];
      }
    }
  }

  /** The state that the events of a run lead to. */
  predicate LedTo(start: int, run: seq<Event>, s: State) {
    && s.now == Clock(start, run) && s.applied == AppliedIn(start, run) && s.started == AllDue(start, run)
    && (s.tick != [] <==> TickWaits(run))
    && (s.ticking <==> s.applied != [] && s.applied[|s.applied| - 1].config.period > 0)
  }

  lemma LedToNext(start: int, run: seq<Event>, s: State, e: Event)
    requires Inv(s) && LedTo(start, run, s) && Enabled(s, e)
    ensures LedTo(start, run + [e], Next(s, e))
  {
    HistoryNext(s, e);
    TickWaitsNext(run, e);
    assert (run + [e])[..|run|] == run;
  }

  lemma {:induction false} LedToOfRun(start: int, run: seq<Event>, t: State)
    requires Runs(Init(start), run, t)
    ensures Inv(t) && LedTo(start, run, t)
    decreases |run|
  {
    if run == [] {
    } else {
      var before, last := run[..|run| - 1], run[|run| - 1];
      var u := RunsLast(Init(start), run, t);
      LedToOfRun(start, before, u);
      StepInv(u, last);
      LedToNext(start, before, u, last);
      assert run == before + [last];
    }
  }

  /** In every run each tick that is served starts exactly what is due, so that what was started is what
      all of them had to start; a tick is there to be served if and only if the ticker has fired since
      the last one, and it fires only under a config with a positive period. */
  lemma StartsWhatIsDue(start: int, run: seq<Event>, t: State)
    requires Runs(Init(start), run, t)
    ensures t.started == AllDue(start, run)
    ensures Enabled(t, ServeTick) <==> TickWaits(run)
    ensures var applied := AppliedIn(start, run);
            Enabled(t, Fire) <==> applied != [] && applied[|applied| - 1].config.period > 0
  {
    LedToOfRun(start, run, t);
  }
}

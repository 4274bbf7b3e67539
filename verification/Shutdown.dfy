/**
 What happens after the OS signal is forwarded.  A select prefers neither the signal
 nor a queued config, so telemetry may return while a listener still waits for its
 token: shutdown can hang.  This module proves that there is never a cyclic wait, and
 that shutdown completes on every schedule exactly when telemetry has taken the latest
 config at the moment the fan-out starts.
 */
module Shutdown {
  import opened Protocol
  import opened ProtocolInvariant
  import opened ProtocolProgress
  import ProtocolSafety

  datatype Goroutine = GoConfig | GoListener(i: nat) | GoSignals | GoTelemetry

  predicate Exists(s: State, g: Goroutine) {
    g.GoListener? ==> g.i < |s.listeners|
  }

  predicate Returned(s: State, g: Goroutine)
    requires Exists(s, g)
  {
    match g
    case GoConfig => s.config.ConfigDone?
    case GoListener(i) => s.listeners[i].pc.ListenerDone?
    case GoSignals => s.signals.SignalsDone?
    case GoTelemetry => s.telemetry.TelemetryDone?
  }

  /** The goroutine at the other end of the one channel operation that `g` is in the middle of
      (itself, when `g` is not in the middle of one). */
  function WaitsFor(s: State, g: Goroutine): (peer: Goroutine)
    requires RoundInv(s) && Exists(s, g)
    ensures Exists(s, peer)
  {
    var n := |s.listeners|;
    match g
    case GoConfig =>
      if !s.config.Broadcasting? then g
      else if s.config.next < n then GoListener(s.config.next)
      else if s.config.next == n then GoSignals
      else GoTelemetry
    case GoListener(i) => if s.listeners[i].pc.AwaitingToken? then GoTelemetry else g
    case GoSignals => g
    case GoTelemetry => if s.telemetry.Notifying? then GoListener(s.telemetry.to) else g
  }

  /** Following who waits for whom, a returned goroutine is met within `hops` hops. */
  predicate EndsAtReturned(s: State, g: Goroutine, hops: nat)
    requires RoundInv(s) && Exists(s, g)
    decreases hops
  {
    Returned(s, g) || (hops > 0 && EndsAtReturned(s, WaitsFor(s, g), hops - 1))
  }

  /** When the fan-out is over and nothing more can happen, telemetry has returned, a listener
      still alive waits for a token that will never come, and config, if alive, for a full
      channel. */
  lemma StuckStates(s: State)
    requires Inv(s) && Stuck(s) && s.signals.SignalsDone?
    ensures s.telemetry.TelemetryDone?
    ensures s.config.ConfigDone? || (s.config.Broadcasting? && !Enabled(s, ConfigSend))
    ensures forall i: nat :: i < |s.listeners| ==>
              var p := s.listeners[i];
              p.pc.ListenerDone? || (p.pc.AwaitingToken? && p.token == [])
  {
    assert !Enabled(s, ConfigSignal) && !Enabled(s, ConfigSend);
    assert !Enabled(s, TelemetrySignal) && !Enabled(s, Notify) && !Enabled(s, Install);
    if s.telemetry.Notifying? {
      BlockedNotify(s);
      assert false;
    }
    forall i: nat | i < |s.listeners|
      ensures var p := s.listeners[i];
              p.pc.ListenerDone? || (p.pc.AwaitingToken? && p.token == [])
    {
      assert SignalInv(s, i + 1, s.listeners[i].signal, s.listeners[i].pc.ListenerDone?);
      assert !Enabled(s, ListenerSignal(i)) && !Enabled(s, Token(i));
    }
  }

  /** Nothing can be stuck before the fan-out is over, except when there is nothing to do: no round
      in flight and no signal to notice. */
  lemma StuckPhases(s: State)
    requires Reachable(s) && Stuck(s)
    ensures s.signals.SignalsDone? || (s.signals.Listening? && s.os == [] && Quiescent(s))
  {
    ReachableInv(s);
    assert !Enabled(s, ProcessGone) && !Enabled(s, SignalsNotice) && !Enabled(s, Forward);
    if s.signals.Forwarding? {
      FanOutNeverBlocks(s);
      assert false;
    } else if s.signals.Listening? && !Quiescent(s) {
      var l := Progress(s);
      assert false;
    }
  }

  /** There is no cyclic wait: in a stuck state every goroutine that has not returned waits,
      through at most one other, for one that has. */
  lemma NoCyclicWait(s: State, g: Goroutine)
    requires Reachable(s) && Stuck(s) && s.signals.SignalsDone? && Exists(s, g)
    ensures Inv(s) && EndsAtReturned(s, g, 2)
  {
    ReachableInv(s);
    StuckStates(s);
    assert EndsAtReturned(s, GoTelemetry, 0);
    forall i: nat | i < |s.listeners| ensures EndsAtReturned(s, GoListener(i), 1) {
      assert s.listeners[i].pc.ListenerDone? || WaitsFor(s, GoListener(i)) == GoTelemetry;
    }
  }

  // ---------- when shutdown completes ----------

  /** The fan-out is about to start. */
  predicate FanOutStarts(s: State) {
    s.signals.Forwarding? && s.signals.next == 0
  }

  /** Telemetry has taken every version that config has announced. */
  predicate TelemetryCaughtUp(s: State) {
    s.telemetryTaken == s.version
  }

  predicate FanOutUnderWay(s: State) {
    s.signals.Forwarding? || s.signals.SignalsDone?
  }

  lemma StepCaughtUp(s: State, l: Label)
    requires Inv(s) && TelemetryCaughtUp(s) && FanOutUnderWay(s) && Enabled(s, l) && !Environment(l)
    ensures TelemetryCaughtUp(Next(s, l)) && FanOutUnderWay(Next(s, l))
  {
  }

  lemma FanOutNeverBlocks(s: State)
    requires Inv(s) && s.signals.Forwarding?
    ensures Enabled(s, Forward)
  {
    var k := s.signals.next;
    if 1 <= k <= |s.listeners| {
      assert SignalInv(s, k, s.listeners[k - 1].signal, s.listeners[k - 1].pc.ListenerDone?);
    }
  }

  lemma CaughtUpReturns(s: State)
    requires Inv(s) && TelemetryCaughtUp(s) && FanOutUnderWay(s) && Stuck(s)
    ensures AllReturned(s)
  {
    if s.signals.Forwarding? {
      FanOutNeverBlocks(s);
      assert false;
    }
    StuckStates(s);
    forall i: nat | i < |s.listeners| ensures s.listeners[i].pc.ListenerDone? {
      assert ListenerInv(s.listeners[i], Sent(s, i), TokensSent(s, i));
    }
  }

  lemma {:induction false} CompletesWhenCaughtUp(s: State, run: seq<Label>, t: State)
    requires Inv(s) && TelemetryCaughtUp(s) && FanOutUnderWay(s)
    requires Runs(s, run, t) && NoEnvironment(run) && Stuck(t)
    ensures AllReturned(t)
    decreases |run|
  {
    if run == [] {
      CaughtUpReturns(s);
    } else {
      StepInv(s, run[0]);
      StepCaughtUp(s, run[0]);
      CompletesWhenCaughtUp(Next(s, run[0]), run[1..], t);
    }
  }

  /** Listener i waits for a token and telemetry has returned. */
  predicate Hung(s: State, i: nat) {
    && s.telemetry.TelemetryDone?
    && i < |s.listeners|
    && s.listeners[i].pc.AwaitingToken? && s.listeners[i].token == []
  }

  /** No step of anyone, not even a new config, ends a hang. */
  lemma {:induction false} HungForever(s: State, i: nat, run: seq<Label>, t: State)
    requires Hung(s, i) && Runs(s, run, t)
    ensures Hung(t, i)
    decreases |run|
  {
    if run == [] {
    } else {
      HungForever(Next(s, run[0]), i, run[1..], t);
    }
  }

  /** Nobody has acted on the signal yet. */
  predicate Alive(s: State) {
    && !s.config.ConfigDone? && !s.telemetry.TelemetryDone?
    && forall i :: 0 <= i < |s.listeners| ==> !s.listeners[i].pc.ListenerDone?
  }

  /** At the start of the fan-out everyone is alive. */
  lemma AliveAtFanOut(s: State)
    requires Inv(s) && FanOutStarts(s)
    ensures Alive(s)
  {
    forall i | 0 <= i < |s.listeners| ensures !s.listeners[i].pc.ListenerDone? {
      assert SignalInv(s, i + 1, s.listeners[i].signal, s.listeners[i].pc.ListenerDone?);
    }
  }

  /** A broadcast that cannot be sent to a live listener while telemetry has nothing to do: that
      listener can take its config or its token. */
  lemma BlockedSend(s: State) returns (l: Label)
    requires Inv(s) && Alive(s) && s.telemetry.Idle? && s.telemetryConfig == []
    requires s.config.Broadcasting? && s.config.next < |s.listeners| && !Enabled(s, ConfigSend)
    ensures Enabled(s, l) && (l.Take? || l.Token?)
  {
    var k := s.config.next;
    if s.listeners[k].pc.Ready? {
      l := Take(k);
    } else {
      l := Token(k);
      if s.listeners[k].token == [] {
        WaitingAheadOfTelemetry(s, k);
        assert false;
      }
    }
  }

  /** While telemetry is behind, one of the parties can move towards the hang of listener i. */
  lemma TowardsHang(s: State, i: nat) returns (l: Label)
    requires Inv(s) && s.signals.SignalsDone? && Alive(s) && !TelemetryCaughtUp(s) && i < |s.listeners|
    ensures Enabled(s, l) && !Environment(l)
    ensures !l.ConfigSignal? && !l.ListenerSignal? && !l.TelemetryTake?
    ensures l.TelemetrySignal? ==> Hung(Next(s, l), i)
  {
    assert ListenerInv(s.listeners[i], Sent(s, i), TokensSent(s, i));
    var p := s.listeners[i];
    if s.telemetry.Installing? {
      l := Install;
    } else if s.telemetry.Notifying? {
      if Enabled(s, Notify) {
        l := Notify;
      } else {
        BlockedNotify(s);
        l := Token(s.telemetry.to);
      }
    } else if p.pc.AwaitingToken? {
      l := if p.token != [] then Token(i) else TelemetrySignal;
    } else if p.config != [] {
      l := Take(i);
    } else if Enabled(s, ConfigSend) {
      l := ConfigSend;
    } else {
      l := BlockedSend(s);
    }
  }

  /** Such a move keeps the parties alive and telemetry behind. */
  lemma StaysBehind(s: State, l: Label)
    requires Alive(s) && !TelemetryCaughtUp(s) && Enabled(s, l) && !Environment(l)
    requires !l.ConfigSignal? && !l.ListenerSignal? && !l.TelemetryTake? && !l.TelemetrySignal?
    ensures Alive(Next(s, l)) && !TelemetryCaughtUp(Next(s, l)) && |Next(s, l).listeners| == |s.listeners|
  {
  }

  lemma {:induction false} ReachHang(s: State, i: nat) returns (run: seq<Label>, t: State)
    requires Inv(s) && s.signals.SignalsDone? && Alive(s) && !TelemetryCaughtUp(s) && i < |s.listeners|
    ensures Runs(s, run, t) && NoEnvironment(run) && Inv(t) && Hung(t, i)
    decreases Budget(s)
  {
    var l := TowardsHang(s, i);
    t := Next(s, l);
    StepInv(s, l);
    StepBudget(s, l);
    BudgetNonNegative(t);
    if l.TelemetrySignal? {
      run := [l];
    } else {
      StaysBehind(s, l);
      run, t := ReachHang(t, i);
      run := [l] + run;
    }
  }

  /** The fan-out can run to its end before anyone looks at its signal. */
  lemma {:induction false} ForwardAll(s: State) returns (run: seq<Label>, t: State)
    requires Inv(s) && s.signals.Forwarding? && Alive(s)
    ensures Runs(s, run, t) && NoEnvironment(run) && Inv(t) && |t.listeners| == |s.listeners|
    ensures t.signals.SignalsDone? && Alive(t) && t.version == s.version && t.telemetryTaken == s.telemetryTaken
    decreases |s.listeners| + 2 - s.signals.next
  {
    FanOutNeverBlocks(s);
    t := Next(s, Forward);
    StepInv(s, Forward);
    run := [];
    if t.signals.Forwarding? {
      run, t := ForwardAll(t);
    }
    run := [Forward] + run;
  }

  /** With telemetry behind, some schedule leaves listener i, whichever it is, waiting for good. */
  lemma HangsWhenBehind(s: State, i: nat) returns (run: seq<Label>, t: State)
    requires Inv(s) && FanOutStarts(s) && i < |s.listeners| && !TelemetryCaughtUp(s)
    ensures Runs(s, run, t) && NoEnvironment(run) && Stuck(t) && Hung(t, i)
  {
    AliveAtFanOut(s);
    var r1, s1 := ForwardAll(s);
    var r2, s2 := ReachHang(s1, i);
    var r3, s3 := Exhaust(s2);
    HungForever(s2, i, r3, s3);
    RunsConcat(s, r1, s1, r2, s2);
    RunsConcat(s, r1 + r2, s2, r3, s3);
    run, t := r1 + r2 + r3, s3;
  }

  /** A run without new input after which nothing more can happen ends in `t`. */
  ghost predicate MaximalRun(s: State, run: seq<Label>, t: State) {
    Runs(s, run, t) && NoEnvironment(run) && Stuck(t)
  }

  ghost predicate ShutdownCompletes(s: State) {
    forall run, t :: MaximalRun(s, run, t) ==> AllReturned(t)
  }

  /** Shutdown completes on every schedule, without a further config change, if and only if
      telemetry has taken the latest config when the fan-out starts. */
  lemma ShutdownCompletesIff(s: State)
    requires Reachable(s) && FanOutStarts(s) && |s.listeners| > 0
    ensures ShutdownCompletes(s) <==> TelemetryCaughtUp(s)
  {
    ReachableInv(s);
    if TelemetryCaughtUp(s) {
      forall run, t | MaximalRun(s, run, t) ensures AllReturned(t) {
        CompletesWhenCaughtUp(s, run, t);
      }
    } else {
      var run, t := HangsWhenBehind(s, 0);
      assert MaximalRun(s, run, t);
    }
  }

  /** Config is in the middle of a broadcast that still has to pass signals, whose channel is full
      and who takes no more configs. */
  predicate Blocked(s: State) {
    && !s.signals.Listening? && s.signalsConfig != []
    && s.config.Broadcasting? && s.config.next <= |s.listeners|
  }

  /** Nothing unblocks it. */
  lemma {:induction false} BlockedForever(s: State, run: seq<Label>, t: State)
    requires Blocked(s) && Runs(s, run, t)
    ensures Blocked(t)
    decreases |run|
  {
    if run == [] {
    } else {
      BlockedForever(Next(s, run[0]), run[1..], t);
    }
  }

  /** Otherwise, before the fan-out does anything, someone can move towards telemetry catching up. */
  lemma TowardsCatchUp(s: State) returns (l: Label)
    requires Inv(s) && FanOutStarts(s) && !Blocked(s) && !TelemetryCaughtUp(s)
    ensures Enabled(s, l) && !Environment(l)
    ensures FanOutStarts(Next(s, l)) && !Blocked(Next(s, l))
  {
    AliveAtFanOut(s);
    if s.telemetry.Installing? {
      l := Install;
    } else if s.telemetry.Notifying? {
      if Enabled(s, Notify) {
        l := Notify;
      } else {
        BlockedNotify(s);
        l := Token(s.telemetry.to);
      }
    } else if s.telemetryConfig != [] {
      l := TelemetryTake;
    } else if Enabled(s, ConfigSend) {
      l := ConfigSend;
    } else {
      l := BlockedSend(s);
    }
  }

  lemma {:induction false} CatchUp(s: State) returns (run: seq<Label>, t: State)
    requires Inv(s) && FanOutStarts(s) && !Blocked(s)
    ensures Runs(s, run, t) && NoEnvironment(run) && Inv(t) && FanOutStarts(t) && TelemetryCaughtUp(t)
    decreases Budget(s)
  {
    if TelemetryCaughtUp(s) {
      run, t := [], s;
    } else {
      var l := TowardsCatchUp(s);
      t := Next(s, l);
      StepInv(s, l);
      StepBudget(s, l);
      BudgetNonNegative(t);
      run, t := CatchUp(t);
      run := [l] + run;
    }
  }

  /** Some schedule without a further config change completes the shutdown. */
  ghost predicate ShutdownCanComplete(s: State) {
    exists run, t :: MaximalRun(s, run, t) && AllReturned(t)
  }

  /** Shutdown can complete at all if and only if config is not blocked on signals when the fan-out
      starts. */
  lemma CanCompleteIff(s: State)
    requires Reachable(s) && FanOutStarts(s)
    ensures ShutdownCanComplete(s) <==> !Blocked(s)
  {
    ReachableInv(s);
    if Blocked(s) {
      forall run, t | MaximalRun(s, run, t) ensures !AllReturned(t) {
        BlockedForever(s, run, t);
      }
    } else {
      var r1, s1 := CatchUp(s);
      var r2, s2 := Exhaust(s1);
      CompletesWhenCaughtUp(s1, r2, s2);
      RunsConcat(s, r1, s1, r2, s2);
      assert MaximalRun(s, r1 + r2, s2);
    }
  }

  /** Whatever is in flight, a signal that has arrived can be noticed and its fan-out start, with
      nothing else changed in between. */
  lemma PromptFanOut(s: State) returns (run: seq<Label>, t: State)
    requires s.signals.Listening? && s.os != []
    ensures Runs(s, run, t) && NoEnvironment(run) && FanOutStarts(t)
    ensures t == s.(os := s.os[1..], signals := Forwarding(s.os[0], 0))
  {
    var u := Next(s, SignalsNotice);
    t := Next(u, ProcessGone);
    assert Runs(u, [ProcessGone], t);
    run := [SignalsNotice] + [ProcessGone];
  }

  /** So a signal that arrives at any point of a round that telemetry has not taken can leave any
      listener waiting for good. */
  lemma SignalInRoundCanHang(s: State, i: nat) returns (run: seq<Label>, t: State)
    requires Reachable(s) && s.signals.Listening? && s.os != [] && !TelemetryCaughtUp(s) && i < |s.listeners|
    ensures Runs(s, run, t) && NoEnvironment(run) && Stuck(t) && Hung(t, i)
  {
    var first, u := PromptFanOut(s);
    ReachableInv(s);
    RunInv(s, first, u);
    var second;
    second, t := HangsWhenBehind(u, i);
    RunsConcat(s, first, u, second, t);
    run := first + second;
  }

  /** If the config file may still change after the fan-out starts, no state is safe. */
  lemma LateChangeCanHang(s: State) returns (run: seq<Label>, t: State)
    requires Reachable(s) && FanOutStarts(s) && |s.listeners| > 0
    ensures Runs(s, run, t) && Stuck(t) && !AllReturned(t)
  {
    ReachableInv(s);
    if TelemetryCaughtUp(s) {
      StepInv(s, ConfigChange);
      run, t := HangsWhenBehind(Next(s, ConfigChange), 0);
      run := [ConfigChange] + run;
    } else {
      run, t := HangsWhenBehind(s, 0);
    }
  }

  lemma {:induction false} RunKeepsProviders(s: State, run: seq<Label>, t: State)
    requires Inv(s) && Runs(s, run, t)
    ensures s.installed <= t.installed
    decreases |run|
  {
    if run == [] {
    } else {
      StepInv(s, run[0]);
      RunKeepsProviders(Next(s, run[0]), run[1..], t);
    }
  }

  /** The file changes just before SIGTERM arrives. */
  lemma BehindReachable() returns (u: State)
    ensures Reachable(u) && |u.listeners| == 2 && u.installed > 0
    ensures FanOutStarts(u) && !TelemetryCaughtUp(u)
  {
    u := ProtocolSafety.FirstRound();
    var p := u.listeners[0];
    u := ProtocolSafety.Step(u, ConfigChange, p, p);
    u := ProtocolSafety.Step(u, OsSignal(SIGTERM), p, p);
    u := ProtocolSafety.Step(u, SignalsNotice, p, p);
    u := ProtocolSafety.Step(u, ProcessGone, p, p);
  }

  /** A hang that Bunny can reach, with its own two listeners and providers installed. */
  lemma HangReachable() returns (t: State)
    ensures Reachable(t) && |t.listeners| == 2 && t.installed > 0
    ensures Stuck(t) && !AllReturned(t)
  {
    var u := BehindReachable();
    ReachableInv(u);
    var run;
    run, t := HangsWhenBehind(u, 0);
    RunInv(u, run, t);
    RunKeepsProviders(u, run, t);
    var n, first :| Runs(Init(n), first, u);
    RunsConcat(Init(n), first, u, run, t);
  }

  /** The process still runs when SIGTERM arrives, and the file changes. */
  lemma ChangedWhileWaiting() returns (u: State)
    ensures Reachable(u) && |u.listeners| == 2 && u.signals.WaitingForProcess?
    ensures u.config.Watching? && u.signalsConfig == [2]
  {
    u := ProtocolSafety.FirstRound();
    var p := u.listeners[0];
    var q := p.(config := [2]);
    u := ProtocolSafety.Step(u, OsSignal(SIGTERM), p, p);
    u := ProtocolSafety.Step(u, SignalsNotice, p, p);
    u := ProtocolSafety.Step(u, ConfigChange, p, p);
    u := ProtocolSafety.Step(u, ConfigSend, q, p);
    u := ProtocolSafety.Step(u, ConfigSend, q, q);
    u := ProtocolSafety.Step(u, ConfigSend, q, q);
    u := ProtocolSafety.Step(u, ConfigSend, q, q);
  }

  /** Two changes of the file during waitForProcess can leave no schedule that completes. */
  lemma BlockedReachable() returns (u: State)
    ensures Reachable(u) && |u.listeners| == 2 && FanOutStarts(u) && !ShutdownCanComplete(u)
  {
    u := ChangedWhileWaiting();
    var p, q := u.listeners[0], u.listeners[1];
    u := ProtocolSafety.Step(u, ConfigChange, p, q);
    u := ProtocolSafety.Step(u, ProcessGone, p, q);
    CanCompleteIff(u);
  }
}

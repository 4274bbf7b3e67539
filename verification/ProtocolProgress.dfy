/**
 Progress of the handshake: while no OS signal has been noticed it never deadlocks,
 every round costs exactly the same number of channel operations, and the program
 steps always run out, because every one of them pays from a finite budget.
 */
module ProtocolProgress {
  import opened Protocol
  import opened ProtocolInvariant

  function Sum(f: nat -> int, k: nat): int {
    if k == 0 then 0 else Sum(f, k - 1) + f(k - 1)
  }

  /** Changing one summand changes the sum by as much. */
  lemma {:induction false} SumChange(f: nat -> int, g: nat -> int, k: nat, j: int, d: int)
    requires forall i: nat :: i < k ==> g(i) == f(i) + (if i == j then d else 0)
    ensures Sum(g, k) == Sum(f, k) + (if 0 <= j < k then d else 0)
    decreases k
  {
    if k == 0 {
    } else {
      SumChange(f, g, k - 1, j, d);
    }
  }

  lemma {:induction false} SumConstant(f: nat -> int, k: nat, c: int)
    requires forall i: nat :: i < k ==> f(i) == c
    ensures Sum(f, k) == k * c
    decreases k
  {
    if k == 0 {
    } else {
      SumConstant(f, k - 1, c);
    }
  }

  lemma {:induction false} SumNonNegative(f: nat -> int, k: nat)
    requires forall i: nat :: i < k ==> f(i) >= 0
    ensures Sum(f, k) >= 0
    decreases k
  {
    if k == 0 {
    } else {
      SumNonNegative(f, k - 1);
    }
  }

  // ---------- counting channel operations ----------

  /** The sends and receives so far on the config and token channels of listener i. */
  function Weight(s: State, i: nat): int {
    if i < |s.listeners| then
      Sent(s, i) + s.listeners[i].taken + TokensSent(s, i) + s.listeners[i].applied
    else 0
  }

  /** The sends and receives so far on the config channels of signals and telemetry. */
  function OtherWeight(s: State): int {
    Sent(s, |s.listeners|) + s.signalsTaken + Sent(s, |s.listeners| + 1) + s.telemetryTaken
  }

  function Operations(s: State): int {
    Sum((i: nat) => Weight(s, i), |s.listeners|) + OtherWeight(s)
  }

  /** The listener whose channels a step uses, or -1. */
  function Touched(s: State, l: Label): int
    requires Enabled(s, l)
  {
    match l
    case ConfigSend => s.config.next
    case Take(i) => i
    case Token(i) => i
    case Notify => s.telemetry.to
    case _ => -1
  }

  lemma TouchingStepWeight(s: State, l: Label, i: nat)
    requires RoundInv(s) && Enabled(s, l) && i < |s.listeners|
    requires l.ConfigSend? || l.Take? || l.Token? || l.Notify?
    ensures Weight(Next(s, l), i) == Weight(s, i) + if i == Touched(s, l) then 1 else 0
  {
    assert ListenerInv(s.listeners[i], Sent(s, i), TokensSent(s, i));
  }

  lemma StepWeight(s: State, l: Label, i: nat)
    requires RoundInv(s) && Enabled(s, l) && i < |s.listeners|
    ensures Weight(Next(s, l), i) == Weight(s, i) + if i == Touched(s, l) then 1 else 0
  {
    if l.ConfigSend? || l.Take? || l.Token? || l.Notify? {
      TouchingStepWeight(s, l, i);
    } else {
      var p, q := s.listeners[i], Next(s, l).listeners[i];
      assert p.taken == q.taken && p.applied == q.applied;
    }
  }

  lemma StepSum(s: State, l: Label)
    requires RoundInv(s) && Enabled(s, l)
    ensures Sum((i: nat) => Weight(Next(s, l), i), |s.listeners|)
            == Sum((i: nat) => Weight(s, i), |s.listeners|) + if 0 <= Touched(s, l) < |s.listeners| then 1 else 0
  {
    var t := Next(s, l);
    forall i: nat | i < |s.listeners|
      ensures Weight(t, i) == Weight(s, i) + if i == Touched(s, l) then 1 else 0
    {
      StepWeight(s, l, i);
    }
    SumChange((i: nat) => Weight(s, i), (i: nat) => Weight(t, i), |s.listeners|, Touched(s, l), 1);
  }

  lemma StepOther(s: State, l: Label)
    requires RoundInv(s) && Enabled(s, l)
    ensures |Next(s, l).listeners| == |s.listeners|
    ensures OtherWeight(Next(s, l)) == OtherWeight(s)
              + if ChannelOperation(l) && !(0 <= Touched(s, l) < |s.listeners|) then 1 else 0
  {
  }

  lemma StepOperations(s: State, l: Label)
    requires RoundInv(s) && Enabled(s, l)
    ensures Operations(Next(s, l)) == Operations(s) + if ChannelOperation(l) then 1 else 0
  {
    StepSum(s, l);
    StepOther(s, l);
  }

  function CountOperations(run: seq<Label>): nat {
    if run == [] then 0
    else (if ChannelOperation(run[0]) then 1 else 0) + CountOperations(run[1..])
  }

  lemma {:induction false} RunOperations(s: State, run: seq<Label>, t: State)
    requires Inv(s) && Runs(s, run, t)
    ensures Operations(t) == Operations(s) + CountOperations(run)
    decreases |run|
  {
    if run == [] {
    } else {
      StepOperations(s, run[0]);
      StepInv(s, run[0]);
      RunOperations(Next(s, run[0]), run[1..], t);
    }
  }

  lemma InitOperations(n: nat)
    ensures Operations(Init(n)) == 0
  {
    SumConstant((i: nat) => Weight(Init(n), i), n, 0);
  }

  lemma QuiescentOperations(s: State)
    requires RoundInv(s) && Quiescent(s)
    ensures Operations(s) == |s.listeners| * (4 * s.version) + 4 * s.version
  {
    forall i: nat | i < |s.listeners| ensures Weight(s, i) == 4 * s.version {
      assert ListenerInv(s.listeners[i], Sent(s, i), TokensSent(s, i));
    }
    SumConstant((i: nat) => Weight(s, i), |s.listeners|, 4 * s.version);
  }

  /** Any number of rounds, once all of them have drained, has cost 4n + 4 channel operations
      a round: 12 with Bunny's two listeners. */
  lemma OperationsPerRound(n: nat, start: State, run: seq<Label>, s: State)
    requires start == Init(n) && Runs(start, run, s) && Quiescent(s)
    ensures CountOperations(run) == n * (4 * s.version) + 4 * s.version
    ensures n == 2 ==> CountOperations(run) == 12 * s.version
  {
    InitInv(n);
    RunInv(start, run, s);
    RunOperations(start, run, s);
    InitOperations(n);
    QuiescentOperations(s);
  }

  // ---------- the budget that every program step pays from ----------

  /** What listener i may still do in the versions announced so far, and with its signal. */
  function Slack(s: State, i: nat): int {
    if i < |s.listeners| then 4 * s.version - Weight(s, i) + |s.listeners[i].signal| else 0
  }

  /** What is left of noticing the OS signal, waiting for the process and the fan-out. */
  function SignalPhase(s: State): int {
    var n := |s.listeners|;
    match s.signals
    case Listening => 2 * n + 6
    case WaitingForProcess(_) => 2 * n + 5
    case Forwarding(_, k) => 2 * (n + 2 - k)
    case SignalsDone(_) => 0
  }

  function OtherBudget(s: State): int {
    4 * s.version - OtherWeight(s) + s.version - s.installed
    + |s.configSignal| + |s.telemetrySignal| + SignalPhase(s)
  }

  function Budget(s: State): int {
    Sum((i: nat) => Slack(s, i), |s.listeners|) + OtherBudget(s)
  }

  lemma BudgetNonNegative(s: State)
    requires Inv(s)
    ensures Budget(s) >= 0
  {
    forall i: nat | i < |s.listeners| ensures Slack(s, i) >= 0 {
      assert ListenerInv(s.listeners[i], Sent(s, i), TokensSent(s, i));
    }
    SumNonNegative((i: nat) => Slack(s, i), |s.listeners|);
  }

  /** The listener whose slack a program step changes, and by how much. */
  function SlackChange(s: State, l: Label): (r: (int, int))
    requires Enabled(s, l)
  {
    match l
    case ListenerSignal(i) => (i, -1)
    case Forward => (s.signals.next - 1, 1)
    case _ => (Touched(s, l), -1)
  }

  lemma StepSlack(s: State, l: Label, i: nat)
    requires Inv(s) && Enabled(s, l) && !Environment(l) && i < |s.listeners|
    ensures Slack(Next(s, l), i) == Slack(s, i) + if i == SlackChange(s, l).0 then SlackChange(s, l).1 else 0
  {
    StepWeight(s, l, i);
  }

  lemma StepOtherBudget(s: State, l: Label)
    requires Inv(s) && Enabled(s, l) && !Environment(l)
    ensures |Next(s, l).listeners| == |s.listeners|
    ensures OtherBudget(Next(s, l)) == OtherBudget(s) - 1
              - if 0 <= SlackChange(s, l).0 < |s.listeners| then SlackChange(s, l).1 else 0
  {
    StepOther(s, l);
  }

  /** Every step of the program itself pays exactly one. */
  lemma StepBudget(s: State, l: Label)
    requires Inv(s) && Enabled(s, l) && !Environment(l)
    ensures Budget(Next(s, l)) == Budget(s) - 1
  {
    var t := Next(s, l);
    var (j, d) := SlackChange(s, l);
    forall i: nat | i < |s.listeners| ensures Slack(t, i) == Slack(s, i) + if i == j then d else 0 {
      StepSlack(s, l, i);
    }
    SumChange((i: nat) => Slack(s, i), (i: nat) => Slack(t, i), |s.listeners|, j, d);
    StepOtherBudget(s, l);
  }

  /** Without new input, every run between two states has the same length, and none is longer
      than the budget it starts with. */
  lemma {:induction false} RunBudget(s: State, run: seq<Label>, t: State)
    requires Inv(s) && Runs(s, run, t) && NoEnvironment(run)
    ensures |run| == Budget(s) - Budget(t) <= Budget(s)
    decreases |run|
  {
    if run == [] {
      BudgetNonNegative(s);
    } else {
      StepBudget(s, run[0]);
      StepInv(s, run[0]);
      RunBudget(Next(s, run[0]), run[1..], t);
    }
  }

  /** Every state has a run without new input to a state where nothing is left to do. */
  lemma {:induction false} Exhaust(s: State) returns (run: seq<Label>, t: State)
    requires Inv(s)
    ensures Runs(s, run, t) && NoEnvironment(run) && Stuck(t)
    decreases Budget(s)
  {
    if l: Label :| Enabled(s, l) && !Environment(l) {
      StepBudget(s, l);
      StepInv(s, l);
      BudgetNonNegative(Next(s, l));
      run, t := Exhaust(Next(s, l));
      run := [l] + run;
    } else {
      run, t := [], s;
    }
  }

  // ---------- no deadlock before a signal ----------

  /** A listener that telemetry cannot notify is itself able to take its token. */
  lemma BlockedNotify(s: State)
    requires Inv(s) && s.telemetry.Notifying? && !Enabled(s, Notify)
    ensures Enabled(s, Token(s.telemetry.to))
  {
    var k := s.telemetry.to;
    assert ListenerInv(s.listeners[k], Sent(s, k), TokensSent(s, k));
  }

  /** When telemetry has nothing to do, a listener that waits without a token has taken a
      version that config has not finished broadcasting. */
  lemma WaitingAheadOfTelemetry(s: State, i: nat)
    requires Inv(s) && i < |s.listeners| && s.telemetry.Idle? && s.telemetryConfig == []
    requires s.listeners[i].pc.AwaitingToken? && s.listeners[i].token == []
    ensures s.listeners[i].taken == s.version && s.listeners[i].config == []
    ensures s.config.Broadcasting? && s.config.next > i
  {
    assert ListenerInv(s.listeners[i], Sent(s, i), TokensSent(s, i));
  }

  /** Before an OS signal is noticed, some goroutine can take a step of the handshake unless
      no round is in flight. */
  lemma Progress(s: State) returns (l: Label)
    requires Inv(s) && s.signals.Listening? && !Quiescent(s)
    ensures ChannelOperation(l) || l.Install?
    ensures Enabled(s, l)
  {
    var n := |s.listeners|;
    if s.telemetry.Installing? {
      return Install;
    } else if s.telemetry.Notifying? {
      if Enabled(s, Notify) { return Notify; }
      BlockedNotify(s);
      return Token(s.telemetry.to);
    } else if s.telemetryConfig != [] {
      return TelemetryTake;
    } else if s.signalsConfig != [] {
      return SignalsTake;
    }
    if i: nat :| i < n && Enabled(s, Take(i)) {
      return Take(i);
    } else if i: nat :| i < n && Enabled(s, Token(i)) {
      return Token(i);
    }
    l := ConfigSend;
    StalledBroadcast(s);
  }

  lemma StalledBroadcast(s: State)
    requires Inv(s) && s.signals.Listening? && !Quiescent(s)
    requires s.telemetry.Idle? && s.telemetryConfig == [] && s.signalsConfig == []
    requires forall i: nat :: i < |s.listeners| ==> !Enabled(s, Take(i)) && !Enabled(s, Token(i))
    ensures Enabled(s, ConfigSend)
  {
    forall i: nat | i < |s.listeners|
      ensures s.listeners[i].config == []
      ensures s.config.Watching? ==> s.listeners[i].pc.Ready? && s.listeners[i].token == []
    {
      assert !Enabled(s, Take(i)) && !Enabled(s, Token(i));
      assert ListenerInv(s.listeners[i], Sent(s, i), TokensSent(s, i));
      assert SignalInv(s, i + 1, s.listeners[i].signal, s.listeners[i].pc.ListenerDone?);
      if s.listeners[i].pc.AwaitingToken? {
        WaitingAheadOfTelemetry(s, i);
      }
    }
  }

  /** Without an OS signal or a new config, every maximal run drains: it ends quiescent, with
      the latest version taken by all and applied by every stage listener. */
  lemma {:induction false} Drains(s: State, run: seq<Label>, t: State)
    requires Inv(s) && s.signals.Listening? && s.os == []
    requires Runs(s, run, t) && NoEnvironment(run) && Stuck(t)
    ensures Quiescent(t) && t.version == s.version
    ensures t.signalsTaken == t.telemetryTaken == t.installed == t.version
    ensures forall i :: 0 <= i < |t.listeners| ==> t.listeners[i].taken == t.listeners[i].applied == t.version
    decreases |run|
  {
    if run == [] {
      if !Quiescent(t) {
        var l := Progress(t);
        assert false;
      }
      forall i | 0 <= i < |t.listeners| ensures t.listeners[i].taken == t.listeners[i].applied == t.version {
        assert ListenerInv(t.listeners[i], Sent(t, i), TokensSent(t, i));
      }
    } else {
      StepInv(s, run[0]);
      Drains(Next(s, run[0]), run[1..], t);
    }
  }
}

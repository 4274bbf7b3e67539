/**
 The inductive invariant of the protocol: every channel holds exactly what its
 sender has sent and its receiver has not yet taken, so all positions in the
 system are tied to config's version by a chain of inequalities.
 */
module ProtocolInvariant {
  import opened Protocol

  /** How many versions config has sent to its k-th listener. */
  function Sent(s: State, k: nat): int {
    if s.config.Broadcasting? && s.config.next <= k then s.version - 1 else s.version
  }

  /** How many tokens telemetry has sent to stage listener i. */
  function TokensSent(s: State, i: nat): int {
    match s.telemetry
    case Installing => s.telemetryTaken - 1
    case Notifying(k) => if i < k then s.telemetryTaken else s.telemetryTaken - 1
    case _ => s.telemetryTaken
  }

  /** A config channel holds the one version sent but not yet taken, if any. */
  predicate Feed(channel: seq<nat>, taken: nat, sent: int) {
    || (channel == [] && taken == sent)
    || (channel == [taken + 1] && taken + 1 == sent)
  }

  predicate ListenerInv(p: Listener, sent: int, tokens: int) {
    && Feed(p.config, p.taken, sent)
    && |p.token| <= CAPACITY
    && p.applied + |p.token| == tokens
    && p.taken == (if p.pc.AwaitingToken? then p.applied + 1 else p.applied)
  }

  /** Has the fan-out sent the signal to its j-th recipient (0 is config, n + 1 telemetry)? */
  predicate Forwarded(s: State, j: nat) {
    s.signals.SignalsDone? || (s.signals.Forwarding? && j < s.signals.next)
  }

  /** A signal channel holds the signal from the moment it is forwarded until its receiver returns. */
  predicate SignalInv(s: State, j: nat, channel: seq<Signal>, returned: bool) {
    if Forwarded(s, j) then channel == (if returned then [] else [s.signals.sig])
    else channel == [] && !returned
  }

  predicate TelemetryInv(s: State) {
    && Feed(s.telemetryConfig, s.telemetryTaken, Sent(s, |s.listeners| + 1))
    && s.installed == (if s.telemetry.Installing? then s.telemetryTaken - 1 else s.telemetryTaken)
    && (s.telemetry.Notifying? ==> s.telemetry.to < |s.listeners|)
  }

  /** What config, the listeners and telemetry have exchanged. */
  predicate RoundInv(s: State) {
    var n := |s.listeners|;
    && s.version >= 1
    && (s.config.Broadcasting? ==> s.config.next <= n + 1)
    && (forall i :: 0 <= i < n ==> ListenerInv(s.listeners[i], Sent(s, i), TokensSent(s, i)))
    && Feed(s.signalsConfig, s.signalsTaken, Sent(s, n))
    && TelemetryInv(s)
  }

  /** How far the fan-out of the OS signal has got. */
  predicate FanOutInv(s: State) {
    var n := |s.listeners|;
    && (s.signals.Forwarding? ==> s.signals.next <= n + 1)
    && |s.os| <= CAPACITY
    && SignalInv(s, 0, s.configSignal, s.config.ConfigDone?)
    && (forall i :: 0 <= i < n ==> SignalInv(s, i + 1, s.listeners[i].signal, s.listeners[i].pc.ListenerDone?))
    && SignalInv(s, n + 1, s.telemetrySignal, s.telemetry.TelemetryDone?)
  }

  predicate Inv(s: State) {
    RoundInv(s) && FanOutInv(s)
  }

  lemma InitInv(n: nat)
    ensures Inv(Init(n))
  {
  }

  lemma ConfigStepRound(s: State, l: Label)
    requires l.ConfigSend? || l.ConfigChange? || l.ConfigSignal?
    requires RoundInv(s) && Enabled(s, l)
    ensures RoundInv(Next(s, l))
  {
    var t := Next(s, l);
    forall i | 0 <= i < |t.listeners| ensures ListenerInv(t.listeners[i], Sent(t, i), TokensSent(t, i)) {
      assert ListenerInv(s.listeners[i], Sent(s, i), TokensSent(s, i));
    }
  }

  /** Replacing one listener by another with the same right to be there keeps the rounds. */
  lemma SetListenerRound(s: State, i: nat, p: Listener)
    requires RoundInv(s) && i < |s.listeners|
    requires ListenerInv(p, Sent(s, i), TokensSent(s, i))
    ensures RoundInv(SetListener(s, i, p))
  {
    var t := SetListener(s, i, p);
    forall j | 0 <= j < |t.listeners| ensures ListenerInv(t.listeners[j], Sent(t, j), TokensSent(t, j)) {
      assert j != i ==> ListenerInv(s.listeners[j], Sent(s, j), TokensSent(s, j));
    }
  }

  lemma ListenerStepRound(s: State, l: Label)
    requires l.Take? || l.Token? || l.ListenerSignal?
    requires RoundInv(s) && Enabled(s, l)
    ensures RoundInv(Next(s, l))
  {
    assert ListenerInv(s.listeners[l.i], Sent(s, l.i), TokensSent(s, l.i));
    SetListenerRound(s, l.i, Next(s, l).listeners[l.i]);
  }

  lemma SignalsStepRound(s: State, l: Label)
    requires l.OsSignal? || l.SignalsTake? || l.SignalsNotice? || l.ProcessGone?
    requires RoundInv(s) && Enabled(s, l)
    ensures RoundInv(Next(s, l))
  {
  }

  /** The rounds do not depend on the signal channels. */
  lemma SignalChannelsRound(s: State, t: State)
    requires RoundInv(s)
    requires t == s.(configSignal := t.configSignal, listeners := t.listeners, signals := t.signals,
                     telemetrySignal := t.telemetrySignal)
    requires |t.listeners| == |s.listeners|
    requires forall i :: 0 <= i < |t.listeners| ==> t.listeners[i] == s.listeners[i].(signal := t.listeners[i].signal)
    ensures RoundInv(t)
  {
    forall i | 0 <= i < |t.listeners| ensures ListenerInv(t.listeners[i], Sent(t, i), TokensSent(t, i)) {
      assert ListenerInv(s.listeners[i], Sent(s, i), TokensSent(s, i));
    }
  }

  lemma ForwardRound(s: State)
    requires RoundInv(s) && Enabled(s, Forward)
    ensures RoundInv(Next(s, Forward))
  {
    SignalChannelsRound(s, Next(s, Forward));
  }

  lemma TelemetryStepRound(s: State, l: Label)
    requires l.TelemetryTake? || l.Install? || l.Notify? || l.TelemetrySignal?
    requires RoundInv(s) && Enabled(s, l)
    ensures RoundInv(Next(s, l))
  {
    var t := Next(s, l);
    forall i | 0 <= i < |t.listeners| ensures ListenerInv(t.listeners[i], Sent(t, i), TokensSent(t, i)) {
      assert ListenerInv(s.listeners[i], Sent(s, i), TokensSent(s, i));
    }
  }

  lemma StepRound(s: State, l: Label)
    requires RoundInv(s) && Enabled(s, l)
    ensures RoundInv(Next(s, l))
  {
    match l
    case ConfigSend | ConfigChange | ConfigSignal => ConfigStepRound(s, l);
    case Take(_) | Token(_) | ListenerSignal(_) => ListenerStepRound(s, l);
    case OsSignal(_) | SignalsTake | SignalsNotice | ProcessGone => SignalsStepRound(s, l);
    case Forward => ForwardRound(s);
    case TelemetryTake | Install | Notify | TelemetrySignal => TelemetryStepRound(s, l);
  }

  /** The steps that concern the OS signal. */
  predicate SignalStep(l: Label) {
    || l.OsSignal? || l.SignalsNotice? || l.ProcessGone? || l.Forward?
    || l.ConfigSignal? || l.ListenerSignal? || l.TelemetrySignal?
  }

  lemma SignalStepFanOut(s: State, l: Label)
    requires FanOutInv(s) && Enabled(s, l) && SignalStep(l)
    ensures FanOutInv(Next(s, l))
  {
    var t := Next(s, l);
    forall i | 0 <= i < |t.listeners|
      ensures SignalInv(t, i + 1, t.listeners[i].signal, t.listeners[i].pc.ListenerDone?)
    {
      assert SignalInv(s, i + 1, s.listeners[i].signal, s.listeners[i].pc.ListenerDone?);
    }
  }

  lemma OtherStepFanOut(s: State, l: Label)
    requires FanOutInv(s) && Enabled(s, l) && !SignalStep(l)
    ensures FanOutInv(Next(s, l))
  {
    var t := Next(s, l);
    forall i | 0 <= i < |t.listeners|
      ensures SignalInv(t, i + 1, t.listeners[i].signal, t.listeners[i].pc.ListenerDone?)
    {
      assert SignalInv(s, i + 1, s.listeners[i].signal, s.listeners[i].pc.ListenerDone?);
    }
  }

  /** Every step keeps the invariant. */
  lemma StepInv(s: State, l: Label)
    requires Inv(s) && Enabled(s, l)
    ensures Inv(Next(s, l))
    ensures |Next(s, l).listeners| == |s.listeners|
  {
    StepRound(s, l);
    if SignalStep(l) {
      SignalStepFanOut(s, l);
    } else {
      OtherStepFanOut(s, l);
    }
  }

  /** Every state of every run keeps the invariant and the number of listeners. */
  lemma {:induction false} RunInv(s: State, run: seq<Label>, t: State)
    requires Inv(s) && Runs(s, run, t)
    ensures Inv(t) && |t.listeners| == |s.listeners|
    decreases |run|
  {
    if run == [] {
    } else {
      StepInv(s, run[0]);
      RunInv(Next(s, run[0]), run[1..], t);
    }
  }

  lemma ReachableInv(s: State)
    requires Reachable(s)
    ensures Inv(s)
  {
    var n, run :| Runs(Init(n), run, s);
    InitInv(n);
    RunInv(Init(n), run, s);
  }
}

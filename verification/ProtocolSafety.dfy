/**
 Safety of the handshake in every reachable state, before and after an OS signal:
 how far the providers, the broadcaster and the listeners may drift apart.
 */
module ProtocolSafety {
  import opened Protocol
  import opened ProtocolInvariant

  /** When a listener gets past the token wait for its k-th config, the providers for
      version k are installed and at most those for version k + 1 have replaced them. */
  lemma TokenImpliesProvidersInstalled(s: State, i: nat)
    requires Reachable(s) && Enabled(s, Token(i))
    ensures var k := Next(s, Token(i)).listeners[i].applied;
            k == s.listeners[i].applied + 1 && k <= s.installed <= k + 1
  {
    ReachableInv(s);
    assert ListenerInv(s.listeners[i], Sent(s, i), TokensSent(s, i));
  }

  /** Throughout its update, and until it takes the next config, a listener that has applied version
      k sees the providers of version k or k + 1. */
  lemma UpdateSeesProviders(s: State, i: nat)
    requires Reachable(s) && i < |s.listeners| && !s.listeners[i].pc.AwaitingToken?
    ensures s.listeners[i].applied <= s.installed <= s.listeners[i].applied + 1
  {
    ReachableInv(s);
    assert ListenerInv(s.listeners[i], Sent(s, i), TokensSent(s, i));
  }

  /** A config channel hands its listener every version, in order and exactly once. */
  lemma VersionsTakenInOrder(s: State)
    requires Reachable(s)
    ensures forall i :: 0 <= i < |s.listeners| && Enabled(s, Take(i)) ==>
              Next(s, Take(i)).listeners[i].taken == s.listeners[i].taken + 1
    ensures Enabled(s, SignalsTake) ==> Next(s, SignalsTake).signalsTaken == s.signalsTaken + 1
    ensures Enabled(s, TelemetryTake) ==> Next(s, TelemetryTake).telemetryTaken == s.telemetryTaken + 1
  {
    ReachableInv(s);
    forall i | 0 <= i < |s.listeners| && Enabled(s, Take(i))
      ensures Next(s, Take(i)).listeners[i].taken == s.listeners[i].taken + 1
    {
      assert ListenerInv(s.listeners[i], Sent(s, i), TokensSent(s, i));
    }
  }

  /** A listener notified before another is at most one update behind it and at most two ahead of
      it.  At most two versions that config has sent to a listener are not applied by it yet, and
      config itself is at most three versions ahead of any listener. */
  lemma Skew(s: State, i: nat, j: nat)
    requires Reachable(s) && i < j < |s.listeners|
    ensures -1 <= s.listeners[i].applied - s.listeners[j].applied <= 2
    ensures 0 <= Sent(s, i) - s.listeners[i].applied <= 2
    ensures 0 <= Sent(s, j) - s.listeners[j].applied <= 2
    ensures 0 <= s.version - s.listeners[i].applied <= 3
    ensures 0 <= s.version - s.listeners[j].applied <= 3
  {
    ReachableInv(s);
    assert ListenerInv(s.listeners[i], Sent(s, i), TokensSent(s, i));
    assert ListenerInv(s.listeners[j], Sent(s, j), TokensSent(s, j));
  }

  /** The fan-out never blocks, and each recipient holds or has acted on exactly one copy
      of the signal if and only if the fan-out has reached it. */
  lemma FanOutReachesEachOnce(s: State)
    requires Reachable(s)
    ensures s.signals.Forwarding? ==> Enabled(s, Forward)
    ensures |s.configSignal| + (if s.config.ConfigDone? then 1 else 0) == if Forwarded(s, 0) then 1 else 0
    ensures forall i :: 0 <= i < |s.listeners| ==>
              |s.listeners[i].signal| + (if s.listeners[i].pc.ListenerDone? then 1 else 0)
              == if Forwarded(s, i + 1) then 1 else 0
    ensures |s.telemetrySignal| + (if s.telemetry.TelemetryDone? then 1 else 0)
            == if Forwarded(s, |s.listeners| + 1) then 1 else 0
  {
    ReachableInv(s);
    if s.signals.Forwarding? && 1 <= s.signals.next <= |s.listeners| {
      var i := s.signals.next - 1;
      assert SignalInv(s, i + 1, s.listeners[i].signal, s.listeners[i].pc.ListenerDone?);
    }
  }

  // ---------- which signal is forwarded ----------

  function Arrives(l: Label): seq<Signal> {
    if l.OsSignal? then [l.sig] else []
  }

  /** The OS signals that arrive in a run. */
  function Arrivals(run: seq<Label>): seq<Signal> {
    if run == [] then [] else Arrives(run[0]) + Arrivals(run[1..])
  }

  /** The OS signals that have arrived: the one noticed, if any, and the one not yet noticed. */
  function Arrived(s: State): seq<Signal> {
    (if s.signals.Listening? then [] else [s.signals.sig]) + s.os
  }

  lemma ArrivedNext(s: State, l: Label)
    requires Enabled(s, l)
    ensures Arrived(Next(s, l)) == Arrived(s) + Arrives(l)
  {
    if l.SignalsNotice? {
      assert s.os == [s.os[0]] + s.os[1..];
    }
  }

  lemma Regroup(a: seq<Signal>, b: seq<Signal>, c: seq<Signal>)
    ensures (a + b) + c == a + (b + c)
  {
  }

  lemma {:induction false} ArrivedOfRun(s: State, run: seq<Label>, t: State)
    requires Runs(s, run, t)
    ensures Arrived(t) == Arrived(s) + Arrivals(run)
    decreases |run|
  {
    if run == [] {
    } else {
      ArrivedNext(s, run[0]);
      ArrivedOfRun(Next(s, run[0]), run[1..], t);
      Regroup(Arrived(s), Arrives(run[0]), Arrivals(run[1..]));
    }
  }

  /** A signal channel holds this signal if the fan-out has reached it and its owner has not
      returned, and is empty otherwise. */
  predicate HoldsSignal(channel: seq<Signal>, reached: bool, returned: bool, sig: Signal) {
    && (returned ==> reached)
    && channel == if reached && !returned then [sig] else []
  }

  lemma HoldsNoticed(s: State, j: nat, channel: seq<Signal>, returned: bool)
    requires !s.signals.Listening? && SignalInv(s, j, channel, returned)
    ensures HoldsSignal(channel, Forwarded(s, j), returned, s.signals.sig)
  {
  }

  /** In every run the signals are noticed in the order in which they arrive. One can arrive while none
      has, and one more after the first has been noticed. */
  lemma SignalsInOrder(n: nat, run: seq<Label>, s: State)
    requires Runs(Init(n), run, s)
    ensures Arrived(s) == Arrivals(run)
    ensures !s.signals.Listening? ==> Arrivals(run) != [] && Arrivals(run)[0] == s.signals.sig
    ensures forall sig ::
              Enabled(s, OsSignal(sig)) <==> |Arrivals(run)| < if s.signals.Listening? then 1 else 2
  {
    ArrivedOfRun(Init(n), run, s);
    assert Arrived(Init(n)) + Arrivals(run) == Arrivals(run);
  }

  /** In every run what every recipient gets, and returns on, is the first signal that arrived; before
      it is noticed nobody gets any. */
  lemma FirstSignalForwarded(n: nat, run: seq<Label>, s: State)
    requires Runs(Init(n), run, s)
    ensures !s.signals.Listening? ==>
              && Arrivals(run) != []
              && (var first := Arrivals(run)[0];
                  && HoldsSignal(s.configSignal, Forwarded(s, 0), s.config.ConfigDone?, first)
                  && (forall i :: 0 <= i < |s.listeners| ==>
                        HoldsSignal(s.listeners[i].signal, Forwarded(s, i + 1), s.listeners[i].pc.ListenerDone?, first))
                  && HoldsSignal(s.telemetrySignal, Forwarded(s, |s.listeners| + 1), s.telemetry.TelemetryDone?, first))
    ensures s.signals.Listening? ==>
              && s.configSignal == s.telemetrySignal == []
              && forall i :: 0 <= i < |s.listeners| ==> s.listeners[i].signal == []
  {
    SignalsInOrder(n, run, s);
    InitInv(n);
    RunInv(Init(n), run, s);
    if s.signals.Listening? {
      forall i | 0 <= i < |s.listeners| ensures s.listeners[i].signal == [] {
        assert SignalInv(s, i + 1, s.listeners[i].signal, s.listeners[i].pc.ListenerDone?);
      }
    } else {
      HoldsNoticed(s, 0, s.configSignal, s.config.ConfigDone?);
      HoldsNoticed(s, |s.listeners| + 1, s.telemetrySignal, s.telemetry.TelemetryDone?);
      forall i | 0 <= i < |s.listeners|
        ensures HoldsSignal(s.listeners[i].signal, Forwarded(s, i + 1), s.listeners[i].pc.ListenerDone?, s.signals.sig)
      {
        HoldsNoticed(s, i + 1, s.listeners[i].signal, s.listeners[i].pc.ListenerDone?);
      }
    }
  }

  // The bounds of `Skew` and of the provider window are reached, in Bunny's own wiring.

  /** Take one step of a run of Bunny's two listeners, naming where it leaves egress and ingress. */
  lemma Step(s: State, l: Label, egress: Listener, ingress: Listener) returns (t: State)
    requires Reachable(s) && |s.listeners| == 2 && Enabled(s, l)
    requires Next(s, l).listeners[0] == egress && Next(s, l).listeners[1] == ingress
    ensures t == Next(s, l) == Next(s, l).(listeners := [egress, ingress]) && Reachable(t)
  {
    t := Next(s, l);
    assert t.listeners == [egress, ingress];
    ReachableNext(s, l);
  }

  /** Bunny's two listeners, with no signal about. */
  function Pair(config: ConfigPc, version: nat, egress: Listener, ingress: Listener,
                signalsConfig: seq<nat>, signalsTaken: nat,
                telemetry: TelemetryPc, telemetryConfig: seq<nat>, telemetryTaken: nat, installed: nat): State
  {
    State(config, version, [], [egress, ingress], Listening, signalsConfig, signalsTaken, [],
          telemetry, telemetryConfig, [], telemetryTaken, installed)
  }

  function At(config: seq<nat>, token: seq<Stage>, pc: ListenerPc, taken: nat, applied: nat): Listener {
    Listener(config, token, [], pc, taken, applied)
  }

  lemma FirstBroadcast() returns (t: State)
    ensures t == Pair(Watching, 1, At([1], [], Ready, 0, 0), At([1], [], Ready, 0, 0), [1], 0, Idle, [1], 0, 0)
    ensures Reachable(t)
  {
    var fresh0 := At([], [], Ready, 0, 0);
    var sent := At([1], [], Ready, 0, 0);
    t := Pair(Broadcasting(0), 1, fresh0, fresh0, [], 0, Idle, [], 0, 0);
    assert t == Init(2) by { assert t.listeners == Init(2).listeners; }
    assert Runs(Init(2), [], t);
    t := Step(t, ConfigSend, sent, fresh0);
    t := Step(t, ConfigSend, sent, sent);
    t := Step(t, ConfigSend, sent, sent);
    t := Step(t, ConfigSend, sent, sent);
  }

  lemma FirstTaken() returns (t: State)
    ensures t == Pair(Watching, 1, At([], [], AwaitingToken, 1, 0), At([], [], AwaitingToken, 1, 0),
                      [], 1, Installing, [], 1, 0)
    ensures Reachable(t)
  {
    var sent := At([1], [], Ready, 0, 0);
    var waiting := At([], [], AwaitingToken, 1, 0);
    t := FirstBroadcast();
    t := Step(t, Take(0), waiting, sent);
    t := Step(t, Take(1), waiting, waiting);
    t := Step(t, SignalsTake, waiting, waiting);
    t := Step(t, TelemetryTake, waiting, waiting);
  }

  /** The first round taken by everyone; both tokens are on their way. */
  lemma FirstRound() returns (t: State)
    ensures t == Pair(Watching, 1,
                      At([], [TelemetryCompleted], AwaitingToken, 1, 0), At([], [TelemetryCompleted], AwaitingToken, 1, 0),
                      [], 1, Idle, [], 1, 1)
    ensures Reachable(t)
  {
    var waiting := At([], [], AwaitingToken, 1, 0);
    var notified := At([], [TelemetryCompleted], AwaitingToken, 1, 0);
    t := FirstTaken();
    t := Step(t, Install, waiting, waiting);
    t := Step(t, Notify, notified, waiting);
    t := Step(t, Notify, notified, notified);
  }

  /** Egress can be one update behind ingress. */
  lemma EgressBehind() returns (t: State)
    ensures Reachable(t) && |t.listeners| == 2
    ensures t.listeners[0].applied - t.listeners[1].applied == -1
  {
    t := FirstRound();
    t := Step(t, Token(1), t.listeners[0], At([], [], Ready, 1, 1));
  }

  /** Two versions sent to a listener can both be not applied yet, for either listener. */
  lemma BroadcasterAhead() returns (t: State)
    ensures t == Pair(Broadcasting(2), 2,
                      At([2], [TelemetryCompleted], AwaitingToken, 1, 0), At([2], [TelemetryCompleted], AwaitingToken, 1, 0),
                      [], 1, Idle, [], 1, 1)
    ensures Reachable(t)
    ensures Sent(t, 0) - t.listeners[0].applied == 2
    ensures Sent(t, 1) - t.listeners[1].applied == 2
  {
    var notified := At([], [TelemetryCompleted], AwaitingToken, 1, 0);
    var behind := At([2], [TelemetryCompleted], AwaitingToken, 1, 0);
    t := FirstRound();
    t := Step(t, ConfigChange, notified, notified);
    t := Step(t, ConfigSend, behind, notified);
    t := Step(t, ConfigSend, behind, behind);
  }

  lemma SecondBroadcast() returns (t: State)
    ensures t == Pair(Watching, 2, At([2], [], Ready, 1, 1), At([2], [TelemetryCompleted], AwaitingToken, 1, 0),
                      [2], 1, Idle, [2], 1, 1)
    ensures Reachable(t)
  {
    var behind := At([2], [TelemetryCompleted], AwaitingToken, 1, 0);
    t := BroadcasterAhead();
    t := Step(t, ConfigSend, behind, behind);
    t := Step(t, ConfigSend, behind, behind);
    t := Step(t, Token(0), At([2], [], Ready, 1, 1), behind);
  }

  /** Config itself can be three versions ahead of ingress. */
  lemma VersionThreeAhead() returns (t: State)
    ensures Reachable(t) && |t.listeners| == 2
    ensures t.version - t.listeners[1].applied == 3
  {
    var behind := At([2], [TelemetryCompleted], AwaitingToken, 1, 0);
    t := SecondBroadcast();
    t := Step(t, ConfigChange, At([2], [], Ready, 1, 1), behind);
  }

  lemma SecondTaken() returns (t: State)
    ensures t == Pair(Watching, 2, At([], [], AwaitingToken, 2, 1), At([2], [TelemetryCompleted], AwaitingToken, 1, 0),
                      [2], 1, Notifying(0), [], 2, 2)
    ensures Reachable(t)
  {
    var behind := At([2], [TelemetryCompleted], AwaitingToken, 1, 0);
    var waiting := At([], [], AwaitingToken, 2, 1);
    t := SecondBroadcast();
    t := Step(t, Take(0), waiting, behind);
    t := Step(t, TelemetryTake, waiting, behind);
    t := Step(t, Install, waiting, behind);
  }

  /** Egress can be two updates ahead of ingress, and the providers one version ahead of the
      token that ingress is about to take. */
  lemma EgressAhead() returns (t: State)
    ensures Reachable(t) && |t.listeners| == 2
    ensures t.listeners[0].applied - t.listeners[1].applied == 2
    ensures Enabled(t, Token(1)) && t.installed == Next(t, Token(1)).listeners[1].applied + 1
  {
    var behind := At([2], [TelemetryCompleted], AwaitingToken, 1, 0);
    t := SecondTaken();
    t := Step(t, Notify, At([], [TelemetryCompleted], AwaitingToken, 2, 1), behind);
    t := Step(t, Token(0), At([], [], Ready, 2, 2), behind);
  }

  /** Telemetry replaces the providers of version 1 before egress has taken its first token. */
  lemma ProvidersOvertake() returns (t: State)
    ensures t == Pair(Watching, 2,
                      At([2], [TelemetryCompleted], AwaitingToken, 1, 0), At([2], [TelemetryCompleted], AwaitingToken, 1, 0),
                      [2], 1, Notifying(0), [], 2, 2)
    ensures Reachable(t)
  {
    var behind := At([2], [TelemetryCompleted], AwaitingToken, 1, 0);
    t := BroadcasterAhead();
    t := Step(t, ConfigSend, behind, behind);
    t := Step(t, ConfigSend, behind, behind);
    t := Step(t, TelemetryTake, behind, behind);
    t := Step(t, Install, behind, behind);
  }

  lemma RunsThree(s: State, a: Label, s1: State, b: Label, s2: State, c: Label, t: State)
    requires Enabled(s, a) && s1 == Next(s, a)
    requires Enabled(s1, b) && s2 == Next(s1, b)
    requires Enabled(s2, c) && t == Next(s2, c)
    ensures Runs(s, [a, b, c], t)
  {
    assert Runs(s2, [c], t);
    assert [b, c][1..] == [c];
    assert Runs(s1, [b, c], t);
    assert [a, b, c][1..] == [b, c];
  }

  /** Two updates in a row of egress can meet the same providers: it applies version 1, takes
      version 2 and is notified of it while those of version 2 are installed. */
  lemma SameProvidersTwice() returns (s: State, t: State)
    ensures Reachable(s) && Runs(s, [Token(0), Take(0), Notify], t)
    ensures Enabled(s, Token(0)) && Next(s, Token(0)).listeners[0].applied == 1
    ensures Enabled(t, Token(0)) && Next(t, Token(0)).listeners[0].applied == 2
    ensures s.installed == t.installed == 2
  {
    var behind := At([2], [TelemetryCompleted], AwaitingToken, 1, 0);
    s := ProvidersOvertake();
    var s1 := Step(s, Token(0), At([2], [], Ready, 1, 1), behind);
    var s2 := Step(s1, Take(0), At([], [], AwaitingToken, 2, 1), behind);
    t := Step(s2, Notify, At([], [TelemetryCompleted], AwaitingToken, 2, 1), behind);
    RunsThree(s, Token(0), s1, Take(0), s2, Notify, t);
  }
}

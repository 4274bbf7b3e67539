/**
 The five goroutines of Bunny and the capacity-one channels that join them, as a
 labelled transition system.

 Config broadcasts every config version to the stage listeners, then to signals,
 then to telemetry.  Telemetry installs its providers for a version and then
 sends one stage token to every stage listener.  A stage listener blocks on its
 token inside each update.  Signals forwards one OS signal to config, the stage
 listeners and telemetry.

 Bunny wires two stage listeners, egress (index 0) and ingress (index 1).  The
 model allows any number, because `AddChannelListener` appends freely.

 All nondeterminism (scheduling and `select`) is in the choice of the label.
 */
module Protocol {
  /** Every channel is made with `make(chan T, 1)`. */
  const CAPACITY := 1

  datatype Stage = TelemetryCompleted

  datatype Signal = SIGINT | SIGTERM

  /** Where GoConfig is: in the middle of a broadcast, in its select, or returned. */
  datatype ConfigPc = Broadcasting(next: nat) | Watching | ConfigDone

  /** Where a stage listener is: in its select, blocked on its token, or returned. */
  datatype ListenerPc = Ready | AwaitingToken | ListenerDone

  /** Where GoTelemetry is: in its select, installing providers, sending tokens, or returned. */
  datatype TelemetryPc = Idle | Installing | Notifying(to: nat) | TelemetryDone

  /** Where GoSignals is: in its select, in waitForProcess, in the fan-out, or returned. */
  datatype SignalsPc =
    | Listening
    | WaitingForProcess(sig: Signal)
    | Forwarding(sig: Signal, next: nat)
    | SignalsDone(sig: Signal)

  /** Egress or ingress, with the three channels it reads. `taken` is the version last
      received; `applied` the version whose update last got past the token wait. */
  datatype Listener = Listener(
    config: seq<nat>, token: seq<Stage>, signal: seq<Signal>,
    pc: ListenerPc, taken: nat, applied: nat)

  datatype State = State(
    config: ConfigPc, version: nat, configSignal: seq<Signal>,
    listeners: seq<Listener>,
    signals: SignalsPc, signalsConfig: seq<nat>, signalsTaken: nat, os: seq<Signal>,
    telemetry: TelemetryPc, telemetryConfig: seq<nat>, telemetrySignal: seq<Signal>,
    telemetryTaken: nat, installed: nat)

  datatype Label =
    // config
    | ConfigSend | ConfigChange | ConfigSignal
    // stage listener i
    | Take(i: nat) | Token(i: nat) | ListenerSignal(i: nat)
    // signals
    | OsSignal(sig: Signal) | SignalsTake | SignalsNotice | ProcessGone | Forward
    // telemetry
    | TelemetryTake | Install | Notify | TelemetrySignal

  /** The steps the outside world takes: a changed config file, an OS signal. */
  predicate Environment(l: Label) {
    l.ConfigChange? || l.OsSignal?
  }

  /** The steps that send or receive a config or a stage token. */
  predicate ChannelOperation(l: Label) {
    l.ConfigSend? || l.Take? || l.Token? || l.SignalsTake? || l.TelemetryTake? || l.Notify?
  }

  function Init(n: nat): State {
    State(Broadcasting(0), 1, [],
          seq(n, _ => Listener([], [], [], Ready, 0, 0)),
          Listening, [], 0, [],
          Idle, [], [], 0, 0)
  }

  predicate Room<T>(channel: seq<T>) {
    |channel| < CAPACITY
  }

  /** Can the goroutine that owns the step take it now?  A send needs room, a receive a message. */
  predicate Enabled(s: State, l: Label) {
    var n := |s.listeners|;
    match l
    case ConfigSend =>
      && s.config.Broadcasting?
      && (var k := s.config.next;
          if k < n then Room(s.listeners[k].config)
          else if k == n then Room(s.signalsConfig)
          else Room(s.telemetryConfig))
    case ConfigChange => s.config.Watching?
    case ConfigSignal => s.config.Watching? && s.configSignal != []
    case Take(i) => i < n && s.listeners[i].pc.Ready? && s.listeners[i].config != []
    case Token(i) => i < n && s.listeners[i].pc.AwaitingToken? && s.listeners[i].token != []
    case ListenerSignal(i) => i < n && s.listeners[i].pc.Ready? && s.listeners[i].signal != []
    case OsSignal(_) => Room(s.os)
    case SignalsTake => s.signals.Listening? && s.signalsConfig != []
    case SignalsNotice => s.signals.Listening? && s.os != []
    case ProcessGone => s.signals.WaitingForProcess?
    case Forward =>
      && s.signals.Forwarding?
      && (var k := s.signals.next;
          if k == 0 then Room(s.configSignal)
          else if k <= n then Room(s.listeners[k - 1].signal)
          else Room(s.telemetrySignal))
    case TelemetryTake => s.telemetry.Idle? && s.telemetryConfig != []
    case Install => s.telemetry.Installing?
    case Notify => s.telemetry.Notifying? && s.telemetry.to < n && Room(s.listeners[s.telemetry.to].token)
    case TelemetrySignal => s.telemetry.Idle? && s.telemetrySignal != []
  }

  function SetListener(s: State, i: nat, l: Listener): State
    requires i < |s.listeners|
  {
    s.(listeners := s.listeners[i := l])
  }

  function ConfigSendNext(s: State): State
    requires Enabled(s, ConfigSend)
  {
    var n := |s.listeners|;
    var k := s.config.next;
    var sent :=
      if k < n then
        SetListener(s, k, s.listeners[k].(config := s.listeners[k].config + [s.version]))
      else if k == n then
        s.(signalsConfig := s.signalsConfig + [s.version])
      else
        s.(telemetryConfig := s.telemetryConfig + [s.version]);
    sent.(config := if k >= n + 1 then Watching else Broadcasting(k + 1))
  }

  function ForwardNext(s: State): State
    requires Enabled(s, Forward)
  {
    var n := |s.listeners|;
    var k, sig := s.signals.next, s.signals.sig;
    var sent :=
      if k == 0 then
        s.(configSignal := s.configSignal + [sig])
      else if k <= n then
        SetListener(s, k - 1, s.listeners[k - 1].(signal := s.listeners[k - 1].signal + [sig]))
      else
        s.(telemetrySignal := s.telemetrySignal + [sig]);
    sent.(signals := if k >= n + 1 then SignalsDone(sig) else Forwarding(sig, k + 1))
  }

  function Next(s: State, l: Label): State
    requires Enabled(s, l)
  {
    var n := |s.listeners|;
    match l
    case ConfigSend => ConfigSendNext(s)
    case ConfigChange => s.(version := s.version + 1, config := Broadcasting(0))
    case ConfigSignal => s.(configSignal := s.configSignal[1..], config := ConfigDone)
    case Take(i) =>
      var p := s.listeners[i];
      SetListener(s, i, p.(config := p.config[1..], taken := p.config[0], pc := AwaitingToken))
    case Token(i) =>
      var p := s.listeners[i];
      SetListener(s, i, p.(token := p.token[1..], applied := p.taken, pc := Ready))
    case ListenerSignal(i) =>
      var p := s.listeners[i];
      SetListener(s, i, p.(signal := p.signal[1..], pc := ListenerDone))
    case OsSignal(sig) => s.(os := s.os + [sig])
    case SignalsTake => s.(signalsTaken := s.signalsConfig[0], signalsConfig := s.signalsConfig[1..])
    case SignalsNotice => s.(os := s.os[1..], signals := WaitingForProcess(s.os[0]))
    case ProcessGone => s.(signals := Forwarding(s.signals.sig, 0))
    case Forward => ForwardNext(s)
    case TelemetryTake =>
      s.(telemetryTaken := s.telemetryConfig[0], telemetryConfig := s.telemetryConfig[1..], telemetry := Installing)
    case Install =>
      s.(installed := s.telemetryTaken, telemetry := if n == 0 then Idle else Notifying(0))
    case Notify =>
      var k := s.telemetry.to;
      var p := s.listeners[k];
      SetListener(s, k, p.(token := p.token + [TelemetryCompleted]))
        .(telemetry := if k + 1 == n then Idle else Notifying(k + 1))
    case TelemetrySignal => s.(telemetrySignal := s.telemetrySignal[1..], telemetry := TelemetryDone)
  }

  /** `t` is reached from `s` by the steps `run`, in order. */
  ghost predicate Runs(s: State, run: seq<Label>, t: State)
    decreases |run|
  {
    if run == [] then s == t
    else Enabled(s, run[0]) && Runs(Next(s, run[0]), run[1..], t)
  }

  ghost predicate Reachable(s: State) {
    exists n: nat, run :: Runs(Init(n), run, s)
  }

  lemma {:induction false} RunsConcat(s: State, first: seq<Label>, t: State, second: seq<Label>, u: State)
    requires Runs(s, first, t) && Runs(t, second, u)
    ensures Runs(s, first + second, u)
    decreases |first|
  {
    if first == [] {
      assert first + second == second;
    } else {
      RunsConcat(Next(s, first[0]), first[1..], t, second, u);
      assert (first + second)[1..] == first[1..] + second;
    }
  }

  lemma ReachableNext(s: State, l: Label)
    requires Reachable(s) && Enabled(s, l)
    ensures Reachable(Next(s, l))
  {
    var n, run :| Runs(Init(n), run, s);
    assert Runs(s, [l], Next(s, l));
    RunsConcat(Init(n), run, s, [l], Next(s, l));
  }

  /** Nothing the program itself can do: every goroutine has returned or is blocked. */
  ghost predicate Stuck(s: State) {
    forall l: Label :: Enabled(s, l) ==> Environment(l)
  }

  ghost predicate NoEnvironment(run: seq<Label>) {
    forall k :: 0 <= k < |run| ==> !Environment(run[k])
  }

  predicate AllReturned(s: State) {
    && s.config.ConfigDone?
    && s.signals.SignalsDone?
    && s.telemetry.TelemetryDone?
    && forall i :: 0 <= i < |s.listeners| ==> s.listeners[i].pc.ListenerDone?
  }

  /** No round is in flight: config watches, everyone is in its select and all channels are empty. */
  predicate Quiescent(s: State) {
    && s.config.Watching?
    && s.telemetry.Idle? && s.telemetryConfig == [] && s.signalsConfig == []
    && forall i :: 0 <= i < |s.listeners| ==>
         var p := s.listeners[i];
         p.pc.Ready? && p.config == [] && p.token == []
  }
}

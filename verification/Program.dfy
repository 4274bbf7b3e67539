/**
 The protocol with the contents it carries and the scans it waits for: the file watcher
 decides when config starts a round and what the version holds, and the process list decides
 when signals may start the fan-out.
 */
module Program {
  import opened ConfigWatcher
  import opened ProcessWatch
  import opened ProtocolInvariant
  import opened Wrappers
  import Protocol

  /** What the program cannot choose: the hash, the expression that a content names, the regular
      expression compiler and the content of the file at the start. */
  datatype World = World(
    hash: Content -> string, named: Content -> Option<string>, compile: string -> Option<Regex>, initial: Content)

  /** The protocol, with config's hash and every content it has broadcast, the file events it has
      handled, and the scans made since the OS signal was noticed. */
  datatype State = State(
    protocol: Protocol.State, configFileHash: string, versions: seq<Content>, handled: seq<Event>, scans: seq<Scan>)

  datatype Label =
    | FileEvent(event: Event)       // the watcher loop handles an event
    | ScanProcesses(scan: Scan)     // one pass of waitForProcess
    | Step(l: Protocol.Label)       // any other step of the protocol

  function Start(w: World, n: nat): State {
    State(Protocol.Init(n), "", [w.initial], [], [])
  }

  /** The contents that signals has taken. */
  function Known(s: State): seq<Content> {
    if s.protocol.signalsTaken <= |s.versions| then s.versions[..s.protocol.signalsTaken] else s.versions
  }

  function Names(w: World, contents: seq<Content>): (r: seq<Option<string>>)
    ensures |r| == |contents| && forall i :: 0 <= i < |r| ==> r[i] == w.named(contents[i])
  {
    seq(|contents|, i requires 0 <= i < |contents| => w.named(contents[i]))
  }

  /** The expression that signals watches for. */
  function Watched(w: World, s: State): Option<Regex> {
    WatchAfter(w.compile, Names(w, Known(s)))
  }

  predicate Enabled(w: World, s: State, l: Label) {
    match l
    case FileEvent(_) => s.protocol.config.Watching?
    case ScanProcesses(_) => s.protocol.signals.WaitingForProcess? && StillWaiting(Watched(w, s), s.scans)
    case Step(p) =>
      && !p.ConfigChange? && Protocol.Enabled(s.protocol, p)
      && (p.ProcessGone? ==> Passed(Watched(w, s), s.scans))
  }

  function Next(w: World, s: State, l: Label): State
    requires Enabled(w, s, l)
  {
    match l
    case FileEvent(e) =>
      var newHash := w.hash(e.hashed);
      var t := s.(handled := s.handled + [e], configFileHash := newHash);
      if newHash == s.configFileHash then t
      else t.(versions := s.versions + [e.parsed], protocol := Protocol.Next(s.protocol, Protocol.ConfigChange))
    case ScanProcesses(scan) => s.(scans := s.scans + [scan])
    case Step(p) => s.(protocol := Protocol.Next(s.protocol, p))
  }

  ghost predicate Runs(w: World, s: State, run: seq<Label>, t: State)
    decreases |run|
  {
    if run == [] then s == t
    else Enabled(w, s, run[0]) && Runs(w, Next(w, s, run[0]), run[1..], t)
  }

  function Handles(l: Label): seq<Event> {
    if l.FileEvent? then [l.event] else []
  }

  /** The file events of a run. */
  function Events(run: seq<Label>): seq<Event> {
    if run == [] then [] else Handles(run[0]) + Events(run[1..])
  }

  function Makes(l: Label): seq<Scan> {
    if l.ScanProcesses? then [l.scan] else []
  }

  /** The scans of a run. */
  function Scans(run: seq<Label>): seq<Scan> {
    if run == [] then [] else Makes(run[0]) + Scans(run[1..])
  }

  /** Every version of the protocol is a broadcast of the watcher. */
  ghost predicate VersionsInv(w: World, s: State) {
    && Protocol.Reachable(s.protocol)
    && s.configFileHash == LastHash(w.hash, s.handled)
    && s.versions == Versions(w.hash, w.initial, s.handled)
    && s.protocol.version == |s.versions|
  }

  /** How far signals is: before waitForProcess, in it, or past it. */
  function Phase(s: Protocol.State): nat {
    match s.signals
    case Listening => 0
    case WaitingForProcess(_) => 1
    case _ => 2
  }

  /** Scans are made only in waitForProcess, and it is left only after they have let the signal pass. */
  predicate ScansInv(w: World, s: State) {
    match Phase(s.protocol)
    case 0 => s.scans == []
    case 1 => s.scans == [] || StillWaiting(Watched(w, s), s.scans) || Passed(Watched(w, s), s.scans)
    case _ => Passed(Watched(w, s), s.scans)
  }

  ghost predicate Inv(w: World, s: State) {
    VersionsInv(w, s) && ScansInv(w, s)
  }

  lemma StepVersions(w: World, s: State, l: Label)
    requires VersionsInv(w, s) && Enabled(w, s, l)
    ensures VersionsInv(w, Next(w, s, l))
  {
    match l
    case FileEvent(e) =>
      BroadcastsNext(w.hash, w.initial, s.handled, e);
      Protocol.ReachableNext(s.protocol, Protocol.ConfigChange);
    case ScanProcesses(_) =>
    case Step(p) => Protocol.ReachableNext(s.protocol, p);
  }

  /** What signals has taken are versions that exist, all but at most the latest two. */
  lemma SignalsWindow(s: Protocol.State)
    requires Protocol.Reachable(s)
    ensures s.signalsTaken <= s.version <= s.signalsTaken + 2
  {
    ReachableInv(s);
  }

  /** Signals goes from phase to phase only by noticing the OS signal and by finding the process
      gone, and takes configs only before that. */
  lemma PhaseNext(s: Protocol.State, l: Protocol.Label)
    requires Protocol.Enabled(s, l)
    ensures Phase(Protocol.Next(s, l)) == Phase(s) + if l.SignalsNotice? || l.ProcessGone? then 1 else 0
    ensures Phase(s) > 0 ==> Protocol.Next(s, l).signalsTaken == s.signalsTaken
    ensures l.ProcessGone? ==> Phase(s) == 1
  {
  }

  /** What is watched depends only on the contents that signals has taken. */
  lemma WatchedKept(w: World, s: State, t: State)
    requires s.protocol.signalsTaken == t.protocol.signalsTaken <= |s.versions|
    requires s.versions <= t.versions
    ensures Watched(w, t) == Watched(w, s)
  {
    assert Known(t) == Known(s);
  }

  lemma FileEventScans(w: World, s: State, e: Event)
    requires Inv(w, s) && Enabled(w, s, FileEvent(e))
    ensures ScansInv(w, Next(w, s, FileEvent(e)))
  {
    SignalsWindow(s.protocol);
    WatchedKept(w, s, Next(w, s, FileEvent(e)));
  }

  lemma ScanScans(w: World, s: State, scan: Scan)
    requires Enabled(w, s, ScanProcesses(scan))
    ensures ScansInv(w, Next(w, s, ScanProcesses(scan)))
  {
    var t := Next(w, s, ScanProcesses(scan));
    assert t.scans[..|s.scans|] == s.scans;
    assert Watched(w, t) == Watched(w, s);
  }

  lemma StepScans(w: World, s: State, p: Protocol.Label)
    requires Inv(w, s) && Enabled(w, s, Step(p))
    ensures ScansInv(w, Next(w, s, Step(p)))
  {
    var t := Next(w, s, Step(p));
    SignalsWindow(s.protocol);
    PhaseNext(s.protocol, p);
    if Phase(s.protocol) > 0 {
      WatchedKept(w, s, t);
    }
  }

  lemma StepInv(w: World, s: State, l: Label)
    requires Inv(w, s) && Enabled(w, s, l)
    ensures Inv(w, Next(w, s, l))
  {
    StepVersions(w, s, l);
    match l
    case FileEvent(e) => FileEventScans(w, s, e);
    case ScanProcesses(scan) => ScanScans(w, s, scan);
    case Step(p) => StepScans(w, s, p);
  }

  lemma {:induction false} RunInv(w: World, s: State, run: seq<Label>, t: State)
    requires Inv(w, s) && Runs(w, s, run, t)
    ensures Inv(w, t)
    decreases |run|
  {
    if run == [] {
    } else {
      StepInv(w, s, run[0]);
      RunInv(w, Next(w, s, run[0]), run[1..], t);
    }
  }

  lemma HandledNext(w: World, s: State, l: Label)
    requires Enabled(w, s, l)
    ensures Next(w, s, l).handled == s.handled + Handles(l)
  {
    assert s.handled + [] == s.handled;
  }

  lemma Regroup<T>(a: seq<T>, b: seq<T>, c: seq<T>)
    ensures (a + b) + c == a + (b + c)
  {
  }

  lemma ScansNext(w: World, s: State, l: Label)
    requires Enabled(w, s, l)
    ensures Next(w, s, l).scans == s.scans + Makes(l)
  {
    assert s.scans + [] == s.scans;
  }

  /** The scans made are those of the run. */
  lemma {:induction false} ScansMade(w: World, s: State, run: seq<Label>, t: State)
    requires Runs(w, s, run, t)
    ensures t.scans == s.scans + Scans(run)
    decreases |run|
  {
    if run == [] {
    } else {
      ScansNext(w, s, run[0]);
      ScansMade(w, Next(w, s, run[0]), run[1..], t);
      Regroup(s.scans, Makes(run[0]), Scans(run[1..]));
    }
  }

  /** The events handled are those of the run. */
  lemma {:induction false} HandledEvents(w: World, s: State, run: seq<Label>, t: State)
    requires Runs(w, s, run, t)
    ensures t.handled == s.handled + Events(run)
    decreases |run|
  {
    if run == [] {
    } else {
      HandledNext(w, s, run[0]);
      HandledEvents(w, Next(w, s, run[0]), run[1..], t);
      Regroup(s.handled, Handles(run[0]), Events(run[1..]));
    }
  }

  lemma StartInv(w: World, n: nat)
    ensures Inv(w, Start(w, n))
  {
    assert Protocol.Runs(Protocol.Init(n), [], Protocol.Init(n));
  }

  /** In every run the protocol goes through its own steps, and its versions are the broadcasts
      that the run's file events lead to. */
  lemma VersionsOfRun(w: World, n: nat, run: seq<Label>, t: State)
    requires Runs(w, Start(w, n), run, t)
    ensures Inv(w, t) && Protocol.Reachable(t.protocol)
    ensures t.versions == Versions(w.hash, w.initial, Events(run)) && t.protocol.version == |t.versions|
    ensures t.scans == Scans(run)
  {
    StartInv(w, n);
    RunInv(w, Start(w, n), run, t);
    HandledEvents(w, Start(w, n), run, t);
    ScansMade(w, Start(w, n), run, t);
    assert [] + Events(run) == Events(run) && [] + Scans(run) == Scans(run);
  }

  /** In every run the fan-out has begun only if the watched process is gone: signals has made its
      scans, all but the last found the process and the last did not, where the expression is the
      one left by the configs that signals has taken, which are all but at most the latest two. */
  lemma FanOutAfterCleanScan(w: World, n: nat, run: seq<Label>, t: State)
    requires Runs(w, Start(w, n), run, t)
    requires t.protocol.signals.Forwarding? || t.protocol.signals.SignalsDone?
    ensures var taken := t.protocol.signalsTaken;
            var versions := Versions(w.hash, w.initial, Events(run));
            && taken <= |versions| <= taken + 2
            && (var watched, scans := WatchAfter(w.compile, Names(w, versions[..taken])), Scans(run);
                if watched.None? then scans == []
                else
                  && scans != [] && !Matches(watched.value, scans[|scans| - 1])
                  && forall k :: 0 <= k < |scans| - 1 ==> Matches(watched.value, scans[k]))
  {
    VersionsOfRun(w, n, run, t);
    SignalsWindow(t.protocol);
    assert Known(t) == t.versions[..t.protocol.signalsTaken];
    PassedIff(Watched(w, t), t.scans);
  }

  /** A scan that finds no match opens the way. */
  lemma ScanOpens(w: World, s: State, scan: Scan)
    requires Enabled(w, s, ScanProcesses(scan))
    ensures Enabled(w, Next(w, s, ScanProcesses(scan)), Step(Protocol.ProcessGone)) <==> !Matches(Watched(w, s).value, scan)
  {
    ScanPasses(Watched(w, s), s.scans, scan);
    assert Known(Next(w, s, ScanProcesses(scan))) == Known(s);
  }

  lemma GateOrScan(w: World, s: State, scan: Scan)
    requires ScansInv(w, s) && s.protocol.signals.WaitingForProcess?
    ensures Enabled(w, s, Step(Protocol.ProcessGone)) || Enabled(w, s, ScanProcesses(scan))
  {
    assert Phase(s.protocol) == 1;
    PassedIff(Watched(w, s), s.scans);
  }

  /** Conversely nothing else holds the fan-out back: in waitForProcess either it can start or the
      process list can be scanned, and then it can start exactly after a scan that finds no match. */
  lemma CleanScanOpens(w: World, n: nat, run: seq<Label>, s: State, scan: Scan)
    requires Runs(w, Start(w, n), run, s) && s.protocol.signals.WaitingForProcess?
    ensures Enabled(w, s, Step(Protocol.ProcessGone)) || Enabled(w, s, ScanProcesses(scan))
    ensures Enabled(w, s, ScanProcesses(scan)) ==>
              (Enabled(w, Next(w, s, ScanProcesses(scan)), Step(Protocol.ProcessGone))
               <==> !Matches(Watched(w, s).value, scan))
  {
    VersionsOfRun(w, n, run, s);
    GateOrScan(w, s, scan);
    if Enabled(w, s, ScanProcesses(scan)) {
      ScanOpens(w, s, scan);
    }
  }

  /** The latest version holds the content observed last. */
  lemma LatestVersion(w: World, events: seq<Event>)
    requires Injective(w.hash) && events != [] && ReadsAgree(events)
    ensures var versions := Versions(w.hash, w.initial, events);
            versions[|versions| - 1] == events[|events| - 1].hashed
  {
    LastBroadcast(w.hash, events);
  }

  lemma QuiescentAtLatest(s: Protocol.State)
    requires Protocol.Reachable(s) && Protocol.Quiescent(s)
    ensures s.signalsTaken == s.telemetryTaken == s.version
    ensures forall i :: 0 <= i < |s.listeners| ==> s.listeners[i].applied == s.version
  {
    ReachableInv(s);
    forall i | 0 <= i < |s.listeners| ensures s.listeners[i].applied == s.version {
      assert ListenerInv(s.listeners[i], Sent(s, i), TokensSent(s, i));
    }
  }

  /** A goroutine that is at version k holds this content. */
  predicate Holds(versions: seq<Content>, k: nat, content: Content) {
    1 <= k <= |versions| && versions[k - 1] == content
  }

  /** In every run whose file reads agree, once the rounds have drained all hold the content that
      was observed last. */
  lemma ListenersHoldLatest(w: World, n: nat, run: seq<Label>, t: State)
    requires Injective(w.hash) && Runs(w, Start(w, n), run, t)
    requires Events(run) != [] && ReadsAgree(Events(run))
    requires Protocol.Quiescent(t.protocol)
    ensures var s, events := t.protocol, Events(run);
            var versions, latest := Versions(w.hash, w.initial, events), events[|events| - 1].hashed;
            && Holds(versions, s.signalsTaken, latest) && Holds(versions, s.telemetryTaken, latest)
            && forall i :: 0 <= i < |s.listeners| ==> Holds(versions, s.listeners[i].applied, latest)
  {
    VersionsOfRun(w, n, run, t);
    QuiescentAtLatest(t.protocol);
    LatestVersion(w, Events(run));
  }
}

/**
 A probe and its peer in conversation: two expect scripts joined by two byte streams of
 bounded capacity.  Writes may be taken in pieces, reads may deliver any fragment, and the
 two sides run in any order.  For a script and its dual, every such run ends with both
 sides successful.
 */
module Conversation {
  import opened BeeTcp
  import opened Framing

  /** One side: its script, the step it is at, what it has yet to put on the wire for the send
      step in progress, and what it has read ahead. */
  datatype Party = Party(script: seq<Step>, at: nat, pending: seq<byte>, buffer: seq<byte>, failed: bool)

  /** The connection, seen from one side: `mine` and `theirs` are bytes in flight sent by this
      side and by the peer. */
  datatype Net = Net(self: Party, peer: Party, mine: seq<byte>, theirs: seq<byte>, capacity: nat)

  function Flip(n: Net): Net {
    Net(n.peer, n.self, n.theirs, n.mine, n.capacity)
  }

  function Start(script: seq<Step>): Party {
    Party(script, 0, [], [], false)
  }

  datatype Action = Begin | Transmit(k: nat) | Fill(k: nat) | Match

  /** An action of this side or of the peer. */
  datatype Label = Label(mine: bool, action: Action)

  predicate AtSend(p: Party) {
    !p.failed && p.at < |p.script| && p.script[p.at].SendStep?
  }

  predicate AtReceive(p: Party) {
    !p.failed && p.at < |p.script| && p.script[p.at].ReceiveStep?
  }

  predicate Finished(p: Party) {
    !p.failed && p.at == |p.script|
  }

  predicate SelfEnabled(n: Net, a: Action) {
    var p := n.self;
    match a
    case Begin => AtSend(p) && p.pending == []
    case Transmit(k) => AtSend(p) && 1 <= k <= |p.pending| && |n.mine| + k <= n.capacity
    case Fill(k) => AtReceive(p) && p.script[p.at].delimiter !in p.buffer && 1 <= k <= |n.theirs|
    case Match => AtReceive(p) && p.script[p.at].delimiter in p.buffer
  }

  function SelfNext(n: Net, a: Action): Net
    requires SelfEnabled(n, a)
  {
    var p := n.self;
    match a
    case Begin => n.(self := p.(pending := FullText(p.script[p.at])))
    case Transmit(k) =>
      n.(self := p.(pending := p.pending[k..], at := if k == |p.pending| then p.at + 1 else p.at),
         mine := n.mine + p.pending[..k])
    case Fill(k) => n.(self := p.(buffer := p.buffer + n.theirs[..k]), theirs := n.theirs[k..])
    case Match =>
      var o := StepOutcome(p.script[p.at], p.buffer);
      n.(self := p.(buffer := o.rest, at := if o.ok then p.at + 1 else p.at, failed := !o.ok))
  }

  predicate Enabled(n: Net, l: Label) {
    SelfEnabled(if l.mine then n else Flip(n), l.action)
  }

  function Next(n: Net, l: Label): Net
    requires Enabled(n, l)
  {
    if l.mine then SelfNext(n, l.action) else Flip(SelfNext(Flip(n), l.action))
  }

  ghost predicate Runs(n: Net, run: seq<Label>, m: Net)
    decreases |run|
  {
    if run == [] then n == m
    else Enabled(n, run[0]) && Runs(Next(n, run[0]), run[1..], m)
  }

  ghost predicate Stuck(n: Net) {
    forall l: Label :: !Enabled(n, l)
  }

  /** The receive step accepts exactly what the send step sends. */
  predicate Answers(send: Step, receive: Step) {
    && send.SendStep? && receive.ReceiveStep?
    && send.delimiter == receive.delimiter < 0x80
    && send.delimiter !in send.text
    && receive.matches(send.text)
  }

  predicate Dual(a: seq<Step>, b: seq<Step>) {
    |a| == |b| && forall i :: 0 <= i < |a| ==> Answers(a[i], b[i]) || Answers(b[i], a[i])
  }

  /** What the first k steps of a script write. */
  function Stream(script: seq<Step>, k: nat): (r: seq<byte>)
    requires k <= |script|
  {
    if k == 0 then [] else Stream(script, k - 1) + StepText(script[k - 1])
  }

  lemma {:induction false} StreamGrows(script: seq<Step>, k: nat, m: nat)
    requires k <= m <= |script|
    ensures Stream(script, k) <= Stream(script, m)
    decreases m
  {
    if k == m {
    } else {
      StreamGrows(script, k, m - 1);
    }
  }

  /** The steps a party has begun. */
  function Begun(p: Party): nat {
    if p.pending == [] then p.at else p.at + 1
  }

  predicate PartyInv(p: Party) {
    && !p.failed && p.at <= |p.script|
    && (p.pending != [] ==> AtSend(p))
  }

  /** The bytes of one side that the other has not consumed: read ahead, in flight, or still to
      be transmitted. */
  function Outstanding(from: Party, wire: seq<byte>, to: Party): seq<byte> {
    to.buffer + wire + from.pending
  }

  /** What one side has begun to send is what the other has consumed, and what is outstanding. */
  predicate Flow(from: Party, wire: seq<byte>, to: Party)
    requires PartyInv(from) && PartyInv(to) && |from.script| == |to.script|
  {
    Stream(from.script, Begun(from)) == Stream(from.script, to.at) + Outstanding(from, wire, to)
  }

  predicate Inv(n: Net) {
    && n.capacity > 0
    && PartyInv(n.self) && PartyInv(n.peer) && Dual(n.self.script, n.peer.script)
    && |n.mine| <= n.capacity && |n.theirs| <= n.capacity
    && Flow(n.self, n.mine, n.peer) && Flow(n.peer, n.theirs, n.self)
  }

  lemma FlipInv(n: Net)
    requires Inv(n)
    ensures Inv(Flip(n)) && Flip(Flip(n)) == n
  {
  }

  lemma StreamSkips(script: seq<Step>, k: nat)
    requires k < |script| && script[k].ReceiveStep?
    ensures Stream(script, k + 1) == Stream(script, k)
  {
    assert Stream(script, k) + [] == Stream(script, k);
  }

  lemma Associative(a: seq<byte>, b: seq<byte>, c: seq<byte>)
    ensures (a + b) + c == a + (b + c)
  {
  }

  /** Transmitting or delivering a fragment keeps the outstanding bytes. */
  lemma Transmitted(buffer: seq<byte>, wire: seq<byte>, pending: seq<byte>, k: nat)
    requires k <= |pending|
    ensures buffer + (wire + pending[..k]) + pending[k..] == buffer + wire + pending
  {
    assert pending == pending[..k] + pending[k..];
  }

  lemma Delivered(buffer: seq<byte>, wire: seq<byte>, pending: seq<byte>, k: nat)
    requires k <= |wire|
    ensures (buffer + wire[..k]) + wire[k..] + pending == buffer + wire + pending
  {
    assert wire == wire[..k] + wire[k..];
  }

  lemma BeginFlow(from: Party, wire: seq<byte>, to: Party, from': Party)
    requires PartyInv(from) && PartyInv(to) && PartyInv(from') && |from.script| == |to.script|
    requires Flow(from, wire, to) && AtSend(from) && from.pending == []
    requires from' == from.(pending := FullText(from.script[from.at]))
    ensures Flow(from', wire, to)
  {
    var text := from'.pending;
    assert Outstanding(from, wire, to) == to.buffer + wire;
    Associative(Stream(from.script, to.at), to.buffer + wire, text);
  }

  lemma BeginInv(n: Net)
    requires Inv(n) && SelfEnabled(n, Begin)
    ensures Inv(SelfNext(n, Begin))
  {
    var p, q := n.self, SelfNext(n, Begin).self;
    BeginFlow(p, n.mine, n.peer, q);
    SkipFlow(n.peer, n.theirs, p, q);
  }

  lemma TransmitFlow(from: Party, wire: seq<byte>, to: Party, k: nat, from': Party)
    requires PartyInv(from) && PartyInv(to) && PartyInv(from') && |from.script| == |to.script|
    requires Flow(from, wire, to) && AtSend(from) && 1 <= k <= |from.pending|
    requires from' == from.(pending := from.pending[k..], at := if k == |from.pending| then from.at + 1 else from.at)
    ensures Flow(from', wire + from.pending[..k], to)
  {
    Transmitted(to.buffer, wire, from.pending, k);
  }

  /** Getting past a step that the other side receives consumes nothing of what that side sends. */
  lemma SkipFlow(from: Party, wire: seq<byte>, to: Party, to': Party)
    requires PartyInv(from) && PartyInv(to) && PartyInv(to') && |from.script| == |to.script| == |to'.script|
    requires Flow(from, wire, to) && to'.buffer == to.buffer
    requires to'.at == to.at || (to'.at == to.at + 1 && to.at < |to.script| && from.script[to.at].ReceiveStep?)
    ensures Flow(from, wire, to')
  {
    if to'.at == to.at + 1 {
      StreamSkips(from.script, to.at);
    }
  }

  lemma TransmitInv(n: Net, k: nat)
    requires Inv(n) && SelfEnabled(n, Transmit(k))
    ensures Inv(SelfNext(n, Transmit(k)))
  {
    var p, q := n.self, SelfNext(n, Transmit(k)).self;
    TransmitFlow(p, n.mine, n.peer, k, q);
    SkipFlow(n.peer, n.theirs, p, q);
  }

  lemma FillInv(n: Net, k: nat)
    requires Inv(n) && SelfEnabled(n, Fill(k))
    ensures Inv(SelfNext(n, Fill(k)))
  {
    Delivered(n.self.buffer, n.theirs, n.peer.pending, k);
  }

  // ---------- receiving ----------

  lemma PrefixCancels(a: seq<byte>, b: seq<byte>, c: seq<byte>)
    requires a + b <= a + c
    ensures b <= c
  {
    assert b == (a + b)[|a|..] && c == (a + c)[|a|..];
  }

  /** If the sender has begun a step that the receiver is at, its frame comes first. */
  lemma FrameAhead(from: Party, wire: seq<byte>, to: Party)
    requires PartyInv(from) && PartyInv(to) && |from.script| == |to.script| && Flow(from, wire, to)
    requires to.at < Begun(from) && from.script[to.at].SendStep?
    ensures FullText(from.script[to.at]) <= Outstanding(from, wire, to)
  {
    StreamGrows(from.script, to.at + 1, Begun(from));
    PrefixCancels(Stream(from.script, to.at), FullText(from.script[to.at]), Outstanding(from, wire, to));
  }

  /** If the receiver is at or past what the sender has begun, nothing is outstanding. */
  lemma NothingAhead(from: Party, wire: seq<byte>, to: Party)
    requires PartyInv(from) && PartyInv(to) && |from.script| == |to.script| && Flow(from, wire, to)
    requires Begun(from) <= to.at
    ensures Outstanding(from, wire, to) == []
    ensures Stream(from.script, Begun(from)) == Stream(from.script, to.at)
  {
    StreamGrows(from.script, Begun(from), to.at);
  }

  /** A frame at the head of the stream lies within the buffer once its delimiter does. */
  lemma FrameBuffered(text: seq<byte>, d: byte, buffer: seq<byte>, tail: seq<byte>)
    requires text + [d] <= buffer + tail && d !in text && d in buffer
    ensures text + [d] <= buffer
  {
    var i :| 0 <= i < |buffer| && buffer[i] == d;
    assert (buffer + tail)[i] == d;
    assert forall j :: 0 <= j < |text| ==> (buffer + tail)[j] == (text + [d])[j] == text[j];
  }

  /** A receive step accepts the frame of the send step it answers. */
  lemma FrameAccepted(send: Step, receive: Step, buffer: seq<byte>, tail: seq<byte>) returns (rest: seq<byte>)
    requires Answers(send, receive) && FullText(send) <= buffer + tail && receive.delimiter in buffer
    ensures StepOutcome(receive, buffer) == Outcome(true, rest)
    ensures buffer == FullText(send) + rest
  {
    DelimiterIsExactIff(send.text, send.delimiter);
    FrameBuffered(send.text, send.delimiter, buffer, tail);
    rest := buffer[|send.text| + 1..];
    assert buffer == send.text + [send.delimiter] + rest;
    ReceiveFramed(receive, send.text, rest);
  }

  /** A receive step in a dual conversation accepts what it gets. */
  lemma MatchAccepts(n: Net) returns (rest: seq<byte>)
    requires Inv(n) && SelfEnabled(n, Match)
    ensures n.peer.script[n.self.at].SendStep?
    ensures StepOutcome(n.self.script[n.self.at], n.self.buffer) == Outcome(true, rest)
    ensures n.self.buffer == FullText(n.peer.script[n.self.at]) + rest
  {
    var p := n.self;
    if Begun(n.peer) <= p.at {
      NothingAhead(n.peer, n.theirs, p);
      assert false;
    }
    FrameAhead(n.peer, n.theirs, p);
    Associative(p.buffer, n.theirs, n.peer.pending);
    rest := FrameAccepted(n.peer.script[p.at], p.script[p.at], p.buffer, n.theirs + n.peer.pending);
  }

  /** Consuming a frame moves it from the outstanding to the consumed bytes. */
  lemma Consumed(stream: seq<byte>, text: seq<byte>, rest: seq<byte>, wire: seq<byte>, pending: seq<byte>)
    ensures stream + ((text + rest) + wire + pending) == (stream + text) + (rest + wire + pending)
  {
    Associative(text, rest, wire);
    Associative(text, rest + wire, pending);
    Associative(stream, text, rest + wire + pending);
  }

  lemma MatchInv(n: Net)
    requires Inv(n) && SelfEnabled(n, Match)
    ensures Inv(SelfNext(n, Match)) && SelfNext(n, Match).self.at == n.self.at + 1
  {
    var p := n.self;
    var rest := MatchAccepts(n);
    StreamSkips(p.script, p.at);
    Consumed(Stream(n.peer.script, p.at), FullText(n.peer.script[p.at]), rest, n.theirs, n.peer.pending);
  }

  lemma SelfInv(n: Net, a: Action)
    requires Inv(n) && SelfEnabled(n, a)
    ensures Inv(SelfNext(n, a))
  {
    match a
    case Begin => BeginInv(n);
    case Transmit(k) => TransmitInv(n, k);
    case Fill(k) => FillInv(n, k);
    case Match => MatchInv(n);
  }

  /** Every action of either side keeps the invariant, so no side ever fails. */
  lemma StepInv(n: Net, l: Label)
    requires Inv(n) && Enabled(n, l)
    ensures Inv(Next(n, l))
  {
    if l.mine {
      SelfInv(n, l.action);
    } else {
      FlipInv(n);
      SelfInv(Flip(n), l.action);
      FlipInv(SelfNext(Flip(n), l.action));
    }
  }

  // ---------- nobody gets stuck ----------

  lemma FlowLength(from: Party, wire: seq<byte>, to: Party)
    requires PartyInv(from) && PartyInv(to) && |from.script| == |to.script| && Flow(from, wire, to)
    ensures |Stream(from.script, Begun(from))|
            == |Stream(from.script, to.at)| + |to.buffer| + |wire| + |from.pending|
  {
  }

  lemma {:induction false} StreamLonger(script: seq<Step>, k: nat, m: nat)
    requires k < m <= |script| && script[k].SendStep?
    ensures |Stream(script, k)| < |Stream(script, k + 1)| <= |Stream(script, m)|
    decreases m
  {
    if k + 1 == m {
    } else {
      StreamLonger(script, k, m - 1);
    }
  }

  /** No side gets past a receive step whose text the other has not finished sending. */
  lemma SendNotPassed(from: Party, wire: seq<byte>, to: Party)
    requires PartyInv(from) && PartyInv(to) && |from.script| == |to.script| && Flow(from, wire, to)
    requires AtSend(from)
    ensures to.at <= from.at
  {
    FlowLength(from, wire, to);
    SendNotPassedByLength(from, to);
  }

  lemma SendNotPassedByLength(from: Party, to: Party)
    requires AtSend(from) && PartyInv(to) && |from.script| == |to.script|
    requires |Stream(from.script, Begun(from))| >= |Stream(from.script, to.at)| + |from.pending|
    ensures to.at <= from.at
  {
    if from.at < to.at {
      StreamLonger(from.script, from.at, to.at);
      assert false;
    }
  }

  /** When this side has begun the send that the peer is waiting for, the peer can act or this
      side still has bytes to transmit. */
  lemma ReaderActs(n: Net) returns (a: Action)
    requires Inv(n) && AtReceive(n.peer) && n.peer.at < Begun(n.self)
    requires n.mine != [] || n.self.pending == []
    ensures SelfEnabled(Flip(n), a)
  {
    var q := n.peer;
    var send := n.self.script[q.at];
    assert Answers(send, q.script[q.at]);
    if n.mine != [] {
      a := if q.script[q.at].delimiter in q.buffer then Match else Fill(1);
    } else {
      a := Match;
      FrameAhead(n.self, n.mine, q);
      assert Outstanding(n.self, n.mine, q) == q.buffer;
      DelimiterIsExactIff(send.text, send.delimiter);
      assert q.buffer[|send.text|] == send.delimiter;
    }
  }

  /** If neither side has passed the other's send, the peer of a sender receives. */
  lemma PeerReceives(p: Party, q: Party)
    requires AtSend(p) && !q.failed && Dual(p.script, q.script)
    requires q.at <= p.at && (AtSend(q) ==> p.at <= q.at)
    ensures AtReceive(q)
  {
    assert Answers(p.script[p.at], q.script[p.at]) || Answers(q.script[p.at], p.script[p.at]);
  }

  lemma ReaderOf(n: Net)
    requires Inv(n) && AtSend(n.self)
    ensures AtReceive(n.peer) && n.peer.at <= n.self.at
  {
    SendNotPassed(n.self, n.mine, n.peer);
    if AtSend(n.peer) {
      SendNotPassed(n.peer, n.theirs, n.self);
    }
    PeerReceives(n.self, n.peer);
  }

  lemma SenderProgress(n: Net) returns (l: Label)
    requires Inv(n) && AtSend(n.self)
    ensures Enabled(n, l)
  {
    if n.self.pending == [] {
      l := Label(true, Begin);
    } else if |n.mine| < n.capacity {
      l := Label(true, Transmit(1));
    } else {
      ReaderOf(n);
      var a := ReaderActs(n);
      l := Label(false, a);
    }
  }

  lemma ReceiverProgress(n: Net) returns (l: Label)
    requires Inv(n) && AtReceive(n.self)
    ensures Enabled(n, l)
  {
    var p, q := n.self, n.peer;
    FlipInv(n);
    if AtSend(q) {
      l := SenderProgress(Flip(n));
      l := Label(!l.mine, l.action);
    } else if q.at <= p.at {
      assert q.at < p.at && AtReceive(q);
      var a := ReaderActs(n);
      l := Label(false, a);
    } else {
      var a := ReaderActs(Flip(n));
      l := Label(true, a);
    }
  }

  /** Unless both sides have finished, one of them can act. */
  lemma NotStuck(n: Net) returns (l: Label)
    requires Inv(n) && !(Finished(n.self) && Finished(n.peer))
    ensures Enabled(n, l)
  {
    if AtSend(n.self) {
      l := SenderProgress(n);
    } else if AtReceive(n.self) {
      l := ReceiverProgress(n);
    } else {
      FlipInv(n);
      if AtSend(n.peer) {
        l := SenderProgress(Flip(n));
      } else {
        l := ReceiverProgress(Flip(n));
      }
      l := Label(!l.mine, l.action);
    }
  }

  // ---------- every run ends ----------

  /** The cost of the sends from step k on: to begin each, and to move each byte twice. */
  function ToSend(script: seq<Step>, k: nat): nat
    requires k <= |script|
    decreases |script| - k
  {
    if k == |script| then 0
    else (if script[k].SendStep? then 1 + 2 * |FullText(script[k])| else 0) + ToSend(script, k + 1)
  }

  function PartyWork(p: Party): nat
    requires PartyInv(p)
  {
    ToSend(p.script, Begun(p)) + 2 * |p.pending| + (|p.script| - p.at)
  }

  function Work(n: Net): nat
    requires PartyInv(n.self) && PartyInv(n.peer)
  {
    PartyWork(n.self) + PartyWork(n.peer) + |n.mine| + |n.theirs|
  }

  lemma LocalWork(n: Net, a: Action)
    requires PartyInv(n.self) && PartyInv(n.peer) && SelfEnabled(n, a) && !a.Match?
    requires PartyInv(SelfNext(n, a).self)
    ensures Work(SelfNext(n, a)) < Work(n)
  {
  }

  lemma MatchWork(n: Net, m: Net)
    requires PartyInv(n.self) && PartyInv(n.peer) && AtReceive(n.self)
    requires m == n.(self := m.self) && m.self == n.self.(buffer := m.self.buffer, at := n.self.at + 1)
    ensures PartyInv(m.self) && Work(m) < Work(n)
  {
  }

  lemma SelfWork(n: Net, a: Action)
    requires Inv(n) && SelfEnabled(n, a)
    ensures Inv(SelfNext(n, a)) && Work(SelfNext(n, a)) < Work(n)
  {
    SelfInv(n, a);
    if a.Match? {
      MatchInv(n);
      MatchWork(n, SelfNext(n, a));
    } else {
      LocalWork(n, a);
    }
  }

  lemma StepWork(n: Net, l: Label)
    requires Inv(n) && Enabled(n, l)
    ensures Inv(Next(n, l)) && Work(Next(n, l)) < Work(n)
  {
    StepInv(n, l);
    FlipInv(n);
    SelfWork(if l.mine then n else Flip(n), l.action);
  }

  lemma {:induction false} RunWork(n: Net, run: seq<Label>, m: Net)
    requires Inv(n) && Runs(n, run, m)
    ensures Inv(m) && |run| + Work(m) <= Work(n)
    ensures m.self.script == n.self.script && m.peer.script == n.peer.script
    decreases |run|
  {
    if run == [] {
    } else {
      StepWork(n, run[0]);
      RunWork(Next(n, run[0]), run[1..], m);
    }
  }

  function Meet(a: seq<Step>, b: seq<Step>, capacity: nat): Net {
    Net(Start(a), Start(b), [], [], capacity)
  }

  lemma MeetInv(a: seq<Step>, b: seq<Step>, capacity: nat)
    requires Dual(a, b) && capacity > 0
    ensures Inv(Meet(a, b, capacity))
    ensures Work(Meet(a, b, capacity)) == ToSend(a, 0) + ToSend(b, 0) + |a| + |b|
  {
  }

  lemma FinishedClean(n: Net)
    requires Inv(n) && Finished(n.self) && Finished(n.peer)
    ensures n.mine == [] && n.theirs == [] && n.self.buffer == [] && n.peer.buffer == []
  {
    NothingAhead(n.self, n.mine, n.peer);
    NothingAhead(n.peer, n.theirs, n.self);
    assert |n.mine| + |n.peer.buffer| <= |Outstanding(n.self, n.mine, n.peer)|;
    assert |n.theirs| + |n.self.buffer| <= |Outstanding(n.peer, n.theirs, n.self)|;
  }

  /** A conversation stops exactly when both sides have finished. */
  lemma StuckIff(n: Net)
    requires Inv(n)
    ensures Stuck(n) <==> Finished(n.self) && Finished(n.peer)
  {
    if !(Finished(n.self) && Finished(n.peer)) {
      var l := NotStuck(n);
    }
  }

  lemma RunEnds(n: Net, run: seq<Label>, m: Net)
    requires Inv(n) && Runs(n, run, m)
    ensures !m.self.failed && !m.peer.failed
    ensures |run| <= Work(n)
    ensures Stuck(m) <==> Finished(m.self) && Finished(m.peer)
    ensures Stuck(m) ==> m.mine == [] && m.theirs == [] && m.self.buffer == [] && m.peer.buffer == []
  {
    RunWork(n, run, m);
    StuckIff(m);
    if Finished(m.self) && Finished(m.peer) {
      FinishedClean(m);
    }
  }

  /** For a script and its dual, whatever the interleaving and however the bytes are taken and
      delivered: no side ever fails, every run is finite, and a run can only stop when both
      sides have finished with nothing left over. */
  lemma DualConversation(a: seq<Step>, b: seq<Step>, capacity: nat, n: Net, run: seq<Label>, m: Net)
    requires Dual(a, b) && capacity > 0
    requires n == Meet(a, b, capacity) && Runs(n, run, m)
    ensures !m.self.failed && !m.peer.failed
    ensures |run| <= ToSend(a, 0) + ToSend(b, 0) + |a| + |b|
    ensures Stuck(m) <==> Finished(m.self) && Finished(m.peer)
    ensures Stuck(m) ==> m.mine == [] && m.theirs == [] && m.self.buffer == [] && m.peer.buffer == []
  {
    MeetInv(a, b, capacity);
    RunEnds(n, run, m);
  }

  // ---------- Bunny's documented script against Bee ----------

  /** The tcpSocket script of the README, for the two regular expressions it names. */
  function BunnyScript(yellow: seq<byte> -> bool, canComplain: seq<byte> -> bool): seq<Step> {
    [SendStep(HELLO, NEWLINE), ReceiveStep(yellow, NEWLINE),
     SendStep(HOW_ARE_YOU, NEWLINE), ReceiveStep(canComplain, NEWLINE)]
  }

  lemma BunnyAndBeeAreDual(yellow: seq<byte> -> bool, canComplain: seq<byte> -> bool)
    requires yellow(YELLOW) && canComplain(NOT_BAD)
    ensures Dual(BunnyScript(yellow, canComplain), BeeScript())
  {
    var a, b := BunnyScript(yellow, canComplain), BeeScript();
    assert Answers(a[0], b[0]);
    assert Answers(b[1], a[1]);
    assert Answers(a[2], b[2]);
    assert Answers(b[3], a[3]);
  }

  /** The README's script succeeds against Bee on every interleaving and fragmentation. */
  lemma BunnyTalksToBee(yellow: seq<byte> -> bool, canComplain: seq<byte> -> bool, capacity: nat,
                        n: Net, run: seq<Label>, m: Net)
    requires yellow(YELLOW) && canComplain(NOT_BAD) && capacity > 0
    requires n == Meet(BunnyScript(yellow, canComplain), BeeScript(), capacity) && Runs(n, run, m)
    ensures !m.self.failed && !m.peer.failed
    ensures Stuck(m) <==> Finished(m.self) && Finished(m.peer)
  {
    BunnyAndBeeAreDual(yellow, canComplain);
    DualConversation(BunnyScript(yellow, canComplain), BeeScript(), capacity, n, run, m);
  }
}

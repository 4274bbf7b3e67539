/**
 What a side of any conversation does is what its script does on the bytes that have
 reached it, whatever the two scripts are and however the bytes are cut up on the way.
 */
module ConversationPlay {
  import opened Conversation
  import opened Framing

  /** What a side has yet to transmit is the end of the text of the send step it is at. */
  predicate Begins(p: Party) {
    && p.at <= |p.script|
    && (p.pending != [] ==>
          p.at < |p.script| && p.script[p.at].SendStep? && IsSuffix(p.pending, FullText(p.script[p.at])))
  }

  /** Everything a side has put on the wire. */
  function Written(p: Party): seq<byte>
    requires Begins(p)
  {
    Stream(p.script, p.at) +
    if p.pending == [] then []
    else var text := FullText(p.script[p.at]); text[..|text| - |p.pending|]
  }

  /** What the other side has got of it: everything but what is in flight. */
  function Heard(from: Party, wire: seq<byte>): (heard: seq<byte>)
    requires Begins(from) && IsSuffix(wire, Written(from))
    ensures heard + wire == Written(from)
  {
    Written(from)[..|Written(from)| - |wire|]
  }

  /** A side is where its script is after the bytes it has got: successful up to the step it is at,
      with the rest of the bytes read ahead, or failed there. */
  predicate Plays(p: Party, heard: seq<byte>) {
    && p.at <= |p.script|
    && if !p.failed then Play(p.script[..p.at], heard) == Outcome(true, p.buffer)
       else
         && p.at < |p.script| && p.script[p.at].ReceiveStep?
         && Play(p.script[..p.at], heard).ok
         && Play(p.script[..p.at + 1], heard) == Outcome(false, p.buffer)
  }

  predicate Follows(from: Party, wire: seq<byte>, to: Party) {
    Begins(from) && IsSuffix(wire, Written(from)) && Plays(to, Heard(from, wire))
  }

  predicate Faithful(n: Net) {
    Follows(n.self, n.mine, n.peer) && Follows(n.peer, n.theirs, n.self)
  }

  lemma HeardIs(from: Party, wire: seq<byte>, heard: seq<byte>)
    requires Begins(from) && Written(from) == heard + wire
    ensures IsSuffix(wire, Written(from)) && Heard(from, wire) == heard
  {
    assert Written(from)[|heard|..] == wire;
  }

  // ---------- sending ----------

  /** What is written and still in flight is not heard. */
  lemma HeardSame(from: Party, wire: seq<byte>, from': Party, more: seq<byte>)
    requires Begins(from) && IsSuffix(wire, Written(from))
    requires Begins(from') && Written(from') == Written(from) + more
    ensures IsSuffix(wire + more, Written(from')) && Heard(from', wire + more) == Heard(from, wire)
  {
    var heard := Heard(from, wire);
    Associative(heard, wire, more);
    HeardIs(from', wire + more, heard);
  }

  lemma BeginWritten(p: Party, p': Party)
    requires Begins(p) && p.pending == [] && p.at < |p.script| && p.script[p.at].SendStep?
    requires p' == p.(pending := FullText(p.script[p.at]))
    ensures Begins(p') && Written(p') == Written(p)
  {
  }

  lemma TransmitWritten(p: Party, k: nat, p': Party)
    requires Begins(p) && 1 <= k <= |p.pending|
    requires p' == p.(pending := p.pending[k..], at := if k == |p.pending| then p.at + 1 else p.at)
    ensures Begins(p') && Written(p') == Written(p) + p.pending[..k]
  {
    var text, stream := FullText(p.script[p.at]), Stream(p.script, p.at);
    var from := |text| - |p.pending|;
    assert text[..from] + p.pending[..k] == text[..from + k];
    assert (stream + text[..from]) + p.pending[..k] == stream + text[..from + k];
    if k == |p.pending| {
      assert text[..from + k] == text;
    }
  }

  /** Getting past a send step is the script's doing so. */
  lemma PastSend(p: Party, heard: seq<byte>, p': Party)
    requires Plays(p, heard) && AtSend(p) && p'.script == p.script
    requires p'.at == p.at + 1 && p'.buffer == p.buffer && !p'.failed
    ensures Plays(p', heard)
  {
    PlayAt(p.script, p.at, heard);
  }

  lemma BeginFaithful(n: Net)
    requires Faithful(n) && SelfEnabled(n, Begin)
    ensures Faithful(SelfNext(n, Begin))
  {
    BeginWritten(n.self, SelfNext(n, Begin).self);
  }

  lemma TransmitFaithful(n: Net, k: nat)
    requires Faithful(n) && SelfEnabled(n, Transmit(k))
    ensures Faithful(SelfNext(n, Transmit(k)))
  {
    var m := SelfNext(n, Transmit(k));
    var p, q := n.self, m.self;
    TransmitWritten(p, k, q);
    HeardSame(p, n.mine, q, p.pending[..k]);
    if q.at == p.at + 1 {
      PastSend(p, Heard(n.peer, n.theirs), q);
    }
  }

  // ---------- receiving ----------

  lemma StepMore(step: Step, input: seq<byte>, more: seq<byte>)
    requires StepOutcome(step, input).ok
    ensures StepOutcome(step, input + more) == Outcome(true, StepOutcome(step, input).rest + more)
  {
    if step.ReceiveStep? {
      var text := FirstText(step, input);
      var rest := StepOutcome(step, input).rest;
      Associative(text + [step.delimiter], rest, more);
      ReceiveFramed(step, text, rest + more);
    }
  }

  /** More bytes change nothing for the steps that have succeeded. */
  lemma {:induction false} PlayMore(steps: seq<Step>, input: seq<byte>, more: seq<byte>)
    requires Play(steps, input).ok
    ensures Play(steps, input + more) == Outcome(true, Play(steps, input).rest + more)
    decreases |steps|
  {
    if steps == [] {
    } else {
      StepMore(steps[0], input, more);
      PlayMore(steps[1..], StepOutcome(steps[0], input).rest, more);
    }
  }

  lemma FillPlays(p: Party, heard: seq<byte>, more: seq<byte>, p': Party)
    requires Plays(p, heard) && !p.failed && p' == p.(buffer := p.buffer + more)
    ensures Plays(p', heard + more)
  {
    PlayMore(p.script[..p.at], heard, more);
  }

  lemma MatchPlays(p: Party, heard: seq<byte>, p': Party)
    requires Plays(p, heard) && AtReceive(p)
    requires var o := StepOutcome(p.script[p.at], p.buffer);
             p' == p.(buffer := o.rest, at := if o.ok then p.at + 1 else p.at, failed := !o.ok)
    ensures Plays(p', heard)
  {
    PlayAt(p.script, p.at, heard);
  }

  /** A side at a receive step has written the same before and after it. */
  lemma ReceiveWritten(p: Party, p': Party)
    requires Begins(p) && AtReceive(p) && p'.script == p.script && p'.pending == p.pending
    requires p'.at == p.at || p'.at == p.at + 1
    ensures Begins(p') && Written(p') == Written(p)
  {
    if p'.at == p.at + 1 {
      StreamSkips(p.script, p.at);
    }
  }

  lemma MoveBoundary(heard: seq<byte>, wire: seq<byte>, k: nat)
    requires k <= |wire|
    ensures heard + wire == (heard + wire[..k]) + wire[k..]
  {
    assert wire == wire[..k] + wire[k..];
    Associative(heard, wire[..k], wire[k..]);
  }

  /** Taking the first k bytes in flight. */
  lemma HeardMore(from: Party, wire: seq<byte>, k: nat)
    requires Begins(from) && IsSuffix(wire, Written(from)) && k <= |wire|
    ensures IsSuffix(wire[k..], Written(from)) && Heard(from, wire[k..]) == Heard(from, wire) + wire[..k]
  {
    var heard := Heard(from, wire);
    MoveBoundary(heard, wire, k);
    HeardIs(from, wire[k..], heard + wire[..k]);
  }

  lemma FillFaithful(n: Net, k: nat)
    requires Faithful(n) && SelfEnabled(n, Fill(k))
    ensures Faithful(SelfNext(n, Fill(k)))
  {
    var q := SelfNext(n, Fill(k)).self;
    ReceiveWritten(n.self, q);
    HeardMore(n.peer, n.theirs, k);
    FillPlays(n.self, Heard(n.peer, n.theirs), n.theirs[..k], q);
  }

  lemma MatchFaithful(n: Net)
    requires Faithful(n) && SelfEnabled(n, Match)
    ensures Faithful(SelfNext(n, Match))
  {
    var q := SelfNext(n, Match).self;
    ReceiveWritten(n.self, q);
    MatchPlays(n.self, Heard(n.peer, n.theirs), q);
  }

  lemma StepFaithful(n: Net, l: Label)
    requires Faithful(n) && Enabled(n, l)
    ensures Faithful(Next(n, l))
  {
    var m := if l.mine then n else Flip(n);
    match l.action
    case Begin => BeginFaithful(m);
    case Transmit(k) => TransmitFaithful(m, k);
    case Fill(k) => FillFaithful(m, k);
    case Match => MatchFaithful(m);
  }

  lemma {:induction false} RunFaithful(n: Net, run: seq<Label>, m: Net)
    requires Faithful(n) && Runs(n, run, m)
    ensures Faithful(m)
    decreases |run|
  {
    if run == [] {
    } else {
      StepFaithful(n, run[0]);
      RunFaithful(Next(n, run[0]), run[1..], m);
    }
  }

  /** For any two scripts, in every run: each side has got a prefix of what the other has written,
      all but what is in flight, and it is exactly where its script is after those bytes. */
  lemma SidesPlay(a: seq<Step>, b: seq<Step>, capacity: nat, n: Net, run: seq<Label>, m: Net)
    requires n == Meet(a, b, capacity) && Runs(n, run, m)
    ensures Begins(m.self) && IsSuffix(m.mine, Written(m.self)) && Plays(m.peer, Heard(m.self, m.mine))
    ensures Begins(m.peer) && IsSuffix(m.theirs, Written(m.peer)) && Plays(m.self, Heard(m.peer, m.theirs))
  {
    assert Play([], []) == Outcome(true, []);
    assert a[..0] == [] && b[..0] == [];
    RunFaithful(n, run, m);
  }
}

/**
 The expect engine of the TCP probe: send and receive steps over one shared buffered
 reader and one buffered writer.
 */
module Expect {
  import opened Framing
  import opened BufferedIo

  /** SendStep.do.  A short write is ignored as long as some bytes were taken, but the error
      sticks: the step succeeds exactly when every byte of the full text is on the wire. */
  method Send(step: Step, writer: Writer) returns (ok: bool)
    requires step.SendStep? && writer.Valid()
    modifies writer`buffer, writer`failed, writer`wire, writer`plan, writer`reported
    ensures writer.Valid() && |old(writer.wire)| <= |writer.wire|
    ensures ok <==> !writer.failed
    ensures ok ==> writer.buffer == [] && writer.wire == old(writer.Handed()) + FullText(step)
    ensures writer.Handed() <= old(writer.Handed()) + FullText(step)
    ensures Reliable(old(writer.plan)) ==> Reliable(writer.plan) && writer.failed == old(writer.failed)
  {
    var fullText := FullText(step);
    var i := 0;
    while i < |fullText|
      invariant writer.Valid() && i <= |fullText| && |old(writer.wire)| <= |writer.wire|
      invariant writer.Handed() == old(writer.Handed()) + fullText[..i]
      invariant old(writer.failed) ==> writer.failed
      invariant Reliable(old(writer.plan)) ==> Reliable(writer.plan) && writer.failed == old(writer.failed)
      decreases |fullText| - i
    {
      var bytesWritten := writer.Write(fullText[i..]);
      HandOver(old(writer.Handed()), fullText, i, bytesWritten);
      if bytesWritten == 0 {
        return false;
      }
      i := i + bytesWritten;
    }
    assert fullText[..i] == fullText;
    ok := writer.Flush();
  }

  /** ReceiveStep.do on the shared reader. */
  method Receive(step: Step, reader: Reader) returns (ok: bool)
    requires step.ReceiveStep?
    modifies reader
    ensures Outcome(ok, reader.Unread()) == StepOutcome(step, old(reader.Unread()))
  {
    var wordsSent, read := reader.ReadString(step.delimiter);
    ok := read && step.matches(Trimmed(wordsSent, step.delimiter));
  }

  lemma PrefixByLength(a: seq<byte>, b: seq<byte>, whole: seq<byte>)
    requires a <= whole && b <= whole && |a| <= |b|
    ensures a <= b
  {
  }

  /** Either kind of step. */
  method Do(step: Step, reader: Reader, writer: Writer) returns (ok: bool)
    requires writer.Valid() && !writer.failed && writer.buffer == []
    modifies reader, writer`buffer, writer`failed, writer`wire, writer`plan, writer`reported
    ensures writer.Valid() && reader.Unread() == StepOutcome(step, old(reader.Unread())).rest
    ensures ok <==> !writer.failed && StepOutcome(step, old(reader.Unread())).ok
    ensures ok ==> writer.buffer == [] && writer.wire == old(writer.wire) + StepText(step)
    ensures old(writer.wire) <= writer.wire <= old(writer.wire) + StepText(step)
    ensures Reliable(old(writer.plan)) ==> Reliable(writer.plan) && !writer.failed
  {
    if step.SendStep? {
      ok := Send(step, writer);
      assert writer.wire <= writer.Handed();
      PrefixByLength(old(writer.wire), writer.wire, old(writer.wire) + StepText(step));
    } else {
      ok := Receive(step, reader);
    }
  }

  /** One more step of text on the wire, complete or cut short. */
  lemma WireGrows(start: seq<byte>, sent: seq<byte>, now: seq<byte>, text: seq<byte>, rest: seq<byte>)
    requires start <= sent <= now <= sent + text
    ensures start <= now <= sent + (text + rest)
    ensures now == sent + text ==> now + rest == sent + (text + rest)
  {
    assert sent + (text + rest) == (sent + text) + rest;
  }

  /** The next step of a script settles how the rest of it is played. */
  lemma PlayFrom(steps: seq<Step>, k: nat, unread: seq<byte>)
    requires k < |steps|
    ensures Outgoing(steps[k..]) == StepText(steps[k]) + Outgoing(steps[k + 1..])
    ensures var o := StepOutcome(steps[k], unread);
            Play(steps[k..], unread) == if o.ok then Play(steps[k + 1..], o.rest) else o
  {
    assert steps[k..][1..] == steps[k + 1..];
  }

  /** Run a script. It succeeds exactly when no write failed and the incoming stream, however it
      was split into chunks, plays the script; what it consumed is what the pure script
      consumes; and the wire carries all of its text on success and a prefix of it otherwise. */
  method RunScript(steps: seq<Step>, reader: Reader, writer: Writer) returns (ok: bool)
    requires writer.Valid() && !writer.failed && writer.buffer == []
    modifies reader, writer`buffer, writer`failed, writer`wire, writer`plan, writer`reported
    ensures writer.Valid() && (ok <==> !writer.failed && Play(steps, old(reader.Unread())).ok)
    ensures !writer.failed ==> reader.Unread() == Play(steps, old(reader.Unread())).rest
    ensures IsSuffix(reader.Unread(), old(reader.Unread()))
    ensures ok ==> writer.wire == old(writer.wire) + Outgoing(steps)
    ensures old(writer.wire) <= writer.wire <= old(writer.wire) + Outgoing(steps)
    ensures Reliable(old(writer.plan)) ==> !writer.failed
  {
    var k := 0;
    ghost var input, wire, total := reader.Unread(), writer.wire, writer.wire + Outgoing(steps);
    assert steps[0..] == steps;
    while k < |steps|
      invariant k <= |steps| && writer.Valid() && !writer.failed && writer.buffer == []
      invariant Play(steps, input) == Play(steps[k..], reader.Unread())
      invariant wire <= writer.wire && writer.wire + Outgoing(steps[k..]) == total
      invariant IsSuffix(reader.Unread(), input)
      invariant Reliable(old(writer.plan)) ==> Reliable(writer.plan)
    {
      ghost var unread, sent := reader.Unread(), writer.wire;
      PlayFrom(steps, k, unread);
      var successful := Do(steps[k], reader, writer);
      SuffixTransitive(reader.Unread(), unread, input);
      WireGrows(wire, sent, writer.wire, StepText(steps[k]), Outgoing(steps[k + 1..]));
      if !successful {
        return false;
      }
      k := k + 1;
    }
    ok := true;
  }
}

/**
 The peer in Bee: tcpRead and tcpWrite, as expect steps with exact words and a newline, and the
 handler that chains them.
 */
module BeeTcp {
  import opened BufferedIo
  import opened Expect
  import opened Framing

  const NEWLINE: byte := 10
  /** "hello" */
  const HELLO: seq<byte> := [104, 101, 108, 108, 111]
  /** "yellow" */
  const YELLOW: seq<byte> := [121, 101, 108, 108, 111, 119]
  /** "how're ya now?" */
  const HOW_ARE_YOU: seq<byte> := [104, 111, 119, 39, 114, 101, 32, 121, 97, 32, 110, 111, 119, 63]
  /** "can't complain" */
  const NOT_BAD: seq<byte> := [99, 97, 110, 39, 116, 32, 99, 111, 109, 112, 108, 97, 105, 110]

  /** The bytes of an ASCII text. */
  function Ascii(text: string): seq<byte>
    requires forall c :: c in text ==> c < 128 as char
  {
    seq(|text|, i requires 0 <= i < |text| => assert text[i] in text; text[i] as byte)
  }

  lemma Words()
    ensures HELLO == Ascii("hello") && YELLOW == Ascii("yellow")
    ensures HOW_ARE_YOU == Ascii("how're ya now?") && NOT_BAD == Ascii("can't complain")
    ensures [NEWLINE] == Ascii("\n")
  {
  }

  function ReadStep(words: seq<byte>): Step {
    ReceiveStep((line: seq<byte>) => line == words, NEWLINE)
  }

  function WriteStep(words: seq<byte>): Step {
    SendStep(words, NEWLINE)
  }

  /** Two lines expected and two lines answered. */
  function Exchange(hello: seq<byte>, yellow: seq<byte>, question: seq<byte>, answer: seq<byte>): seq<Step> {
    [ReadStep(hello), WriteStep(yellow), ReadStep(question), WriteStep(answer)]
  }

  /** The conversation that Bee expects. */
  function BeeScript(): seq<Step> {
    Exchange(HELLO, YELLOW, HOW_ARE_YOU, NOT_BAD)
  }

  /** Comparing with the newline included is the same as trimming it and comparing. */
  method TcpRead(reader: Reader, words: seq<byte>) returns (ok: bool)
    modifies reader
    ensures Outcome(ok, reader.Unread()) == StepOutcome(ReadStep(words), old(reader.Unread()))
  {
    var wordsSent, read := reader.ReadString(NEWLINE);
    if !read {
      return false;
    }
    var text := wordsSent[..|wordsSent| - 1];
    assert wordsSent == text + [NEWLINE];
    DelimiterIsExactIff(text, NEWLINE);
    ok := words + [NEWLINE] == wordsSent;
    assert text == words ==> wordsSent == words + [NEWLINE];
  }

  /** Unlike the probe's send step this gives up at the first error; the outcome is the same. */
  method TcpWrite(writer: Writer, words: seq<byte>) returns (ok: bool)
    requires writer.Valid()
    modifies writer`buffer, writer`failed, writer`wire, writer`plan, writer`reported
    ensures writer.Valid() && (ok <==> !writer.failed) && |old(writer.wire)| <= |writer.wire|
    ensures ok ==> writer.buffer == [] && writer.wire == old(writer.Handed()) + FullText(WriteStep(words))
    ensures writer.Handed() <= old(writer.Handed()) + FullText(WriteStep(words))
    ensures Reliable(old(writer.plan)) ==> Reliable(writer.plan) && writer.failed == old(writer.failed)
  {
    var fullText := words + [NEWLINE];
    var i := 0;
    while i < |fullText|
      invariant writer.Valid() && i <= |fullText| && |old(writer.wire)| <= |writer.wire|
      invariant writer.Handed() == old(writer.Handed()) + fullText[..i]
      invariant Reliable(old(writer.plan)) ==> Reliable(writer.plan) && writer.failed == old(writer.failed)
      decreases |fullText| - i
    {
      var bytesWritten := writer.Write(fullText[i..]);
      HandOver(old(writer.Handed()), fullText, i, bytesWritten);
      if bytesWritten == 0 || writer.failed {
        return false;
      }
      i := i + bytesWritten;
    }
    assert fullText[..i] == fullText;
    ok := writer.Flush();
  }

  /** Two receives and two sends in turn. */
  predicate Alternates(steps: seq<Step>) {
    |steps| == 4 && steps[0].ReceiveStep? && steps[1].SendStep? && steps[2].ReceiveStep? && steps[3].SendStep?
  }

  /** Such a script's text is that of its sends... */
  lemma AlternatingText(steps: seq<Step>)
    requires Alternates(steps)
    ensures Outgoing(steps) == FullText(steps[1]) + FullText(steps[3])
  {
    assert steps[0..] == steps;
    PlayFrom(steps, 0, []);
    PlayFrom(steps, 1, []);
    PlayFrom(steps, 2, []);
    PlayFrom(steps, 3, []);
    assert Outgoing(steps[4..]) == [];
  }

  /** ...and its receives decide the outcome. */
  lemma AlternatingPlay(steps: seq<Step>, input: seq<byte>)
    requires Alternates(steps)
    ensures var o := StepOutcome(steps[0], input);
            Play(steps, input) == if o.ok then StepOutcome(steps[2], o.rest) else o
  {
    assert steps[0..] == steps;
    PlayFrom(steps, 0, input);
    var rest := StepOutcome(steps[0], input).rest;
    PlayFrom(steps, 1, rest);
    PlayFrom(steps, 2, rest);
    PlayFrom(steps, 3, StepOutcome(steps[2], rest).rest);
  }

  /** The wire after one answer, and after two. */
  lemma TwoAnswers(wire: seq<byte>, sent: seq<byte>, now: seq<byte>, first: seq<byte>, second: seq<byte>)
    requires wire <= sent <= wire + first
    requires if sent == wire + first then sent <= now <= sent + second else now == sent
    ensures wire <= now <= wire + (first + second)
    ensures sent == wire + first && now == sent + second ==> now == wire + (first + second)
  {
    assert wire + (first + second) == (wire + first) + second;
  }

  /** A write that may be cut short leaves a prefix of its text on the wire. */
  lemma CutShort(wire: seq<byte>, text: seq<byte>, now: seq<byte>, buffer: seq<byte>)
    requires now + buffer <= wire + text && |wire| <= |now|
    ensures wire <= now <= wire + text
  {
    assert now <= now + buffer;
    PrefixByLength(wire, now, wire + text);
  }

  /** A write of the handler, which starts with everything on the wire. */
  method Answer(writer: Writer, words: seq<byte>) returns (ok: bool)
    requires writer.Valid() && !writer.failed && writer.buffer == []
    modifies writer`buffer, writer`failed, writer`wire, writer`plan, writer`reported
    ensures writer.Valid() && (ok <==> !writer.failed)
    ensures ok ==> writer.buffer == [] && writer.wire == old(writer.wire) + FullText(WriteStep(words))
    ensures old(writer.wire) <= writer.wire <= old(writer.wire) + FullText(WriteStep(words))
    ensures Reliable(old(writer.plan)) ==> Reliable(writer.plan) && !writer.failed
  {
    ghost var wire, text := writer.wire, FullText(WriteStep(words));
    ok := TcpWrite(writer, words);
    CutShort(wire, text, writer.wire, writer.buffer);
  }

  /** Half of the chain in handleTCPConnection: read a line and answer it. */
  method ReadAndAnswer(reader: Reader, writer: Writer, words: seq<byte>, answer: seq<byte>) returns (ok: bool)
    requires writer.Valid() && !writer.failed && writer.buffer == []
    modifies reader, writer`buffer, writer`failed, writer`wire, writer`plan, writer`reported
    ensures writer.Valid() && reader.Unread() == StepOutcome(ReadStep(words), old(reader.Unread())).rest
    ensures ok <==> !writer.failed && StepOutcome(ReadStep(words), old(reader.Unread())).ok
    ensures ok ==> writer.buffer == [] && writer.wire == old(writer.wire) + FullText(WriteStep(answer))
    ensures old(writer.wire) <= writer.wire <= old(writer.wire) + FullText(WriteStep(answer))
    ensures Reliable(old(writer.plan)) ==> Reliable(writer.plan) && !writer.failed
  {
    ok := TcpRead(reader, words);
    if ok {
      ok := Answer(writer, answer);
    }
  }

  /** The chain of calls in handleTCPConnection, for any four lines. */
  method Converse(reader: Reader, writer: Writer,
                  hello: seq<byte>, yellow: seq<byte>, question: seq<byte>, answer: seq<byte>)
    returns (ok: bool)
    requires writer.Valid() && !writer.failed && writer.buffer == []
    modifies reader, writer`buffer, writer`failed, writer`wire, writer`plan, writer`reported
    ensures var o := Play(Exchange(hello, yellow, question, answer), old(reader.Unread()));
            (ok <==> !writer.failed && o.ok) && (!writer.failed ==> reader.Unread() == o.rest)
    ensures var text := Outgoing(Exchange(hello, yellow, question, answer));
            && (ok ==> writer.wire == old(writer.wire) + text)
            && old(writer.wire) <= writer.wire <= old(writer.wire) + text
    ensures writer.Valid() && (Reliable(old(writer.plan)) ==> !writer.failed)
  {
    AlternatingText(Exchange(hello, yellow, question, answer));
    AlternatingPlay(Exchange(hello, yellow, question, answer), reader.Unread());
    ghost var wire := writer.wire;
    ok := ReadAndAnswer(reader, writer, hello, yellow);
    ghost var sent := writer.wire;
    if ok {
      ok := ReadAndAnswer(reader, writer, question, answer);
    }
    TwoAnswers(wire, sent, writer.wire, FullText(WriteStep(yellow)), FullText(WriteStep(answer)));
  }

  /** handleTCPConnection. It succeeds exactly when no write failed and the incoming stream plays
      Bee's script; the wire carries all of its text on success and a prefix of it otherwise. */
  method HandleTcpConnection(reader: Reader, writer: Writer) returns (ok: bool)
    requires writer.Valid() && !writer.failed && writer.buffer == []
    modifies reader, writer`buffer, writer`failed, writer`wire, writer`plan, writer`reported
    ensures writer.Valid() && (ok <==> !writer.failed && Play(BeeScript(), old(reader.Unread())).ok)
    ensures !writer.failed ==> reader.Unread() == Play(BeeScript(), old(reader.Unread())).rest
    ensures ok ==> writer.wire == old(writer.wire) + Outgoing(BeeScript())
    ensures old(writer.wire) <= writer.wire <= old(writer.wire) + Outgoing(BeeScript())
    ensures Reliable(old(writer.plan)) ==> !writer.failed
  {
    ok := Converse(reader, writer, HELLO, YELLOW, HOW_ARE_YOU, NOT_BAD);
  }
}

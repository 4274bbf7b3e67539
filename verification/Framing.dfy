/**
 Byte strings, delimiters and the pure meaning of an expect script: what it puts on the
 wire, and how it cuts, trims and matches what it receives.
 */
module Framing {
  newtype byte = x: int | 0 <= x < 256

  /** Go's `string(b)` for a byte b: the UTF-8 encoding of the rune b, as section 3 of RFC 3629 has
      it: from 0x80 on, a lead byte with the high bits and a continuation byte with the low six. */
  function RuneString(b: byte): (r: seq<byte>)
    ensures b < 0x80 ==> r == [b]
    ensures b >= 0x80 ==>
              && |r| == 2 && 0xC0 <= r[0] < 0xE0 && 0x80 <= r[1] < 0xC0
              && (r[0] as int - 0xC0) * 64 + (r[1] as int - 0x80) == b as int
  {
    if b < 0x80 then [b] else [0xC0 + b / 64, 0x80 + b % 64]
  }

  predicate IsSuffix(s: seq<byte>, of: seq<byte>) {
    |s| <= |of| && s == of[|of| - |s|..]
  }

  function TrimSuffix(s: seq<byte>, suffix: seq<byte>): (r: seq<byte>)
    ensures if IsSuffix(suffix, s) then r + suffix == s else r == s
  {
    if |suffix| <= |s| && s[|s| - |suffix|..] == suffix then s[..|s| - |suffix|] else s
  }

  /** The index of the first `d`, or the length if there is none. */
  function Index(s: seq<byte>, d: byte): (k: nat)
    ensures k <= |s| && d !in s[..k]
    ensures k < |s| <==> d in s
    ensures k < |s| ==> s[k] == d
  {
    if s == [] then 0
    else if s[0] == d then 0
    else assert s == [s[0]] + s[1..]; 1 + Index(s[1..], d)
  }

  /** A position is the first `d` exactly when it holds `d` and none before it does. */
  lemma IndexUnique(s: seq<byte>, d: byte, k: nat)
    requires k < |s| && s[k] == d && d !in s[..k]
    ensures Index(s, d) == k
  {
  }

  /** What ReadString delivers from a stream, and what it leaves; without a delimiter it
      delivers everything, with an error. */
  datatype Frame = Frame(line: seq<byte>, rest: seq<byte>, ok: bool)

  function Cut(stream: seq<byte>, d: byte): (f: Frame)
    ensures f.line + f.rest == stream
    ensures f.ok <==> d in stream
  {
    var k := Index(stream, d);
    if k < |stream| then Frame(stream[..k + 1], stream[k + 1..], true) else Frame(stream, [], false)
  }

  /** A framed text that does not contain its delimiter is cut off the stream exactly. */
  lemma CutFramed(text: seq<byte>, d: byte, rest: seq<byte>)
    requires d !in text
    ensures Cut(text + [d] + rest, d) == Frame(text + [d], rest, true)
  {
    var stream := text + [d] + rest;
    assert stream[..|text|] == text;
    IndexUnique(stream, d, |text|);
  }

  /** Conversely, the line that a cut delivers is a text without the delimiter, and the delimiter... */
  lemma CutText(stream: seq<byte>, d: byte) returns (text: seq<byte>)
    requires d in stream
    ensures d !in text && Cut(stream, d).line == text + [d]
    ensures stream == text + [d] + Cut(stream, d).rest
  {
    var k := Index(stream, d);
    text := stream[..k];
    assert stream[..k + 1] == text + [d];
  }

  /** ...and without a delimiter it delivers everything, as an error. */
  lemma CutUnframed(stream: seq<byte>, d: byte)
    requires d !in stream
    ensures Cut(stream, d) == Frame(stream, [], false)
  {
  }

  // ---------- expect scripts ----------

  /** One step of an expect script. A regular expression is known only by what it matches. */
  datatype Step =
    | SendStep(text: seq<byte>, delimiter: byte)
    | ReceiveStep(matches: seq<byte> -> bool, delimiter: byte)

  /** What a send step writes. */
  function FullText(step: Step): (r: seq<byte>)
    requires step.SendStep?
    ensures r != [] && step.text <= r
  {
    step.text + RuneString(step.delimiter)
  }

  /** What a receive step shows its regular expression. */
  function Trimmed(line: seq<byte>, delimiter: byte): seq<byte> {
    TrimSuffix(line, RuneString(delimiter))
  }

  /** What a step writes. */
  function StepText(step: Step): seq<byte> {
    if step.SendStep? then FullText(step) else []
  }

  /** Everything a script writes, in order. */
  function Outgoing(steps: seq<Step>): seq<byte> {
    if steps == [] then [] else StepText(steps[0]) + Outgoing(steps[1..])
  }

  lemma SuffixTransitive(s: seq<byte>, t: seq<byte>, u: seq<byte>)
    requires IsSuffix(s, t) && IsSuffix(t, u)
    ensures IsSuffix(s, u)
  {
  }

  datatype Outcome = Outcome(ok: bool, rest: seq<byte>)

  /** How a step fares on the bytes still to come, when nothing it writes fails. */
  function StepOutcome(step: Step, input: seq<byte>): (o: Outcome)
    ensures IsSuffix(o.rest, input)
  {
    if step.SendStep? then Outcome(true, input)
    else
      var f := Cut(input, step.delimiter);
      Outcome(f.ok && step.matches(Trimmed(f.line, step.delimiter)), f.rest)
  }

  /** How a script fares on the bytes it will ever receive, when nothing it writes fails. */
  function Play(steps: seq<Step>, input: seq<byte>): Outcome {
    if steps == [] then Outcome(true, input)
    else
      var o := StepOutcome(steps[0], input);
      if o.ok then Play(steps[1..], o.rest) else o
  }

  /** A send step ends its text with the configured delimiter byte, and a receive step takes
      exactly that byte off again, if and only if the delimiter is ASCII. */
  lemma DelimiterIsExactIff(text: seq<byte>, d: byte)
    ensures FullText(SendStep(text, d)) == text + [d] <==> d < 0x80
    ensures Trimmed(text + [d], d) == text <==> d < 0x80
  {
    if d < 0x80 {
      assert (text + [d])[|text|..] == [d];
      assert (text + [d])[..|text|] == text;
    } else {
      assert |FullText(SendStep(text, d))| == |text| + 2;
    }
  }

  /** What a receive step shows its regular expression of a text that ends with its delimiter: the
      text, for an ASCII delimiter. Of any other delimiter nothing is taken off, unless the last
      byte of the text happens to complete its encoding. */
  function Shown(text: seq<byte>, d: byte): seq<byte> {
    if d < 0x80 then text
    else if d < 0xC0 && text != [] && text[|text| - 1] == 0xC2 then text[..|text| - 1]
    else text + [d]
  }

  lemma TrimmedIsShown(text: seq<byte>, d: byte)
    ensures Trimmed(text + [d], d) == Shown(text, d)
  {
    var line := text + [d];
    var r := Trimmed(line, d);
    if d < 0x80 {
      DelimiterIsExactIff(text, d);
    } else {
      var encoded := RuneString(d);
      if text == [] {
        assert !IsSuffix(encoded, line);
      } else {
        assert line[|line| - 2..] == [text[|text| - 1], d];
        if IsSuffix(encoded, line) {
          assert r == (r + encoded)[..|text| - 1] == line[..|text| - 1] == text[..|text| - 1];
        }
      }
    }
  }

  /** Texts that can be framed for the receive steps of a script: their delimiters do not occur in
      them. (Send steps ignore their text.) */
  predicate Frameable(steps: seq<Step>, texts: seq<seq<byte>>) {
    && |texts| == |steps|
    && forall i :: 0 <= i < |steps| && steps[i].ReceiveStep? ==> steps[i].delimiter !in texts[i]
  }

  /** The stream that answers every receive step with its text. */
  function Incoming(steps: seq<Step>, texts: seq<seq<byte>>): seq<byte>
    requires |texts| == |steps|
  {
    if steps == [] then []
    else (if steps[0].ReceiveStep? then texts[0] + [steps[0].delimiter] else []) + Incoming(steps[1..], texts[1..])
  }

  predicate AllMatch(steps: seq<Step>, texts: seq<seq<byte>>)
    requires |texts| == |steps|
  {
    forall i :: 0 <= i < |steps| && steps[i].ReceiveStep? ==> steps[i].matches(Shown(texts[i], steps[i].delimiter))
  }

  lemma AllMatchFirst(steps: seq<Step>, texts: seq<seq<byte>>)
    requires |texts| == |steps| > 0
    ensures AllMatch(steps, texts)
            <==> (steps[0].ReceiveStep? ==> steps[0].matches(Shown(texts[0], steps[0].delimiter)))
                 && AllMatch(steps[1..], texts[1..])
  {
    if AllMatch(steps[1..], texts[1..]) {
      assert forall i :: 1 <= i < |steps| ==> steps[i] == steps[1..][i - 1] && texts[i] == texts[1..][i - 1];
    }
  }

  /** A receive step takes exactly one framed text, and judges what it shows of it... */
  lemma ReceiveFramed(step: Step, text: seq<byte>, rest: seq<byte>)
    requires step.ReceiveStep? && step.delimiter !in text
    ensures StepOutcome(step, text + [step.delimiter] + rest)
            == Outcome(step.matches(Shown(text, step.delimiter)), rest)
  {
    CutFramed(text, step.delimiter, rest);
    TrimmedIsShown(text, step.delimiter);
  }

  /** ...and on a stream that ends before the delimiter it fails, having taken everything. */
  lemma ReceiveUnframed(step: Step, input: seq<byte>)
    requires step.ReceiveStep? && step.delimiter !in input
    ensures StepOutcome(step, input) == Outcome(false, [])
  {
    CutUnframed(input, step.delimiter);
  }

  lemma IncomingFirst(steps: seq<Step>, texts: seq<seq<byte>>, rest: seq<byte>)
    requires |texts| == |steps| > 0
    ensures var tail := Incoming(steps[1..], texts[1..]) + rest;
            Incoming(steps, texts) + rest
            == if steps[0].ReceiveStep? then texts[0] + [steps[0].delimiter] + tail else tail
  {
    var tail := Incoming(steps[1..], texts[1..]);
    if steps[0].ReceiveStep? {
      var first := texts[0] + [steps[0].delimiter];
      assert (first + tail) + rest == first + (tail + rest);
    } else {
      assert [] + tail == tail;
    }
  }

  /** Fed one framed text per receive step, a script succeeds exactly when every regular
      expression matches its text, and then leaves exactly the bytes that follow. */
  lemma {:induction false} PlayFramed(steps: seq<Step>, texts: seq<seq<byte>>, rest: seq<byte>)
    requires Frameable(steps, texts)
    ensures Play(steps, Incoming(steps, texts) + rest).ok <==> AllMatch(steps, texts)
    ensures AllMatch(steps, texts) ==> Play(steps, Incoming(steps, texts) + rest).rest == rest
    decreases |steps|
  {
    if steps == [] {
      assert Incoming(steps, texts) + rest == rest;
    } else {
      var s, tail := steps[0], Incoming(steps[1..], texts[1..]) + rest;
      AllMatchFirst(steps, texts);
      PlayFramed(steps[1..], texts[1..], rest);
      IncomingFirst(steps, texts, rest);
      if s.ReceiveStep? {
        ReceiveFramed(s, texts[0], tail);
      }
    }
  }

  /** The texts that a successful script has received, and what follows them. */
  lemma {:induction false} PlayedTexts(steps: seq<Step>, input: seq<byte>) returns (texts: seq<seq<byte>>, rest: seq<byte>)
    requires Play(steps, input).ok
    ensures Frameable(steps, texts) && AllMatch(steps, texts) && input == Incoming(steps, texts) + rest
    decreases |steps|
  {
    if steps == [] {
      texts, rest := [], input;
    } else {
      var o := StepOutcome(steps[0], input);
      var text := [];
      if steps[0].ReceiveStep? {
        text := FirstText(steps[0], input);
      }
      texts, rest := PlayedTexts(steps[1..], o.rest);
      texts := [text] + texts;
      AllMatchFirst(steps, texts);
      IncomingFirst(steps, texts, rest);
    }
  }

  /** The text that a successful receive step has taken. */
  lemma FirstText(step: Step, input: seq<byte>) returns (text: seq<byte>)
    requires step.ReceiveStep? && StepOutcome(step, input).ok
    ensures step.delimiter !in text && step.matches(Shown(text, step.delimiter))
    ensures input == text + [step.delimiter] + StepOutcome(step, input).rest
  {
    text := CutText(input, step.delimiter);
    TrimmedIsShown(text, step.delimiter);
  }

  /** For every script and every stream: the script succeeds if and only if the stream starts with
      one delimited text per receive step, each of which its regular expression matches. */
  lemma PlaysIff(steps: seq<Step>, input: seq<byte>)
    ensures Play(steps, input).ok <==>
            exists texts, rest ::
              Frameable(steps, texts) && AllMatch(steps, texts) && input == Incoming(steps, texts) + rest
  {
    if Play(steps, input).ok {
      var texts, rest := PlayedTexts(steps, input);
    }
    if texts, rest :|
      Frameable(steps, texts) && AllMatch(steps, texts) && input == Incoming(steps, texts) + rest
    {
      PlayFramed(steps, texts, rest);
    }
  }

  /** One more step of a script. */
  lemma {:induction false} PlayNext(steps: seq<Step>, step: Step, input: seq<byte>)
    ensures Play(steps + [step], input)
            == if Play(steps, input).ok then StepOutcome(step, Play(steps, input).rest) else Play(steps, input)
    decreases |steps|
  {
    if steps == [] {
      assert (steps + [step])[1..] == [];
    } else {
      assert (steps + [step])[1..] == steps[1..] + [step];
      PlayNext(steps[1..], step, StepOutcome(steps[0], input).rest);
    }
  }

  /** The same, within a script. */
  lemma PlayAt(steps: seq<Step>, k: nat, input: seq<byte>)
    requires k < |steps|
    ensures Play(steps[..k + 1], input)
            == if Play(steps[..k], input).ok then StepOutcome(steps[k], Play(steps[..k], input).rest)
               else Play(steps[..k], input)
  {
    assert steps[..k + 1] == steps[..k] + [steps[k]];
    PlayNext(steps[..k], steps[k], input);
  }

  /** A script that fails stops at a receive step, with everything before it successful, and leaves
      what that step leaves. */
  lemma {:induction false} FailsAtFirst(steps: seq<Step>, input: seq<byte>) returns (k: nat)
    requires !Play(steps, input).ok
    ensures k < |steps| && steps[k].ReceiveStep? && Play(steps[..k], input).ok
    ensures Play(steps, input) == StepOutcome(steps[k], Play(steps[..k], input).rest)
    decreases |steps|
  {
    var before := steps[..|steps| - 1];
    assert steps == before + [steps[|steps| - 1]];
    PlayNext(before, steps[|steps| - 1], input);
    if Play(before, input).ok {
      k := |steps| - 1;
    } else {
      k := FailsAtFirst(before, input);
      assert steps[..k] == before[..k];
    }
  }
}

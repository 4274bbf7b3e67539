/**
 Go's bufio over a connection: a reader that is filled in whatever chunks the network
 delivers, and a writer whose first error sticks.
 */
module BufferedIo {
  import opened Framing

  function Concat(chunks: seq<seq<byte>>): seq<byte> {
    if chunks == [] then [] else chunks[0] + Concat(chunks[1..])
  }

  /** A delimiter in the buffered part of a stream settles the cut. */
  lemma CutBuffered(buffered: seq<byte>, tail: seq<byte>, d: byte)
    requires d in buffered
    ensures Cut(buffered + tail, d) == Frame(Cut(buffered, d).line, Cut(buffered, d).rest + tail, true)
  {
    var k := Index(buffered, d);
    assert (buffered + tail)[..k] == buffered[..k];
    IndexUnique(buffered + tail, d, k);
    assert (buffered + tail)[..k + 1] == buffered[..k + 1];
    assert (buffered + tail)[k + 1..] == buffered[k + 1..] + tail;
  }

  /** Handing over the next k bytes of p after the first n. */
  lemma HandOver(handed: seq<byte>, p: seq<byte>, n: nat, k: nat)
    requires n + k <= |p|
    ensures (handed + p[..n]) + p[n..n + k] == handed + p[..n + k]
    ensures p[n..][..k] == p[n..n + k]
  {
    assert p[..n] + p[n..n + k] == p[..n + k];
  }

  /** bufio.Reader: bytes read ahead, and the chunks the connection will deliver before it ends
      or its deadline passes. */
  class Reader {
    var buffered: seq<byte>
    var chunks: seq<seq<byte>>

    constructor (chunks: seq<seq<byte>>)
      ensures buffered == [] && this.chunks == chunks
    {
      buffered, this.chunks := [], chunks;
    }

    /** All bytes that are still to be delivered to the caller. */
    ghost function Unread(): seq<byte>
      reads this
    {
      buffered + Concat(chunks)
    }

    /** Read up to and including the first delimiter. However the bytes were split into
        chunks, the caller gets the frame of the whole stream, and nothing is lost. */
    method ReadString(delimiter: byte) returns (line: seq<byte>, ok: bool)
      modifies this
      ensures var f := Cut(old(Unread()), delimiter);
              line == f.line && Unread() == f.rest && ok == f.ok
    {
      while delimiter !in buffered && chunks != []
        invariant Unread() == old(Unread())
        decreases |chunks|
      {
        assert buffered + (chunks[0] + Concat(chunks[1..])) == (buffered + chunks[0]) + Concat(chunks[1..]);
        buffered, chunks := buffered + chunks[0], chunks[1..];
      }
      var f := Cut(buffered, delimiter);
      if f.ok {
        CutBuffered(buffered, Concat(chunks), delimiter);
      } else {
        assert buffered + Concat(chunks) == buffered;
      }
      line, ok, buffered := f.line, f.ok, f.rest;
    }
  }

  /** What the connection does with one Write: take all of it, take at most `limit` bytes (an error
      if that is fewer), or take all of it and still report an error. */
  datatype Acceptance = Whole | AtMost(limit: nat) | WholeWithError

  predicate Reliable(plan: seq<Acceptance>) {
    forall i :: 0 <= i < |plan| ==> plan[i].Whole?
  }

  /** bufio.Writer over a connection. `wire` is what the connection has accepted; `plan` is what
      it will do with the coming writes, all of which succeed when the plan is used up. The writer
      has failed if and only if the connection has reported an error. */
  class Writer {
    const size: nat
    var buffer: seq<byte>
    var failed: bool
    var wire: seq<byte>
    var plan: seq<Acceptance>
    /** Has the connection reported an error? */
    ghost var reported: bool

    ghost predicate Valid()
      reads this
    {
      0 < size && |buffer| <= size && (failed <==> reported)
    }

    constructor (size: nat, plan: seq<Acceptance>)
      requires size > 0
      ensures Valid() && buffer == [] && wire == [] && !failed && this.plan == plan
    {
      this.size, buffer, failed, wire, this.plan, reported := size, [], false, [], plan, false;
    }

    /** Everything handed over so far, on the wire or still in the buffer. */
    ghost function Handed(): seq<byte>
      reads this
    {
      wire + buffer
    }

    /** One Write on the connection, as planned. */
    method ConnectionWrite(p: seq<byte>) returns (n: nat, err: bool)
      modifies this`wire, this`plan, this`reported
      ensures n <= |p| && wire == old(wire) + p[..n]
      ensures !err ==> n == |p|
      ensures reported <==> old(reported) || err
      ensures plan == if old(plan) == [] then [] else old(plan)[1..]
      ensures old(plan) == [] || old(plan)[0].Whole? ==> n == |p| && !err
      ensures old(plan) != [] && old(plan)[0].WholeWithError? ==> n == |p| && err
      ensures old(plan) != [] && old(plan)[0].AtMost? ==>
                (n == old(plan)[0].limit < |p| && err) || (n == |p| <= old(plan)[0].limit && !err)
    {
      n, err := |p|, false;
      if plan != [] {
        match plan[0] {
          case Whole =>
          case AtMost(limit) =>
            if limit < |p| { n, err := limit, true; }
          case WholeWithError =>
            err := true;
        }
        plan := plan[1..];
      }
      wire := wire + p[..n];
      reported := reported || err;
    }

    /** Flush succeeds exactly when no error has ever occurred; the bytes handed over stay the
        same, and after success all of them are on the wire. */
    method Flush() returns (ok: bool)
      requires Valid()
      modifies this`buffer, this`failed, this`wire, this`plan, this`reported
      ensures Valid() && Handed() == old(Handed()) && |old(wire)| <= |wire|
      ensures ok <==> !failed
      ensures ok ==> buffer == []
      ensures old(failed) ==> failed
      ensures Reliable(old(plan)) ==> Reliable(plan) && failed == old(failed)
      ensures |buffer| <= |old(buffer)|
    {
      if failed { return false; }
      if buffer == [] { return true; }
      var n, err := ConnectionWrite(buffer);
      assert buffer[..n] + buffer[n..] == buffer;
      buffer := buffer[n..];
      failed := err;
      ok := !err;
    }

    /** One round of Write's loop: bypass an empty buffer, or top the buffer up and flush it. */
    method Spill(p: seq<byte>) returns (n: nat)
      requires Valid() && !failed && |p| > size - |buffer|
      modifies this`buffer, this`failed, this`wire, this`plan, this`reported
      ensures Valid() && n <= |p|
      ensures Handed() == old(Handed()) + p[..n] && |old(wire)| <= |wire|
      ensures !failed ==> buffer == [] && (n > 0 || old(buffer) != [])
      ensures Reliable(old(plan)) ==> Reliable(plan) && !failed
    {
      if buffer == [] {
        var err;
        n, err := ConnectionWrite(p);
        failed := err;
      } else {
        n := size - |buffer|;
        assert wire + (buffer + p[..n]) == (wire + buffer) + p[..n];
        buffer := buffer + p[..n];
        var _ := Flush();
      }
    }

    /** Hand over `p`, as far as the connection lets us; a shorter count means a sticky error. */
    method Write(p: seq<byte>) returns (n: nat)
      requires Valid()
      modifies this`buffer, this`failed, this`wire, this`plan, this`reported
      ensures Valid() && n <= |p|
      ensures Handed() == old(Handed()) + p[..n] && |old(wire)| <= |wire|
      ensures !failed ==> n == |p|
      ensures old(failed) ==> failed && n == 0
      ensures Reliable(old(plan)) ==> Reliable(plan) && failed == old(failed)
    {
      n := 0;
      while |p| - n > size - |buffer| && !failed
        invariant Valid() && n <= |p|
        invariant Handed() == old(Handed()) + p[..n] && |old(wire)| <= |wire|
        invariant old(failed) ==> failed && n == 0
        invariant Reliable(old(plan)) ==> Reliable(plan) && failed == old(failed)
        decreases !failed, |p| - n, |buffer|
      {
        var k := Spill(p[n..]);
        HandOver(old(Handed()), p, n, k);
        n := n + k;
      }
      if !failed {
        HandOver(old(Handed()), p, n, |p| - n);
        assert wire + (buffer + p[n..]) == (wire + buffer) + p[n..];
        buffer := buffer + p[n..];
        n := |p|;
      }
    }
  }
}

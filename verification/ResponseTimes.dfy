/**
 The shared response-time map: probes write to it, collector callbacks read and clear
 it, all under one mutex.  A history lists the critical sections in lock order.
 */
module ResponseTimes {
  import opened Wrappers

  /** A critical section: PostMeasurable storing a response time (in nanoseconds), or the gauge
      callback of the metric of that name. */
  datatype Section = Store(name: string, nanoseconds: nat) | Collect(name: string)

  /** Does the section touch the entry of this name?  A callback without a metric name returns
      an error before it takes the lock. */
  predicate Touches(s: Section, name: string) {
    s.name == name && !(s.Collect? && name == "")
  }

  /** The section that stored the entry now waiting to be collected, or -1. */
  function Waiting(h: seq<Section>, name: string): (w: int)
    ensures -1 <= w < |h|
    ensures w >= 0 ==> h[w].Store? && Touches(h[w], name)
  {
    if h == [] then -1
    else
      var last := h[|h| - 1];
      if !Touches(last, name) then Waiting(h[..|h| - 1], name)
      else if last.Store? then |h| - 1
      else -1
  }

  /** The observations made so far of a name: which section stored the value, and which collected it. */
  function Observed(h: seq<Section>, name: string): seq<(nat, nat)> {
    if h == [] then []
    else
      var before := h[..|h| - 1];
      var last := h[|h| - 1];
      if Touches(last, name) && last.Collect? && Waiting(before, name) >= 0
      then Observed(before, name) + [(Waiting(before, name) as nat, |h| - 1)]
      else Observed(before, name)
  }

  /** No section strictly between w and c touches the name. */
  predicate Undisturbed(h: seq<Section>, name: string, w: nat, c: nat)
    requires c <= |h|
  {
    forall k :: w < k < c ==> !Touches(h[k], name)
  }

  /** The waiting entry is the newest one stored, and nobody has collected since. */
  lemma {:induction false} WaitingIff(h: seq<Section>, name: string, w: nat)
    requires w < |h|
    ensures Waiting(h, name) == w <==> h[w].Store? && Touches(h[w], name) && Undisturbed(h, name, w, |h|)
    decreases |h|
  {
    var before, last := h[..|h| - 1], h[|h| - 1];
    if w == |h| - 1 {
    } else {
      WaitingIff(before, name, w);
      if Undisturbed(h, name, w, |h|) {
        assert !Touches(h[|h| - 1], name);
      }
    }
  }

  /** A value is observed exactly when it is collected with nothing stored or collected under
      its name in between: every observation shows the newest value since the previous one. */
  lemma {:induction false} ObservedIff(h: seq<Section>, name: string, w: nat, c: nat)
    requires w < c < |h|
    ensures (w, c) in Observed(h, name)
            <==> h[w].Store? && Touches(h[w], name) && h[c].Collect? && Touches(h[c], name) && Undisturbed(h, name, w, c)
    decreases |h|
  {
    var before := h[..|h| - 1];
    ObservedBefore(before, name);
    if c == |h| - 1 {
      WaitingIff(before, name, w);
    } else {
      ObservedIff(before, name, w, c);
    }
  }

  /** Observations are in lock order, and no stored value is observed twice: each is stored after
      the previous one was collected. */
  lemma {:induction false} ObservedBefore(h: seq<Section>, name: string)
    ensures forall i :: 0 <= i < |Observed(h, name)| ==> Observed(h, name)[i].0 < Observed(h, name)[i].1 < |h|
    ensures forall i :: 0 <= i < |Observed(h, name)| - 1 ==> Observed(h, name)[i].1 < Observed(h, name)[i + 1].0
    ensures Observed(h, name) != [] && Waiting(h, name) >= 0 ==>
              Observed(h, name)[|Observed(h, name)| - 1].1 < Waiting(h, name)
    decreases |h|
  {
    if h == [] {
    } else {
      ObservedBefore(h[..|h| - 1], name);
    }
  }

  /** The newest section of a name. */
  predicate Newest(h: seq<Section>, name: string, w: nat) {
    w < |h| && h[w].name == name && forall k :: w < k < |h| ==> h[k].name != name
  }

  /** Under a name, a value waits if and only if the newest section of that name stored it. */
  lemma WaitingNamed(h: seq<Section>, name: string, w: nat)
    requires name != ""
    ensures Waiting(h, name) == w <==> Newest(h, name, w) && h[w].Store?
  {
    if w < |h| {
      WaitingIff(h, name, w);
    }
  }

  /** The value of the newest section of a name, if that stored one. */
  ghost predicate NewestIs(h: seq<Section>, name: string, nanoseconds: nat) {
    exists w: nat :: Newest(h, name, w) && h[w] == Store(name, nanoseconds)
  }

  lemma WaitingValue(h: seq<Section>, name: string, nanoseconds: nat)
    requires name != ""
    ensures NewestIs(h, name, nanoseconds) <==> Waiting(h, name) >= 0 && h[Waiting(h, name)].nanoseconds == nanoseconds
  {
    if w: nat :| Newest(h, name, w) && h[w] == Store(name, nanoseconds) {
      WaitingNamed(h, name, w);
    }
    if Waiting(h, name) >= 0 {
      WaitingNamed(h, name, Waiting(h, name));
    }
  }

  /** Under a name, a value is observed if and only if it was stored, was collected later, and nothing
      was stored or collected under that name in between. */
  lemma ObservedNamed(h: seq<Section>, name: string, w: nat, c: nat)
    requires name != "" && w < c < |h|
    ensures (w, c) in Observed(h, name) <==>
            && h[w].Store? && h[w].name == name && h[c] == Collect(name)
            && forall k :: w < k < c ==> h[k].name != name
  {
    ObservedIff(h, name, w, c);
  }

  /** What is stored under the empty name is never observed. */
  lemma {:induction false} NamelessNeverObserved(h: seq<Section>)
    ensures Observed(h, "") == []
    decreases |h|
  {
    if h == [] {
    } else {
      NamelessNeverObserved(h[..|h| - 1]);
    }
  }

  /** common.ResponseTimes, guarded by its mutex; every method is one critical section. */
  class Mailbox {
    var times: map<string, Option<nat>>
    ghost var history: seq<Section>

    ghost predicate Valid()
      reads this
    {
      forall name :: Entry(name) == (
        var w := Waiting(history, name);
        if w < 0 then None else Some(history[w].nanoseconds))
    }

    /** The map's value for a name: a missing key reads as nil. */
    function Entry(name: string): Option<nat>
      reads this
    {
      if name in times then times[name] else None
    }

    constructor ()
      ensures Valid() && history == []
    {
      times, history := map[], [];
    }

    /** PostMeasurable's critical section. */
    method Record(name: string, nanoseconds: nat)
      requires Valid()
      modifies this
      ensures Valid() && history == old(history) + [Store(name, nanoseconds)]
    {
      times := times[name := Some(nanoseconds)];
      history := history + [Store(name, nanoseconds)];
      assert history[..|history| - 1] == old(history);
    }

    /** The gauge callback: observe the waiting value, in milliseconds, and clear it. */
    method Observe(name: string) returns (milliseconds: Option<nat>)
      requires Valid()
      modifies this
      ensures Valid() && history == old(history) + [Collect(name)]
      ensures milliseconds.Some? <==> name != "" && exists ns: nat :: NewestIs(old(history), name, ns)
      ensures forall ns: nat :: name != "" && NewestIs(old(history), name, ns) ==> milliseconds == Some(ns / 1_000_000)
      ensures milliseconds.Some? <==> |Observed(history, name)| == |Observed(old(history), name)| + 1
      ensures milliseconds.Some? ==>
                var w := Observed(history, name)[|Observed(history, name)| - 1].0;
                w < |history| && history[w].Store? && milliseconds.value == history[w].nanoseconds / 1_000_000
    {
      history := history + [Collect(name)];
      assert history[..|history| - 1] == old(history);
      milliseconds := None;
      if name == "" { return; }
      forall ns: nat
        ensures NewestIs(old(history), name, ns) <==> Entry(name) == Some(ns)
      {
        WaitingValue(old(history), name, ns);
      }
      var responseTime := Entry(name);
      if responseTime.Some? {
        milliseconds := Some(responseTime.value / 1_000_000);
        times := times[name := None];
      }
    }
  }
}

/**
 Bee's timeWaster: a recursion that splits a time budget at random between two children
 and a sleep.  Time is in nanoseconds on a clock that only sleeping advances.
 */
module TimeWaster {
  const MILLISECOND := 1_000_000

  class Clock {
    var now: int

    constructor (now: int)
      ensures this.now == now
    {
      this.now := now;
    }

    /** time.Sleep returns at once for a duration that is not positive. */
    method Sleep(duration: int)
      modifies this
      ensures now == old(now) + (if duration > 0 then duration else 0)
    {
      if duration > 0 { now := now + duration; }
    }
  }

  /** Duration.Milliseconds: integer division that truncates toward zero. */
  function Milliseconds(nanoseconds: int): (ms: int)
    ensures nanoseconds >= 0 ==> ms >= 0 && ms * MILLISECOND <= nanoseconds < (ms + 1) * MILLISECOND
    ensures nanoseconds <= 0 ==> ms <= 0
  {
    if nanoseconds >= 0 then nanoseconds / MILLISECOND else -(-nanoseconds / MILLISECOND)
  }

  /** The three delays before shuffling, for the two draws from [0, available). */
  function Delays(available: int, draw0: int, draw1: int): (d: seq<int>)
    requires 0 <= draw0 < available && 0 <= draw1 < available
    ensures |d| == 3 && d[0] + d[1] + d[2] == available
    ensures d[0] >= 0 && d[1] >= 0 && 5 * d[2] >= available
    ensures 5 * d[0] <= 2 * draw0 < 5 * (d[0] + 1) && 5 * d[1] <= 2 * draw1 < 5 * (d[1] + 1)
  {
    var d0, d1 := draw0 * 40 / 100, draw1 * 40 / 100;
    [d0, d1, available - d0 - d1]
  }

  /** A child can inherit the whole budget, so the budget does not bound the recursion. */
  lemma WholeBudgetInherited(available: int)
    requires available > 0
    ensures Delays(available, 0, 0) == [0, 0, available]
  {
  }

  /** The delays are not negative and use up the budget. */
  ghost predicate Split(delays: array<int>, available: int)
    reads delays
  {
    && delays.Length == 3
    && delays[0] >= 0 && delays[1] >= 0 && delays[2] >= 0
    && delays[0] + delays[1] + delays[2] == available
  }

  function Swapped(d: seq<int>, i: nat, j: nat): seq<int>
    requires i < |d| && j < |d|
  {
    d[i := d[j]][j := d[i]]
  }

  /** The order that rand.Shuffle leaves three delays in: it swaps the last with any, and then the
      middle one with either of the first two. */
  function Shuffled(d: seq<int>, draw2: nat, draw1: nat): seq<int>
    requires |d| == 3 && draw2 <= 2 && draw1 <= 1
  {
    Swapped(Swapped(d, 2, draw2), 1, draw1)
  }

  /** Every order of the delays can be drawn. */
  lemma EveryOrderDrawn(d: seq<int>, i: nat, j: nat, k: nat) returns (draw2: nat, draw1: nat)
    requires |d| == 3 && i < 3 && j < 3 && k < 3 && i != j && j != k && i != k
    ensures draw2 <= 2 && draw1 <= 1 && Shuffled(d, draw2, draw1) == [d[i], d[j], d[k]]
  {
    draw2, draw1 := k, if j == 2 then k else j;
  }

  method Swap(delays: array<int>, i: nat, j: nat, ghost available: int)
    requires Split(delays, available) && i < 3 && j < 3
    modifies delays
    ensures Split(delays, available)
    ensures delays[..] == Swapped(old(delays[..]), i, j)
    ensures multiset(delays[..]) == multiset(old(delays[..]))
  {
    delays[i], delays[j] := delays[j], delays[i];
  }

  /** rand.Shuffle on the three delays, for what it draws: always a permutation. */
  method Shuffle(delays: array<int>, draw2: nat, draw1: nat, ghost available: int)
    requires Split(delays, available) && draw2 <= 2 && draw1 <= 1
    modifies delays
    ensures Split(delays, available)
    ensures delays[..] == Shuffled(old(delays[..]), draw2, draw1)
    ensures multiset(delays[..]) == multiset(old(delays[..]))
  {
    Swap(delays, 2, draw2, available);
    Swap(delays, 1, draw1, available);
  }

  /** The delays of one call: two draws, the rest, and a shuffle. */
  method DrawDelays(available: int) returns (first: int, second: int, third: int)
    requires available > 0
    ensures first >= 0 && second >= 0 && third >= 0
    ensures first + second + third == available
  {
    var draw0 :| 0 <= draw0 < available;
    var draw1 :| 0 <= draw1 < available;
    var d := Delays(available, draw0, draw1);
    var delays := new int[3][d[0], d[1], d[2]];
    var draw2: nat :| draw2 <= 2;
    var draw3: nat :| draw3 <= 1;
    Shuffle(delays, draw2, draw3, available);
    return delays[0], delays[1], delays[2];
  }

  function Digit(i: nat): char
    requires i < 2
  {
    if i == 0 then '0' else '1'
  }

  const ROOT := "timeWaster"

  /** The names of calls: the root, and the root with a dash and the digits of the path below it. */
  predicate IsCallName(name: string) {
    || name == "timeWaster"
    || (|name| > 11 && "timeWaster-" <= name && forall k :: 11 <= k < |name| ==> name[k] in {'0', '1'})
  }

  function MakeChildName(parent: string, i: nat): (child: string)
    requires i < 2
    ensures parent < child && |parent| < |child| <= |parent| + 2
    ensures child[|child| - 1] == (if i == 0 then '0' else '1')
    ensures IsCallName(parent) ==> IsCallName(child)
  {
    if parent == ROOT then parent + "-" + [Digit(i)] else parent + [Digit(i)]
  }

  /** How many calls a call for a name of this length can lead to, itself included. */
  function MaxCalls(length: nat): nat
    decreases if length > 20 then 0 else 21 - length
  {
    if length > 20 then 1 else 1 + 2 * MaxCalls(length + 1)
  }

  function Bound(name: string): nat {
    if name == ROOT then 1 + 2 * MaxCalls(|name| + 2) else MaxCalls(|name|)
  }

  /** From the root name there are at most 2047 calls. */
  lemma RootBound()
    ensures Bound(ROOT) == 2047
  {
    assert |ROOT| == 10;
    assert MaxCalls(18) == 15;
    assert MaxCalls(15) == 127;
    assert MaxCalls(12) == 1023;
  }

  predicate Distinct(calls: seq<string>) {
    forall i, j :: 0 <= i < j < |calls| ==> calls[i] != calls[j]
  }

  predicate Below(calls: seq<string>, name: string) {
    forall i :: 0 <= i < |calls| ==> name <= calls[i]
  }

  /** The calls below two children, and the call itself, are all different. */
  lemma CallsDistinct(name: string, calls0: seq<string>, calls1: seq<string>)
    requires Distinct(calls0) && Below(calls0, MakeChildName(name, 0))
    requires Distinct(calls1) && Below(calls1, MakeChildName(name, 1))
    ensures Distinct([name] + calls0 + calls1) && Below([name] + calls0 + calls1, name)
  {
    var child0, child1 := MakeChildName(name, 0), MakeChildName(name, 1);
    var k := |child0| - 1;
    forall i, j | 0 <= i < |calls0| && 0 <= j < |calls1| ensures calls0[i] != calls1[j] {
      assert calls0[i][k] == '0' && calls1[j][k] == '1';
    }
    var all := [name] + calls0 + calls1;
    forall i | 0 <= i < |all| ensures name <= all[i] && (i > 0 ==> |all[i]| > |name|) {
      assert 0 < i <= |calls0| ==> all[i] == calls0[i - 1];
      assert |calls0| < i ==> all[i] == calls1[i - 1 - |calls0|];
    }
  }

  /** More than ten whole milliseconds are left from eleven on. */
  lemma EnoughTime(nanoseconds: int)
    ensures Milliseconds(nanoseconds) > 10 <==> nanoseconds >= 11_000_000
  {
  }

  /** The calls of two children and the call itself stay within its bound. */
  lemma BoundChildren(name: string)
    requires |name| <= 20
    ensures 1 + Bound(MakeChildName(name, 0)) + Bound(MakeChildName(name, 1)) <= Bound(name)
  {
  }

  predicate AllNamed(calls: seq<string>) {
    forall i :: 0 <= i < |calls| ==> IsCallName(calls[i])
  }

  /** They are the call itself and those below its children, with proper names if it has one. */
  lemma CallsNamed(name: string, calls0: seq<string>, calls1: seq<string>)
    requires MakeChildName(name, 0) in calls0 && MakeChildName(name, 1) in calls1
    requires IsCallName(name) ==> AllNamed(calls0) && AllNamed(calls1)
    ensures var all := [name] + calls0 + calls1;
            && name in all && MakeChildName(name, 0) in all && MakeChildName(name, 1) in all
            && (IsCallName(name) ==> AllNamed(all))
  {
    assert ([name] + calls0 + calls1)[0] == name;
  }

  /** timeWaster, for every draw and every shuffle. With less than 11 milliseconds left, or a name of
      more than 20 characters, it returns at once. Otherwise both its children are called and it
      returns exactly at its deadline. It terminates because names grow, and the names of all calls
      below it differ. */
  method Waste(clock: Clock, timeToStop: int, name: string) returns (calls: seq<string>)
    modifies clock
    ensures timeToStop - old(clock.now) < 11_000_000 || |name| > 20 ==> clock.now == old(clock.now) && calls == [name]
    ensures timeToStop - old(clock.now) >= 11_000_000 && |name| <= 20 ==>
              clock.now == timeToStop && MakeChildName(name, 0) in calls && MakeChildName(name, 1) in calls
    ensures Distinct(calls) && Below(calls, name) && |calls| <= Bound(name) && name in calls
    ensures IsCallName(name) ==> AllNamed(calls)
    decreases if |name| > 20 then 0 else 21 - |name|
  {
    var available := Milliseconds(timeToStop - clock.now);
    EnoughTime(timeToStop - clock.now);
    if available <= 10 || |name| > 20 {
      return [name];
    }
    var first, second, third := DrawDelays(available);
    ghost var start := clock.now;
    var calls0 := Waste(clock, clock.now + first * MILLISECOND, MakeChildName(name, 0));
    clock.Sleep(second * MILLISECOND);
    assert clock.now <= start + (first + second) * MILLISECOND;
    var calls1 := Waste(clock, clock.now + third * MILLISECOND, MakeChildName(name, 1));
    assert clock.now <= start + available * MILLISECOND <= timeToStop;
    clock.Sleep(timeToStop - clock.now);
    CallsDistinct(name, calls0, calls1);
    CallsNamed(name, calls0, calls1);
    BoundChildren(name);
    calls := [name] + calls0 + calls1;
  }
}

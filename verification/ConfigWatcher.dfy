/**
 GoConfig's watcher loop: on every file event the file is hashed, and when the hash
 differs from the last one the file is read again and its config broadcast.
 */
module ConfigWatcher {
  /** What a read of the config file yields; a missing or unreadable file yields no bytes, and
      both an absent and an empty file mean the default config. */
  type Content = seq<int>

  /** One watcher event, of whatever kind, with the two reads its handling makes: one to hash
      and, if the hash has changed, one to parse. */
  datatype Event = Event(hashed: Content, parsed: Content)

  /** A hash that tells contents apart and is never the empty string. */
  ghost predicate Injective(hash: Content -> string) {
    && (forall c: Content :: hash(c) != "")
    && (forall c: Content, d: Content :: hash(c) == hash(d) ==> c == d)
  }

  /** The hash remembered after handling the events. */
  function LastHash(hash: Content -> string, events: seq<Event>): string {
    if events == [] then "" else hash(events[|events| - 1].hashed)
  }

  /** The contents broadcast while handling the events. */
  function Broadcasts(hash: Content -> string, events: seq<Event>): seq<Content> {
    if events == [] then []
    else
      var before, last := events[..|events| - 1], events[|events| - 1];
      Broadcasts(hash, before) + if hash(last.hashed) != LastHash(hash, before) then [last.parsed] else []
  }

  /** Everything that is broadcast: version k of the config is the k-th of these. */
  function Versions(hash: Content -> string, initial: Content, events: seq<Event>): seq<Content> {
    [initial] + Broadcasts(hash, events)
  }

  /** Handling one more event. */
  lemma BroadcastsNext(hash: Content -> string, initial: Content, events: seq<Event>, e: Event)
    ensures LastHash(hash, events + [e]) == hash(e.hashed)
    ensures Versions(hash, initial, events + [e])
            == Versions(hash, initial, events) + if hash(e.hashed) != LastHash(hash, events) then [e.parsed] else []
  {
    assert (events + [e])[..|events|] == events;
  }

  class Watcher {
    const hash: Content -> string
    const initial: Content
    var configFileHash: string
    var config: Content
    var sent: seq<Content>
    ghost var handled: seq<Event>

    ghost predicate Valid()
      reads this
    {
      && configFileHash == LastHash(hash, handled)
      && sent == Versions(hash, initial, handled)
      && config == sent[|sent| - 1]
    }

    /** The initial read and broadcast; no hash is remembered for it. */
    constructor (hash: Content -> string, initial: Content)
      ensures Valid() && handled == [] && this.hash == hash && this.initial == initial
    {
      this.hash, this.initial := hash, initial;
      configFileHash, config, sent, handled := "", initial, [initial], [];
    }

    method Handle(event: Event)
      requires Valid()
      modifies this
      ensures Valid() && handled == old(handled) + [event]
    {
      BroadcastsNext(hash, initial, handled, event);
      var newHash := hash(event.hashed);
      if newHash != configFileHash {
        config := event.parsed;
        configFileHash := newHash;
        sent := sent + [config];
      }
      handled := handled + [event];
    }

    /** The watcher loop, over any sequence of events. */
    method Watch(events: seq<Event>)
      requires Valid() && handled == []
      modifies this
      ensures sent == Versions(hash, initial, events)
    {
      for i := 0 to |events|
        invariant Valid() && handled == events[..i]
      {
        Handle(events[i]);
      }
      assert events[..|events|] == events;
    }
  }

  // ---------- what is broadcast ----------

  /** Both reads of every event saw the same content. */
  predicate ReadsAgree(events: seq<Event>) {
    forall i :: 0 <= i < |events| ==> events[i].hashed == events[i].parsed
  }

  function Observed(events: seq<Event>): (cs: seq<Content>)
    ensures |cs| == |events| && forall i :: 0 <= i < |cs| ==> cs[i] == events[i].hashed
  {
    seq(|events|, i requires 0 <= i < |events| => events[i].hashed)
  }

  /** Remove consecutive repeats, keeping the first of each. */
  function Distinct(cs: seq<Content>): seq<Content> {
    if |cs| <= 1 then cs
    else if cs[0] == cs[1] then Distinct(cs[1..])
    else [cs[0]] + Distinct(cs[1..])
  }

  lemma {:induction false} DistinctLast(cs: seq<Content>, c: Content)
    ensures Distinct(cs + [c]) == Distinct(cs) + if cs != [] && cs[|cs| - 1] == c then [] else [c]
    ensures cs != [] ==> Distinct(cs) != [] && Distinct(cs)[|Distinct(cs)| - 1] == cs[|cs| - 1]
    decreases |cs|
  {
    if cs == [] {
    } else if |cs| == 1 {
      assert (cs + [c])[1..] == [c];
    } else {
      DistinctLast(cs[1..], c);
      assert (cs + [c])[1..] == cs[1..] + [c];
    }
  }

  /** The broadcasts after the initial one are the contents observed, with consecutive repeats
      removed: the first event always broadcasts, and a deletion or a revert is a change like
      any other. */
  lemma {:induction false} BroadcastsAreDistinct(hash: Content -> string, events: seq<Event>)
    requires Injective(hash) && ReadsAgree(events)
    ensures Broadcasts(hash, events) == Distinct(Observed(events))
    decreases |events|
  {
    if events == [] {
      assert Observed(events) == [];
    } else {
      var before, last := events[..|events| - 1], events[|events| - 1];
      BroadcastsAreDistinct(hash, before);
      assert Observed(events) == Observed(before) + [last.hashed];
      DistinctLast(Observed(before), last.hashed);
    }
  }

  /** Handling a deletion: both reads find no file. */
  const DELETION := Event([], [])

  /** A deletion broadcasts nothing if and only if the event before it already found no bytes; and
      the config in force stays what it was if and only if that, or it was the default already. */
  lemma DeletionKeepsIff(hash: Content -> string, initial: Content, events: seq<Event>)
    requires Injective(hash)
    ensures Broadcasts(hash, events + [DELETION]) == Broadcasts(hash, events)
            <==> events != [] && events[|events| - 1].hashed == []
    ensures var before, after := Versions(hash, initial, events), Versions(hash, initial, events + [DELETION]);
            after[|after| - 1] == before[|before| - 1]
            <==> (events != [] && events[|events| - 1].hashed == []) || before[|before| - 1] == []
  {
    assert (events + [DELETION])[..|events|] == events;
  }

  /** So the old config is not kept: the first event after start-up, if a deletion, broadcasts the
      default config, whatever the file held. */
  lemma DeletionBroadcastsDefault(hash: Content -> string, initial: Content)
    requires Injective(hash) && initial != []
    ensures Versions(hash, initial, [DELETION]) == [initial, []]
  {
    BroadcastsNext(hash, initial, [], DELETION);
    assert [] + [DELETION] == [DELETION];
  }

  /** The event that caused the latest broadcast. */
  function LastChange(hash: Content -> string, events: seq<Event>): (k: nat)
    requires events != [] && hash(events[0].hashed) != ""
    ensures k < |events|
    decreases |events|
  {
    var before := events[..|events| - 1];
    if before == [] || hash(events[|events| - 1].hashed) != LastHash(hash, before) then |events| - 1
    else LastChange(hash, before)
  }

  lemma {:induction false} LastBroadcast(hash: Content -> string, events: seq<Event>)
    requires Injective(hash) && events != []
    ensures var k := LastChange(hash, events);
            && Broadcasts(hash, events) != []
            && Broadcasts(hash, events)[|Broadcasts(hash, events)| - 1] == events[k].parsed
            && events[k].hashed == events[|events| - 1].hashed
    decreases |events|
  {
    var before := events[..|events| - 1];
    if LastChange(hash, events) == |events| - 1 {
    } else {
      LastBroadcast(hash, before);
    }
  }

  /** After any events, the config in force is the content last observed if and only if the two
      reads of the event that last changed it saw the same content. */
  lemma {:induction false} UpToDateIff(hash: Content -> string, events: seq<Event>)
    requires Injective(hash) && events != []
    ensures var sent := Broadcasts(hash, events);
            var k := LastChange(hash, events);
            && sent != []
            && (sent[|sent| - 1] == events[|events| - 1].hashed <==> events[k].parsed == events[k].hashed)
  {
    LastBroadcast(hash, events);
  }

  /** The race is real: written between the two reads and then put back, a content stays in
      force although the file no longer holds it, and no later event repairs that. */
  lemma {:induction false} StaleForever(hash: Content -> string, a: Content, b: Content, later: nat)
    requires Injective(hash) && a != b
    ensures var events := [Event(a, b)] + seq(later, _ => Event(a, a));
            Broadcasts(hash, events) == [b]
    decreases later
  {
    var events := [Event(a, b)] + seq(later, _ => Event(a, a));
    if later == 0 {
      assert events == [Event(a, b)];
      assert events[..0] == [];
    } else {
      StaleForever(hash, a, b, later - 1);
      assert events[..|events| - 1] == [Event(a, b)] + seq(later - 1, _ => Event(a, a));
      assert events[|events| - 1] == Event(a, a);
    }
  }
}

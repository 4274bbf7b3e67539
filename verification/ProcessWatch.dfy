/**
 The watched process: GoSignals forwards an OS signal only after a scan of the process
 list in which no command line matches the configured regular expression.
 */
module ProcessWatch {
  import opened Wrappers

  /** A compiled regular expression, known only by what it finds. */
  type Regex = string -> bool

  /** One read of the process list: unreadable, or a command line per process (which itself may be
      unreadable and is then matched as the empty string). */
  datatype Scan = Unreadable | Processes(commandLines: seq<Option<string>>)

  function CommandLine(c: Option<string>): string {
    if c.Some? then c.value else ""
  }

  predicate Matches(regex: Regex, scan: Scan) {
    scan.Processes? && exists i :: 0 <= i < |scan.commandLines| && regex(CommandLine(scan.commandLines[i]))
  }

  /** The watch left by a sequence of configs: each one that names an expression replaces it (an
      invalid one by none), and one that names none leaves it. */
  function WatchAfter(compile: string -> Option<Regex>, configs: seq<Option<string>>): Option<Regex> {
    if configs == [] then None
    else
      var last := configs[|configs| - 1];
      if last.Some? then compile(last.value) else WatchAfter(compile, configs[..|configs| - 1])
  }

  /** It is the last expression that any config named, so omitting it does not stop the watch. */
  lemma {:induction false} WatchIsLastNamed(compile: string -> Option<Regex>, configs: seq<Option<string>>, k: nat)
    requires k < |configs| && configs[k].Some?
    requires forall j :: k < j < |configs| ==> configs[j].None?
    ensures WatchAfter(compile, configs) == compile(configs[k].value)
    decreases |configs|
  {
    if k == |configs| - 1 {
    } else {
      WatchIsLastNamed(compile, configs[..|configs| - 1], k);
    }
  }

  /** Exactly then is nothing watched: no config has named an expression, or the last one that was
      named does not compile. */
  lemma {:induction false} NothingWatchedIff(compile: string -> Option<Regex>, configs: seq<Option<string>>)
    ensures WatchAfter(compile, configs).None? <==>
            || (forall k :: 0 <= k < |configs| ==> configs[k].None?)
            || exists k ::
                 && 0 <= k < |configs| && configs[k].Some? && compile(configs[k].value).None?
                 && forall j :: k < j < |configs| ==> configs[j].None?
    decreases |configs|
  {
    if configs == [] {
    } else if configs[|configs| - 1].None? {
      NothingWatchedIff(compile, configs[..|configs| - 1]);
    }
  }

  /** Every scan so far has found the process. */
  predicate StillWaiting(regex: Option<Regex>, scans: seq<Scan>) {
    regex.Some? && forall k :: 0 <= k < |scans| ==> Matches(regex.value, scans[k])
  }

  /** The scans end with the first one that finds no match; with nothing watched, none is made. */
  predicate Passed(regex: Option<Regex>, scans: seq<Scan>) {
    if regex.None? then scans == []
    else
      && scans != [] && StillWaiting(regex, scans[..|scans| - 1])
      && !Matches(regex.value, scans[|scans| - 1])
  }

  /** What it takes to pass. */
  lemma PassedIff(regex: Option<Regex>, scans: seq<Scan>)
    ensures Passed(regex, scans) <==>
            if regex.None? then scans == []
            else
              && scans != [] && !Matches(regex.value, scans[|scans| - 1])
              && forall k :: 0 <= k < |scans| - 1 ==> Matches(regex.value, scans[k])
  {
    if scans != [] {
      assert forall k :: 0 <= k < |scans| - 1 ==> scans[..|scans| - 1][k] == scans[k];
    }
  }

  /** While waiting, the first scan that finds no match lets the signal pass. */
  lemma ScanPasses(regex: Option<Regex>, scans: seq<Scan>, scan: Scan)
    requires StillWaiting(regex, scans)
    ensures Passed(regex, scans + [scan]) <==> !Matches(regex.value, scan)
  {
    assert (scans + [scan])[..|scans|] == scans;
  }

  class Signals {
    const compile: string -> Option<Regex>
    var regex: Option<Regex>
    ghost var taken: seq<Option<string>>

    ghost predicate Valid()
      reads this
    {
      regex == WatchAfter(compile, taken)
    }

    constructor (compile: string -> Option<Regex>)
      ensures Valid() && taken == [] && this.compile == compile
    {
      this.compile, regex, taken := compile, None, [];
    }

    method UpdateConfig(watched: Option<string>)
      requires Valid()
      modifies this
      ensures Valid() && taken == old(taken) + [watched]
    {
      if watched.Some? {
        regex := compile(watched.value);
      }
      taken := taken + [watched];
      assert taken[..|taken| - 1] == old(taken);
    }

    /** waitForProcess, over the scans that the process list will give. It lets the signal pass
        exactly when nothing is watched or some scan finds no match, it stops at the first such
        scan, and otherwise it is still waiting. */
    method WaitForProcess(scans: seq<Scan>) returns (passed: bool, used: nat)
      ensures used <= |scans|
      ensures passed <==> regex.None? || exists k :: 0 <= k < |scans| && !Matches(regex.value, scans[k])
      ensures if passed then Passed(regex, scans[..used]) else used == |scans| && StillWaiting(regex, scans)
    {
      used := 0;
      if regex.None? {
        return true, 0;
      }
      var processExists := true;
      while processExists && used < |scans|
        invariant used <= |scans|
        invariant processExists ==> forall k :: 0 <= k < used ==> Matches(regex.value, scans[k])
        invariant !processExists ==> used > 0 && !Matches(regex.value, scans[used - 1])
        invariant forall k :: 0 <= k < used - 1 ==> Matches(regex.value, scans[k])
        decreases |scans| - used
      {
        processExists := ScanOnce(regex.value, scans[used]);
        used := used + 1;
      }
      passed := !processExists;
    }
  }

  /** One pass over the process list. */
  method ScanOnce(regex: Regex, scan: Scan) returns (processExists: bool)
    ensures processExists <==> Matches(regex, scan)
    ensures scan == Unreadable ==> !processExists
    ensures scan.Processes? ==> (processExists <==>
              exists c :: c in scan.commandLines && regex(match c case Some(line) => line case None => ""))
  {
    var processes := if scan.Processes? then scan.commandLines else [];
    for i := 0 to |processes|
      invariant forall j :: 0 <= j < i ==> !regex(CommandLine(processes[j]))
    {
      if regex(CommandLine(processes[i])) {
        assert processes[i] in scan.commandLines;
        return true;
      }
    }
    return false;
  }
}

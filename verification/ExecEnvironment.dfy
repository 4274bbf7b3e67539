/**
 The environment of exec probes.  Every run of an action appends its trace id to the same
 slice.  When that slice has spare capacity, `append` writes into the shared backing array,
 so overlapping runs write the same cell.
 */
module ExecEnvironment {
  datatype EnvConfig = EnvConfig(name: string, value: string)

  function Item(c: EnvConfig): string {
    c.name + "=" + c.value
  }

  /** newExecAction's list: one name=value item per configured variable, in order. */
  method BuildEnv(configs: seq<EnvConfig>) returns (env: seq<string>)
    ensures |env| == |configs|
    ensures forall i :: 0 <= i < |configs| ==> env[i] == configs[i].name + "=" + configs[i].value
  {
    env := [];
    for i := 0 to |configs|
      invariant |env| == i && forall j :: 0 <= j < i ==> env[j] == Item(configs[j])
    {
      env := env + [Item(configs[i])];
    }
  }

  /** The name that a process reads an item as: what comes before the first equals sign. */
  function NameOf(item: string): string {
    if item == "" || item[0] == '=' then "" else [item[0]] + NameOf(item[1..])
  }

  /** A configured variable reaches the process, name and value, if and only if its name holds no
      equals sign. */
  lemma {:induction false} ItemReadsBackIff(c: EnvConfig)
    ensures NameOf(Item(c)) == c.name <==> '=' !in c.name
    ensures '=' !in c.name ==> Item(c)[|NameOf(Item(c))| + 1..] == c.value
    decreases |c.name|
  {
    if c.name == "" {
    } else {
      var rest := EnvConfig(c.name[1..], c.value);
      assert Item(c) == [c.name[0]] + Item(rest);
      ItemReadsBackIff(rest);
      assert c.name == [c.name[0]] + rest.name;
    }
  }

  /** A run: before its append, holding a slice of the shared array, holding a slice of an array of
      its own, or started with the environment it read. */
  datatype Progress = Created | HoldsShared | HoldsOwn(own: seq<string>) | Started(env: seq<string>)

  datatype Run = Run(trace: string, progress: Progress)

  /** The backing array, of which the first `configured` cells belong to action.env, and the runs. */
  datatype State = State(backing: seq<string>, configured: nat, runs: seq<Run>)

  datatype Label = Launch(trace: string) | Append(r: nat) | Start(r: nat)

  predicate Spare(s: State) {
    s.configured < |s.backing|
  }

  predicate Enabled(s: State, l: Label) {
    match l
    case Launch(trace) => forall r :: 0 <= r < |s.runs| ==> s.runs[r].trace != trace
    case Append(r) => r < |s.runs| && s.runs[r].progress.Created? && s.configured <= |s.backing|
    case Start(r) =>
      && r < |s.runs|
      && (s.runs[r].progress.HoldsOwn? || (s.runs[r].progress.HoldsShared? && Spare(s)))
  }

  function Next(s: State, l: Label): State
    requires Enabled(s, l)
  {
    match l
    case Launch(trace) => s.(runs := s.runs + [Run(trace, Created)])
    case Append(r) =>
      var run := s.runs[r];
      if Spare(s) then
        s.(backing := s.backing[s.configured := run.trace], runs := s.runs[r := run.(progress := HoldsShared)])
      else
        s.(runs := s.runs[r := run.(progress := HoldsOwn(s.backing[..s.configured] + [run.trace]))])
    case Start(r) =>
      var run := s.runs[r];
      var env := if run.progress.HoldsOwn? then run.progress.own else s.backing[..s.configured + 1];
      s.(runs := s.runs[r := run.(progress := Started(env))])
  }

  ghost predicate Runs(s: State, run: seq<Label>, t: State)
    decreases |run|
  {
    if run == [] then s == t
    else Enabled(s, run[0]) && Runs(Next(s, run[0]), run[1..], t)
  }

  /** The action as built from `env`, with whatever unused cells lie behind it. */
  predicate Initial(s: State, env: seq<string>) {
    s.runs == [] && s.configured == |env| && env <= s.backing
  }

  /** The configured items are in place, and every environment is them plus one item. */
  predicate Inv(s: State, env: seq<string>) {
    && s.configured == |env| <= |s.backing| && s.backing[..|env|] == env
    && (forall r, q :: 0 <= r < q < |s.runs| ==> s.runs[r].trace != s.runs[q].trace)
    && forall r :: 0 <= r < |s.runs| ==>
         match s.runs[r].progress
         case Created => true
         case HoldsShared => Spare(s)
         case HoldsOwn(own) => !Spare(s) && own == env + [s.runs[r].trace]
         case Started(e) => |e| == |env| + 1 && e[..|env|] == env && (!Spare(s) ==> e == env + [s.runs[r].trace])
  }

  lemma StepInv(s: State, l: Label, env: seq<string>)
    requires Inv(s, env) && Enabled(s, l)
    ensures Inv(Next(s, l), env) && |Next(s, l).backing| == |s.backing|
  {
  }

  lemma {:induction false} RunInv(s: State, run: seq<Label>, t: State, env: seq<string>)
    requires Inv(s, env) && Runs(s, run, t)
    ensures Inv(t, env) && |t.backing| == |s.backing|
    decreases |run|
  {
    if run == [] {
    } else {
      StepInv(s, run[0], env);
      RunInv(Next(s, run[0]), run[1..], t, env);
    }
  }

  /** However many runs overlap, no configured item is ever altered: every environment read by a
      command is the configured list followed by one more item, and without spare capacity that
      item is always the run's own trace id. */
  lemma ConfiguredItemsSurvive(s: State, env: seq<string>, run: seq<Label>, t: State, r: nat)
    requires Initial(s, env) && Runs(s, run, t)
    requires r < |t.runs| && t.runs[r].progress.Started?
    ensures var e := t.runs[r].progress.env;
            && |e| == |env| + 1 && e[..|env|] == env
            && (|s.backing| == |env| ==> e[|env|] == t.runs[r].trace)
  {
    RunInv(s, run, t, env);
  }

  predicate Appends(run: seq<Label>) {
    exists k :: 0 <= k < |run| && run[k].Append?
  }

  lemma AppendsFirst(run: seq<Label>)
    requires run != []
    ensures Appends(run) <==> run[0].Append? || Appends(run[1..])
  {
    if Appends(run[1..]) {
      var k :| 0 <= k < |run| - 1 && run[1..][k].Append?;
      assert run[k + 1].Append?;
    }
    if k :| 1 <= k < |run| && run[k].Append? {
      assert run[1..][k - 1].Append?;
    }
  }

  /** Once run r has written the shared cell, the cell stays r's exactly until another run appends. */
  lemma {:induction false} CellKept(s: State, run: seq<Label>, t: State, env: seq<string>, r: nat)
    requires Inv(s, env) && Spare(s) && Runs(s, run, t)
    requires r < |s.runs| && (s.runs[r].progress.HoldsShared? || s.runs[r].progress.Started?)
    ensures Inv(t, env) && Spare(t)
    ensures r < |t.runs| && t.runs[r].trace == s.runs[r].trace
    ensures t.backing[|env|] == s.runs[r].trace <==> s.backing[|env|] == s.runs[r].trace && !Appends(run)
    decreases |run|
  {
    if run == [] {
    } else {
      StepInv(s, run[0], env);
      AppendsFirst(run);
      CellKept(Next(s, run[0]), run[1..], t, env, r);
    }
  }

  /** A command gets its own trace id if and only if the slice has no spare capacity or no other run
      appends between the command's append and its start. */
  lemma OwnTraceIff(s: State, env: seq<string>, r: nat, run: seq<Label>, t: State)
    requires Inv(s, env) && Enabled(s, Append(r)) && Runs(Next(s, Append(r)), run, t) && Enabled(t, Start(r))
    ensures Next(t, Start(r)).runs[r].progress == Started(env + [s.runs[r].trace])
            <==> |s.backing| == |env| || !Appends(run)
  {
    StepInv(s, Append(r), env);
    RunInv(Next(s, Append(r)), run, t, env);
    if Spare(s) {
      CellKept(Next(s, Append(r)), run, t, env, r);
      assert t.backing[..|env| + 1] == env + [t.backing[|env|]];
    } else {
      RunKeepsTraces(Next(s, Append(r)), run, t);
    }
  }

  lemma {:induction false} RunKeepsTraces(s: State, run: seq<Label>, t: State)
    requires Runs(s, run, t)
    ensures |s.runs| <= |t.runs| && forall r :: 0 <= r < |s.runs| ==> t.runs[r].trace == s.runs[r].trace
    decreases |run|
  {
    if run == [] {
    } else {
      RunKeepsTraces(Next(s, run[0]), run[1..], t);
    }
  }

  /** Whenever there is spare capacity, two overlapping runs can mix up their trace ids. */
  lemma MixUpReachable(s: State, env: seq<string>, a: string, b: string) returns (run: seq<Label>, t: State)
    requires Initial(s, env) && |s.backing| > |env| && a != b
    ensures Runs(s, run, t) && |t.runs| == 2 && t.runs[0] == Run(a, Started(env + [b]))
  {
    var s1 := Next(s, Launch(a));
    var s2 := Next(s1, Launch(b));
    var s3 := Next(s2, Append(0));
    var s4 := Next(s3, Append(1));
    t := Next(s4, Start(0));
    assert t.runs[0].progress.env == env + [b];
    assert Runs(s4, [Start(0)], t);
    assert Runs(s3, [Append(1)] + [Start(0)], t);
    assert Runs(s2, [Append(0)] + ([Append(1)] + [Start(0)]), t);
    assert Runs(s1, [Launch(b)] + ([Append(0)] + ([Append(1)] + [Start(0)])), t);
    run := [Launch(a)] + ([Launch(b)] + ([Append(0)] + ([Append(1)] + [Start(0)])));
  }
}

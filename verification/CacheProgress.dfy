/** What a call of the cache gets done: a `get` can always be served, and an evict alone removes the provider. */
module CacheProgress {
  import opened Options
  import opened CacheProtocol
  import opened CacheSafety
  import opened CacheTheorems

  /** A `get` that has not returned. */
  predicate Getting(task: Task) {
    || task.Probing? || task.NeedsCell? || task.Waiting? || task.Building? || task.Publishing? || task.Clearing?
  }

  /** Task `i` was served a provider of the key; at most one build was made meanwhile, and of that key. */
  ghost predicate GotProvider(s: State, s': State, i: nat, key: string) {
    && i < |s'.tasks| && s'.tasks[i].Returned? && s'.tasks[i].key == key && s'.tasks[i].result.Some?
    && s'.tasks[i].result.value.key == key
    && (s'.builds == s.builds || (|s'.builds| == |s.builds| + 1 && s'.builds[|s.builds|].key == key))
  }

  /** It did the whole of the cold path: the key became warm with what it returns, and its cell left. */
  ghost predicate Hoisted(s': State, i: nat, key: string) {
    && i < |s'.tasks| && s'.tasks[i].Returned? && s'.tasks[i].result.Some?
    && key in s'.warm && s'.warm[key].value == s'.tasks[i].result.value && key !in s'.inFlight
  }

  lemma PublishThenClear(s: State, i: nat)
    requires Inv(s) && i < |s.tasks| && s.tasks[i].Publishing?
    ensures var key := s.tasks[i].key;
            && ValidRun(s, [Publish(i), Clear(i)])
            && GotProvider(s, Run(s, [Publish(i), Clear(i)]), i, key) && Hoisted(Run(s, [Publish(i), Clear(i)]), i, key)
            && Run(s, [Publish(i), Clear(i)]).builds == s.builds
  {
    assert TaskInv(s, i);
    assert CellInv(s, s.tasks[i].cell);
    TwoMoves(s, Publish(i), Clear(i));
  }

  lemma BuildThenServe(s: State, i: nat) returns (steps: seq<Step>)
    requires Inv(s) && i < |s.tasks| && s.tasks[i].Building?
    ensures var key := s.tasks[i].key;
            ValidRun(s, steps) && GotProvider(s, Run(s, steps), i, key) && Hoisted(Run(s, steps), i, key)
  {
    assert TaskInv(s, i);
    StepInv(s, BuildOk(i));
    var s1 := Apply(s, BuildOk(i));
    PublishThenClear(s1, i);
    Prepend(s, BuildOk(i), [Publish(i), Clear(i)]);
    steps := [BuildOk(i)] + [Publish(i), Clear(i)];
  }

  /** A waiter builds, or takes what the cell has or its builder makes. */
  lemma WaitThenServe(s: State, i: nat) returns (steps: seq<Step>)
    requires Inv(s) && i < |s.tasks| && s.tasks[i].Waiting?
    ensures var key := s.tasks[i].key;
            ValidRun(s, steps) && GotProvider(s, Run(s, steps), i, key) && Hoisted(Run(s, steps), i, key)
  {
    assert TaskInv(s, i);
    var c := s.tasks[i].cell;
    assert CellInv(s, c);
    if s.cells[c].builder.None? {
      steps := EnterThenServe(s, i);
    } else {
      var b := s.cells[c].builder.value;
      assert TaskInv(s, b);
      StepInv(s, BuildOk(b));
      var s1 := Apply(s, BuildOk(b));
      assert s1.tasks[i] == s.tasks[i] && s1.cells[c].builder.None? && s1.cells[c].value.Some?;
      StepInv(s1, Enter(i));
      var s2 := Apply(s1, Enter(i));
      PublishThenClear(s2, i);
      Prepend(s1, Enter(i), [Publish(i), Clear(i)]);
      Prepend(s, BuildOk(b), [Enter(i)] + [Publish(i), Clear(i)]);
      steps := [BuildOk(b)] + ([Enter(i)] + [Publish(i), Clear(i)]);
    }
  }

  lemma EnterThenServe(s: State, i: nat) returns (steps: seq<Step>)
    requires Inv(s) && i < |s.tasks| && Enabled(s, Enter(i))
    ensures var key := s.tasks[i].key;
            ValidRun(s, steps) && GotProvider(s, Run(s, steps), i, key) && Hoisted(Run(s, steps), i, key)
  {
    StepInv(s, Enter(i));
    var s1 := Apply(s, Enter(i));
    var rest;
    if s1.tasks[i].Publishing? {
      PublishThenClear(s1, i);
      rest := [Publish(i), Clear(i)];
    } else {
      rest := BuildThenServe(s1, i);
    }
    Prepend(s, Enter(i), rest);
    steps := [Enter(i)] + rest;
  }

  lemma LookThenServe(s: State, i: nat) returns (steps: seq<Step>)
    requires Inv(s) && i < |s.tasks| && s.tasks[i].NeedsCell?
    ensures var key := s.tasks[i].key;
            ValidRun(s, steps) && GotProvider(s, Run(s, steps), i, key) && Hoisted(Run(s, steps), i, key)
  {
    StepInv(s, TakeCell(i));
    var s1 := Apply(s, TakeCell(i));
    var rest := WaitThenServe(s1, i);
    Prepend(s, TakeCell(i), rest);
    steps := [TakeCell(i)] + rest;
  }

  /**
    In every reachable state a `get` that has not returned can be served, whatever failed or
    was evicted before: a warm key at once and as it is, without a cell or a build, and a
    cold one by at most one build, after which the key is warm with what is returned.
   */
  lemma GetCanFinish(before: seq<Step>, i: nat) returns (steps: seq<Step>)
    requires ValidRun(Init, before) && i < |Run(Init, before).tasks| && Getting(Run(Init, before).tasks[i])
    ensures ValidRun(Run(Init, before), steps)
    ensures var s := Run(Init, before); var s', key := Run(s, steps), s.tasks[i].key;
            && GotProvider(s, s', i, key)
            && (s.tasks[i].Probing? && key in s.warm ==>
                  && steps == [Probe(i)] && s'.tasks[i].result == Some(s.warm[key].value)
                  && s'.warm == s.warm && s'.inFlight == s.inFlight && s'.cells == s.cells && s'.builds == s.builds)
            && (!s.tasks[i].Clearing? && !(s.tasks[i].Probing? && key in s.warm) ==> Hoisted(s', i, key))
  {
    InitInv();
    RunInv(Init, before);
    var s := Run(Init, before);
    assert TaskInv(s, i);
    match s.tasks[i]
    case Probing(key) =>
      StepInv(s, Probe(i));
      Single(s, Probe(i));
      steps := [Probe(i)];
      if key !in s.warm {
        var rest := LookThenServe(Apply(s, Probe(i)), i);
        Prepend(s, Probe(i), rest);
        steps := [Probe(i)] + rest;
      }
    case NeedsCell(_) => steps := LookThenServe(s, i);
    case Waiting(_, _, _) => steps := WaitThenServe(s, i);
    case Building(_, _, _) => steps := BuildThenServe(s, i);
    case Publishing(_, _, _, _) =>
      PublishThenClear(s, i);
      steps := [Publish(i), Clear(i)];
    case Clearing(_, _) =>
      Single(s, Clear(i));
      steps := [Clear(i)];
  }

  /** A build that fails, or is abandoned, leaves the cell to the next caller: whoever waits on it may build. */
  lemma FailureIsNotCached(before: seq<Step>, i: nat, j: nat, step: Step)
    requires ValidRun(Init, before) && step in {BuildErr(i), Abandon(i)} && Enabled(Run(Init, before), step)
    requires var s := Run(Init, before);
             && s.tasks[i].Building? && j < |s.tasks| && j != i
             && s.tasks[j].Waiting? && s.tasks[j].cell == s.tasks[i].cell
    ensures var s := Run(Init, before); var s' := Apply(s, step);
            && s'.tasks[i] == Returned(s.tasks[i].key, None) && s'.warm == s.warm && s'.builds == s.builds
            && Enabled(s', Enter(j)) && Apply(s', Enter(j)).tasks[j].Building?
  {
    InitInv();
    RunInv(Init, before);
    var s := Run(Init, before);
    assert TaskInv(s, i) && TaskInv(s, j);
    assert CellInv(s, s.tasks[i].cell);
  }

  /** A `get` that waits or builds may be dropped at any moment: it returns nothing and its cell has no builder left. */
  lemma MayBeAbandoned(before: seq<Step>, i: nat)
    requires ValidRun(Init, before) && i < |Run(Init, before).tasks|
    requires var task := Run(Init, before).tasks[i]; task.Waiting? || task.Building?
    ensures var s := Run(Init, before);
            && Enabled(s, Abandon(i))
            && var s' := Apply(s, Abandon(i));
               && s'.tasks[i] == Returned(s.tasks[i].key, None) && s'.warm == s.warm && s'.builds == s.builds
               && (forall c :: 0 <= c < |s'.cells| ==> s'.cells[c].builder != Some(i))
  {
    InitInv();
    RunInv(Init, before);
    var s := Run(Init, before);
    assert TaskInv(s, i);
    var s' := Apply(s, Abandon(i));
    forall c | 0 <= c < |s'.cells| ensures s'.cells[c].builder != Some(i) { assert CellInv(s, c); }
  }

  /**
    An evict whose two removals nothing comes between, while no `get` holds a build of the
    key, takes the key out of both maps and is final.
   */
  lemma QuietEvictIsFinal(before: seq<Step>, i: nat)
    requires ValidRun(Init, before) && Enabled(Run(Init, before), EvictWarm(i))
    requires var s := Run(Init, before); forall j :: 0 <= j < |s.tasks| ==> !HoldsBuild(s, j, s.tasks[i].key)
    ensures var s := Run(Init, before);
            && Enabled(Apply(s, EvictWarm(i)), EvictCell(i))
            && var key, s' := s.tasks[i].key, Apply(Apply(s, EvictWarm(i)), EvictCell(i));
               && s'.tasks[i] == Evicted(key) && key !in s'.warm && key !in s'.inFlight
               && FreshFromNowOn(s', key, s.clock + 1)
               && (forall other :: other != key ==>
                     && (other in s'.warm <==> other in s.warm) && (other in s'.inFlight <==> other in s.inFlight))
  {
    var s := Run(Init, before);
    var key, s1 := s.tasks[i].key, Apply(s, EvictWarm(i));
    Single(s, EvictWarm(i));
    Concat(Init, before, [EvictWarm(i)]);
    forall j | 0 <= j < |s1.tasks| ensures !HoldsBuild(s1, j, key) {
      assert !HoldsBuild(s, j, key);
    }
    EvictIsFinalIff(before + [EvictWarm(i)], i);
  }
}

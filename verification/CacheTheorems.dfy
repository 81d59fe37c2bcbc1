/** What the cache promises over whole runs, and the interleavings where it promises no more. */
module CacheTheorems {
  import opened Options
  import opened CacheProtocol
  import opened CacheSafety

  // ----- Freshness ----------------------------------------------------------------------

  /**
    After an evict of a key has completed: every in-flight cell of the key was created after
    it, and a warm provider whose build began before it was published by a `get` that had
    already taken its cell when the evict completed.
   */
  lemma FreshAfterEvict(steps: seq<Step>, key: string)
    requires ValidRun(Init, steps) && key in Run(Init, steps).evicted
    ensures var s := Run(Init, steps);
            && (key in s.inFlight ==>
                  s.inFlight[key] < |s.cells| && s.cells[s.inFlight[key]].created > s.evicted[key])
            && (key in s.warm && s.warm[key].value.started < s.evicted[key] ==> s.warm[key].taken < s.evicted[key])
  {
    InitInv();
    RunInv(Init, steps);
    var s := Run(Init, steps);
    if key in s.warm && s.warm[key].value.started < s.evicted[key] {
      assert TakenFresh(s, key, s.warm[key].taken, s.warm[key].value.started);
      TakenAtAnotherMoment(steps, key);
    }
  }

  /** No held cell was taken at the very moment an evict completed. */
  ghost predicate HoldersApart(s: State) {
    && (forall i, key :: 0 <= i < |s.tasks| && HoldsCell(s.tasks[i]) && key in s.evicted ==>
          s.tasks[i].taken != s.evicted[key])
    && (forall i :: 0 <= i < |s.tasks| && HoldsCell(s.tasks[i]) ==> s.tasks[i].taken < s.clock)
    && (forall key :: key in s.evicted ==> s.evicted[key] < s.clock)
  }

  /** Nor was the cell of any warm provider. */
  ghost predicate WarmApart(s: State) {
    && (forall key :: key in s.warm && key in s.evicted ==> s.warm[key].taken != s.evicted[key])
    && (forall key :: key in s.warm ==> s.warm[key].taken < s.clock)
  }

  lemma HoldersApartStep(s: State, step: Step)
    requires HoldersApart(s) && Enabled(s, step)
    ensures HoldersApart(Apply(s, step))
  {
    if step.TakeCell? { TakeCellApart(s, step.i); }
    else if step.EvictCell? { EvictCellApart(s, step.i); }
    else { HoldersKept(s, step); }
  }

  lemma TakeCellApart(s: State, i: nat)
    requires HoldersApart(s) && Enabled(s, TakeCell(i))
    ensures HoldersApart(Apply(s, TakeCell(i)))
  {}

  lemma EvictCellApart(s: State, i: nat)
    requires HoldersApart(s) && Enabled(s, EvictCell(i))
    ensures HoldersApart(Apply(s, EvictCell(i)))
  {}

  /** Any other step keeps the evict times, and who holds a cell took it before. */
  lemma HoldersKept(s: State, step: Step)
    requires Enabled(s, step) && !step.TakeCell? && !step.EvictCell?
    ensures var s' := Apply(s, step);
            && s'.evicted == s.evicted && s'.clock == s.clock + 1
            && forall i :: 0 <= i < |s'.tasks| && HoldsCell(s'.tasks[i]) ==>
                 i < |s.tasks| && HoldsCell(s.tasks[i]) && s'.tasks[i].taken == s.tasks[i].taken
  {}

  lemma WarmApartStep(s: State, step: Step)
    requires HoldersApart(s) && WarmApart(s) && Enabled(s, step)
    ensures WarmApart(Apply(s, step))
  {}

  lemma {:induction false} ApartRun(s: State, steps: seq<Step>)
    requires HoldersApart(s) && WarmApart(s) && ValidRun(s, steps)
    ensures WarmApart(Run(s, steps))
    decreases |steps|
  {
    if steps != [] {
      HoldersApartStep(s, steps[0]);
      WarmApartStep(s, steps[0]);
      ApartRun(Apply(s, steps[0]), steps[1..]);
    }
  }

  lemma TakenAtAnotherMoment(steps: seq<Step>, key: string)
    requires ValidRun(Init, steps)
    ensures var s := Run(Init, steps); key in s.warm && key in s.evicted ==> s.warm[key].taken != s.evicted[key]
  {
    ApartRun(Init, steps);
  }

  // ----- When an evict is final ---------------------------------------------------------

  /** The cell holds no value, and runs no build, that began by `when`. */
  predicate CellFresh(cell: Cell, when: nat) {
    && (cell.value.Some? ==> cell.value.value.started > when)
    && (cell.builder.Some? ==> cell.started > when)
  }

  /** Nothing that can still be served for the key began building by `when`. */
  ghost predicate NothingOlder(s: State, key: string, when: nat) {
    && (key in s.warm ==> s.warm[key].value.started > when)
    && (key in s.inFlight ==> s.inFlight[key] < |s.cells| && CellFresh(s.cells[s.inFlight[key]], when))
    && (forall i :: 0 <= i < |s.tasks| && HoldsCell(s.tasks[i]) && s.tasks[i].key == key ==>
          s.tasks[i].cell < |s.cells| && CellFresh(s.cells[s.tasks[i].cell], when))
    && (forall i :: 0 <= i < |s.tasks| && s.tasks[i].Publishing? && s.tasks[i].key == key ==>
          s.tasks[i].value.started > when)
    && when < s.clock
  }

  ghost predicate BuildersKnown(s: State) {
    forall i :: 0 <= i < |s.tasks| && s.tasks[i].Building? ==>
      s.tasks[i].cell < |s.cells| && s.cells[s.tasks[i].cell].builder == Some(i)
  }

  lemma NothingOlderStep(s: State, step: Step, key: string, when: nat)
    requires BuildersKnown(s) && Enabled(s, step) && NothingOlder(s, key, when)
    ensures NothingOlder(Apply(s, step), key, when)
  {
    if step.Enter? { NothingOlderEnter(s, step.i, key, when); }
    else if step.BuildOk? { NothingOlderBuildOk(s, step.i, key, when); }
    else if step.BuildErr? || step.Abandon? { NothingOlderGiveUp(s, step, key, when); }
    else if step.TakeCell? { NothingOlderTakeCell(s, step.i, key, when); }
    else { NothingOlderRest(s, step, key, when); }
  }

  lemma NothingOlderTakeCell(s: State, i: nat, key: string, when: nat)
    requires Enabled(s, TakeCell(i)) && NothingOlder(s, key, when)
    ensures NothingOlder(Apply(s, TakeCell(i)), key, when)
  {}

  lemma NothingOlderEnter(s: State, i: nat, key: string, when: nat)
    requires Enabled(s, Enter(i)) && NothingOlder(s, key, when)
    ensures NothingOlder(Apply(s, Enter(i)), key, when)
  {}

  lemma NothingOlderBuildOk(s: State, i: nat, key: string, when: nat)
    requires BuildersKnown(s) && Enabled(s, BuildOk(i)) && NothingOlder(s, key, when)
    ensures NothingOlder(Apply(s, BuildOk(i)), key, when)
  {}

  lemma NothingOlderGiveUp(s: State, step: Step, key: string, when: nat)
    requires Enabled(s, step) && (step.BuildErr? || step.Abandon?) && NothingOlder(s, key, when)
    ensures NothingOlder(Apply(s, step), key, when)
  {}

  lemma NothingOlderRest(s: State, step: Step, key: string, when: nat)
    requires Enabled(s, step) && NothingOlder(s, key, when)
    requires !(step.TakeCell? || step.Enter? || step.BuildOk? || step.BuildErr? || step.Abandon?)
    ensures NothingOlder(Apply(s, step), key, when)
  {}

  lemma {:induction false} NothingOlderRun(s: State, steps: seq<Step>, key: string, when: nat)
    requires Inv(s) && ValidRun(s, steps) && NothingOlder(s, key, when)
    ensures NothingOlder(Run(s, steps), key, when)
    decreases |steps|
  {
    if steps != [] {
      forall i | 0 <= i < |s.tasks| && s.tasks[i].Building?
        ensures s.tasks[i].cell < |s.cells| && s.cells[s.tasks[i].cell].builder == Some(i)
      {
        assert TaskInv(s, i);
      }
      NothingOlderStep(s, steps[0], key, when);
      StepInv(s, steps[0]);
      NothingOlderRun(Apply(s, steps[0]), steps[1..], key, when);
    }
  }

  /** Every build that is known of began in the past. */
  ghost predicate CellsStarted(s: State) {
    && s.clock > 0
    && forall c :: 0 <= c < |s.cells| ==>
         s.cells[c].started < s.clock && (s.cells[c].value.Some? ==> s.cells[c].value.value.started < s.clock)
  }

  ghost predicate ValuesStarted(s: State) {
    && (forall i :: 0 <= i < |s.tasks| && s.tasks[i].Publishing? ==> s.tasks[i].value.started < s.clock)
    && (forall key :: key in s.warm ==> s.warm[key].value.started < s.clock)
  }

  lemma CellsStartedStep(s: State, step: Step)
    requires CellsStarted(s) && Enabled(s, step)
    ensures CellsStarted(Apply(s, step))
  {}

  lemma ValuesStartedStep(s: State, step: Step)
    requires CellsStarted(s) && ValuesStarted(s) && Enabled(s, step)
    ensures ValuesStarted(Apply(s, step))
  {}

  lemma {:induction false} StartedRun(s: State, steps: seq<Step>)
    requires CellsStarted(s) && ValuesStarted(s) && ValidRun(s, steps)
    ensures CellsStarted(Run(s, steps)) && ValuesStarted(Run(s, steps))
    decreases |steps|
  {
    if steps != [] {
      CellsStartedStep(s, steps[0]);
      ValuesStartedStep(s, steps[0]);
      StartedRun(Apply(s, steps[0]), steps[1..]);
    }
  }

  /** A `get` of the key holds a value, or a build, that an evict completing now would not undo. */
  predicate HoldsBuild(s: State, j: nat, key: string)
    requires j < |s.tasks|
  {
    var task := s.tasks[j];
    && HoldsCell(task) && task.key == key
    && (task.Waiting? ==> task.cell < |s.cells| && s.cells[task.cell].value.Some?)
  }

  /** The key is warm, or some `get` still holds a build of it. */
  predicate BuildSurvives(s: State, key: string) {
    key in s.warm || exists j :: 0 <= j < |s.tasks| && HoldsBuild(s, j, key)
  }

  /** In every continuation, each warm provider of the key began building after `when`. */
  ghost predicate FreshFromNowOn(s: State, key: string, when: nat) {
    forall more :: ValidRun(s, more) && key in Run(s, more).warm ==> Run(s, more).warm[key].value.started > when
  }

  lemma NoSurvivorNothingOlder(s: State, i: nat)
    requires Inv(s) && Enabled(s, EvictCell(i)) && !BuildSurvives(s, s.tasks[i].key)
    ensures NothingOlder(Apply(s, EvictCell(i)), s.tasks[i].key, s.clock)
  {
    var key := s.tasks[i].key;
    forall j | 0 <= j < |s.tasks| && HoldsCell(s.tasks[j]) && s.tasks[j].key == key
      ensures s.tasks[j].Waiting? && s.tasks[j].cell < |s.cells| && CellFresh(s.cells[s.tasks[j].cell], s.clock)
    {
      assert !HoldsBuild(s, j, key) && TaskInv(s, j);
      var c := s.tasks[j].cell;
      assert CellInv(s, c);
      if s.cells[c].builder.Some? {
        var b := s.cells[c].builder.value;
        assert TaskInv(s, b) && HoldsBuild(s, b, key);
      }
    }
  }

  lemma TwoMoves(s: State, a: Step, b: Step)
    requires Enabled(s, a) && Enabled(Apply(s, a), b)
    ensures ValidRun(s, [a, b]) && Run(s, [a, b]) == Apply(Apply(s, a), b)
  {
    Single(Apply(s, a), b);
    Prepend(s, a, [b]);
    assert [a] + [b] == [a, b];
  }

  /** A build that survives the evict can still be published after it. */
  lemma SurvivorIsPublished(s: State, j: nat, key: string, when: nat)
    requires Inv(s) && j < |s.tasks| && HoldsBuild(s, j, key)
    requires s.tasks[j].Publishing? ==> s.tasks[j].value.started <= when
    requires s.tasks[j].cell < |s.cells| ==>
               s.cells[s.tasks[j].cell].started <= when
               && (s.cells[s.tasks[j].cell].value.Some? ==> s.cells[s.tasks[j].cell].value.value.started <= when)
    ensures !FreshFromNowOn(s, key, when)
  {
    assert TaskInv(s, j);
    if s.tasks[j].Publishing? {
      Single(s, Publish(j));
    } else if s.tasks[j].Building? {
      TwoMoves(s, BuildOk(j), Publish(j));
    } else {
      assert CellInv(s, s.tasks[j].cell);
      TwoMoves(s, Enter(j), Publish(j));
    }
  }

  /**
    Exactly when an evict is final: however the run goes on, every warm provider of the key
    began building after the evict completed, if and only if at that moment the key is not
    warm again and no `get` holds a build of it.
   */
  lemma EvictIsFinalIff(before: seq<Step>, i: nat)
    requires ValidRun(Init, before) && Enabled(Run(Init, before), EvictCell(i))
    ensures var s := Run(Init, before); var key := s.tasks[i].key;
            FreshFromNowOn(Apply(s, EvictCell(i)), key, s.clock) <==> !BuildSurvives(s, key)
  {
    InitInv();
    RunInv(Init, before);
    StartedRun(Init, before);
    var s := Run(Init, before);
    StepInv(s, EvictCell(i));
    if BuildSurvives(s, s.tasks[i].key) { SurvivorIsNotFresh(s, i); } else { NoSurvivorIsFresh(s, i); }
  }

  lemma NoSurvivorIsFresh(s: State, i: nat)
    requires Inv(s) && Enabled(s, EvictCell(i)) && Inv(Apply(s, EvictCell(i))) && !BuildSurvives(s, s.tasks[i].key)
    ensures FreshFromNowOn(Apply(s, EvictCell(i)), s.tasks[i].key, s.clock)
  {
    var key, s1 := s.tasks[i].key, Apply(s, EvictCell(i));
    NoSurvivorNothingOlder(s, i);
    forall more | ValidRun(s1, more) && key in Run(s1, more).warm
      ensures Run(s1, more).warm[key].value.started > s.clock
    {
      NothingOlderRun(s1, more, key, s.clock);
    }
  }

  lemma SurvivorIsNotFresh(s: State, i: nat)
    requires Inv(s) && CellsStarted(s) && ValuesStarted(s)
    requires Enabled(s, EvictCell(i)) && Inv(Apply(s, EvictCell(i))) && BuildSurvives(s, s.tasks[i].key)
    ensures !FreshFromNowOn(Apply(s, EvictCell(i)), s.tasks[i].key, s.clock)
  {
    var key, s1 := s.tasks[i].key, Apply(s, EvictCell(i));
    if key in s.warm {
      assert ValidRun(s1, []) && Run(s1, []) == s1;
    } else {
      var j :| 0 <= j < |s.tasks| && HoldsBuild(s, j, key);
      assert s1.tasks[j] == s.tasks[j] && HoldsBuild(s1, j, key);
      SurvivorIsPublished(s1, j, key, s.clock);
    }
  }

  // ----- Collapse -----------------------------------------------------------------------

  predicate SameBuild(a: Task, b: Task) { a.Building? && b.Building? && a.cell == b.cell }

  /** Over every interleaving: one builder per cell, one success per cell, and only successes are served. */
  lemma CellsCollapse(steps: seq<Step>)
    requires ValidRun(Init, steps)
    ensures var s := Run(Init, steps);
            && (forall i, j :: 0 <= i < |s.tasks| && 0 <= j < |s.tasks| && SameBuild(s.tasks[i], s.tasks[j]) ==> i == j)
            && (forall a, b :: 0 <= a < b < |s.builds| ==> s.builds[a].cell != s.builds[b].cell)
            && (forall key :: key in s.warm ==> s.warm[key].value in s.builds && s.warm[key].value.key == key)
            && (forall i :: 0 <= i < |s.tasks| && s.tasks[i].Returned? && s.tasks[i].result.Some? ==>
                  s.tasks[i].result.value in s.builds && s.tasks[i].result.value.key == s.tasks[i].key)
  {
    InitInv();
    RunInv(Init, steps);
    var s := Run(Init, steps);
    forall i, j | 0 <= i < |s.tasks| && 0 <= j < |s.tasks| && SameBuild(s.tasks[i], s.tasks[j]) ensures i == j
    {
      assert TaskInv(s, i) && TaskInv(s, j);
    }
    forall i | 0 <= i < |s.tasks| && s.tasks[i].Returned? && s.tasks[i].result.Some?
      ensures s.tasks[i].result.value in s.builds && s.tasks[i].result.value.key == s.tasks[i].key
    {
      assert TaskInv(s, i);
    }
  }

  /**
    The cell lookup of task `i` comes too late: since its probe the key was published and
    its cell removed, so the lookup makes a second cell.
   */
  predicate LateLookup(s: State, i: nat)
    requires i < |s.tasks| && s.tasks[i].NeedsCell?
  { s.tasks[i].key in s.warm && s.tasks[i].key !in s.inFlight }

  /** No evict is called, and no publish and removal fall between a probe and its cell lookup. */
  predicate Undisturbed(s: State, steps: seq<Step>)
    requires ValidRun(s, steps)
    decreases |steps|
  {
    steps == [] ||
    (!steps[0].CallEvict?
     && (steps[0].TakeCell? ==> !LateLookup(s, steps[0].i))
     && Undisturbed(Apply(s, steps[0]), steps[1..]))
  }

  /** One cell per key for ever: it is in flight until the key is warm. */
  ghost predicate OneCellInv(s: State) {
    && (forall c, d :: 0 <= c < |s.cells| && 0 <= d < |s.cells| && s.cells[c].key == s.cells[d].key ==> c == d)
    && (forall c :: 0 <= c < |s.cells| ==>
          s.cells[c].key in s.warm || (s.cells[c].key in s.inFlight && s.inFlight[s.cells[c].key] == c))
    && (forall i :: 0 <= i < |s.tasks| ==> !s.tasks[i].EvictingWarm? && !s.tasks[i].EvictingCell?)
    && (forall i :: 0 <= i < |s.tasks| && s.tasks[i].Clearing? ==> s.tasks[i].key in s.warm)
  }

  lemma OneCellStep(s: State, step: Step)
    requires OneCellInv(s) && Enabled(s, step) && !step.CallEvict?
    requires step.TakeCell? ==> !LateLookup(s, step.i)
    ensures OneCellInv(Apply(s, step))
  {
    if step.TakeCell? { OneCellTake(s, step.i); }
    else if step.Publish? { OneCellPublish(s, step.i); }
    else if step.Clear? { OneCellClear(s, step.i); }
    else { OneCellRest(s, step); }
  }

  lemma OneCellPublish(s: State, i: nat)
    requires OneCellInv(s) && Enabled(s, Publish(i))
    ensures OneCellInv(Apply(s, Publish(i)))
  {}

  lemma OneCellClear(s: State, i: nat)
    requires OneCellInv(s) && Enabled(s, Clear(i))
    ensures OneCellInv(Apply(s, Clear(i)))
  {}

  lemma OneCellRest(s: State, step: Step)
    requires OneCellInv(s) && Enabled(s, step)
    requires !step.CallEvict? && !step.TakeCell? && !step.Publish? && !step.Clear?
    ensures OneCellInv(Apply(s, step))
  {
    var s' := Apply(s, step);
    assert s'.warm == s.warm && s'.inFlight == s.inFlight && |s'.cells| == |s.cells|;
    assert forall c :: 0 <= c < |s.cells| ==> s'.cells[c].key == s.cells[c].key;
  }

  lemma OneCellTake(s: State, i: nat)
    requires OneCellInv(s) && Enabled(s, TakeCell(i)) && !LateLookup(s, i)
    ensures OneCellInv(Apply(s, TakeCell(i)))
  {
    if s.tasks[i].key in s.inFlight {
      assert Apply(s, TakeCell(i)).cells == s.cells;
    } else {
      assert forall c :: 0 <= c < |s.cells| ==> s.cells[c].key != s.tasks[i].key;
    }
  }

  lemma {:induction false} OneCellRun(s: State, steps: seq<Step>)
    requires OneCellInv(s) && ValidRun(s, steps) && Undisturbed(s, steps)
    ensures OneCellInv(Run(s, steps))
    decreases |steps|
  {
    if steps != [] {
      OneCellStep(s, steps[0]);
      OneCellRun(Apply(s, steps[0]), steps[1..]);
    }
  }

  lemma OneBuildPerKey(s: State, v: Built, w: Built)
    requires Inv(s) && OneCellInv(s) && v in s.builds && w in s.builds && v.key == w.key
    ensures v == w
  {
    assert v.cell < |s.cells| && w.cell < |s.cells|;
    assert CellInv(s, v.cell) && CellInv(s, w.cell);
    assert s.cells[v.cell].value == Some(v) && s.cells[w.cell].value == Some(w);
  }

  predicate Served(task: Task) { task.Returned? && task.result.Some? }

  /**
    First-access collapse: in an undisturbed run each key is built successfully at most
    once, and every caller that gets a provider for the key, and the warm map, have that one.
   */
  lemma EachKeyBuiltOnce(steps: seq<Step>)
    requires ValidRun(Init, steps) && Undisturbed(Init, steps)
    ensures var s := Run(Init, steps);
            && (forall a, b :: 0 <= a < b < |s.builds| ==> s.builds[a].key != s.builds[b].key)
            && (forall i :: 0 <= i < |s.tasks| && Served(s.tasks[i]) ==>
                  && s.tasks[i].result.value in s.builds
                  && s.tasks[i].key in s.warm && s.warm[s.tasks[i].key].value == s.tasks[i].result.value)
  {
    InitInv();
    RunInv(Init, steps);
    OneCellRun(Init, steps);
    WarmOnceServed(Init, steps);
    OneBuildServesAll(Run(Init, steps));
  }

  lemma OneBuildServesAll(s: State)
    requires Inv(s) && OneCellInv(s) && ServedIsWarm(s)
    ensures forall a, b :: 0 <= a < b < |s.builds| ==> s.builds[a].key != s.builds[b].key
    ensures forall i :: 0 <= i < |s.tasks| && Served(s.tasks[i]) ==>
              && s.tasks[i].result.value in s.builds
              && s.tasks[i].key in s.warm && s.warm[s.tasks[i].key].value == s.tasks[i].result.value
  {
    forall a, b | 0 <= a < b < |s.builds| ensures s.builds[a].key != s.builds[b].key {
      if s.builds[a].key == s.builds[b].key { OneBuildPerKey(s, s.builds[a], s.builds[b]); }
    }
    forall i | 0 <= i < |s.tasks| && Served(s.tasks[i])
      ensures s.tasks[i].result.value in s.builds
      ensures s.tasks[i].key in s.warm && s.warm[s.tasks[i].key].value == s.tasks[i].result.value
    {
      ServedIsTheBuild(s, i);
    }
  }

  lemma ServedIsTheBuild(s: State, i: nat)
    requires Inv(s) && OneCellInv(s) && ServedIsWarm(s) && i < |s.tasks| && Served(s.tasks[i])
    ensures s.tasks[i].result.value in s.builds
    ensures s.tasks[i].key in s.warm && s.warm[s.tasks[i].key].value == s.tasks[i].result.value
  {
    assert TaskInv(s, i);
    OneBuildPerKey(s, s.tasks[i].result.value, s.warm[s.tasks[i].key].value);
  }

  /** Without evicts a key that was served is warm. */
  ghost predicate ServedIsWarm(s: State) {
    && (forall i :: 0 <= i < |s.tasks| ==> !s.tasks[i].EvictingWarm? && !s.tasks[i].EvictingCell?)
    && (forall i :: 0 <= i < |s.tasks| && (s.tasks[i].Clearing? || Served(s.tasks[i])) ==>
          s.tasks[i].key in s.warm)
  }

  lemma ServedIsWarmStep(s: State, step: Step)
    requires ServedIsWarm(s) && Enabled(s, step) && !step.CallEvict?
    ensures ServedIsWarm(Apply(s, step))
  {
    if step.Publish? {
      ServedIsWarmPublish(s, step.i);
    } else {
      assert Apply(s, step).warm == s.warm;
    }
  }

  lemma ServedIsWarmPublish(s: State, i: nat)
    requires ServedIsWarm(s) && Enabled(s, Publish(i))
    ensures ServedIsWarm(Apply(s, Publish(i)))
  {}

  lemma {:induction false} WarmOnceServed(s: State, steps: seq<Step>)
    requires ServedIsWarm(s) && ValidRun(s, steps) && Undisturbed(s, steps)
    ensures ServedIsWarm(Run(s, steps))
    decreases |steps|
  {
    if steps != [] {
      ServedIsWarmStep(s, steps[0]);
      WarmOnceServed(Apply(s, steps[0]), steps[1..]);
    }
  }

  predicate BuiltTwice(s: State, key: string) {
    exists a, b :: 0 <= a < b < |s.builds| && s.builds[a].key == s.builds[b].key == key
  }

  /** Some undisturbed continuation has built the key twice. */
  ghost predicate CanBuildTwice(s: State, key: string) {
    exists more :: ValidRun(s, more) && Undisturbed(s, more) && BuiltTwice(Run(s, more), key)
  }

  lemma TwoSteps(s: State, a: Step, b: Step)
    requires Enabled(s, a) && Enabled(Apply(s, a), b) && !a.CallEvict? && !b.CallEvict? && !a.TakeCell? && !b.TakeCell?
    ensures ValidRun(s, [a, b]) && Undisturbed(s, [a, b]) && Run(s, [a, b]) == Apply(Apply(s, a), b)
  {
    TwoMoves(s, a, b);
    assert [a, b][1..] == [b] && [b][1..] == [];
  }

  /** A late lookup, taken from any reachable state, can go on to build the key a second time. */
  lemma LateLookupBuildsAgain(s: State, i: nat)
    requires Inv(s) && Enabled(s, TakeCell(i)) && LateLookup(s, i)
    ensures CanBuildTwice(Apply(s, TakeCell(i)), s.tasks[i].key)
  {
    var key := s.tasks[i].key;
    var s1 := Apply(s, TakeCell(i));
    var s2 := Apply(s1, Enter(i));
    var s3 := Apply(s2, BuildOk(i));
    TwoSteps(s1, Enter(i), BuildOk(i));
    assert s.warm[key].value in s.builds;
    var a :| 0 <= a < |s.builds| && s.builds[a] == s.warm[key].value;
    assert s3.builds[a].key == key && s3.builds[|s.builds|].key == key;
  }

  /**
    Exactly when the collapse can fail: after an undisturbed run, a cell lookup can be
    followed by an undisturbed run that builds its key twice if and only if it comes late.
   */
  lemma SecondBuildIff(steps: seq<Step>, i: nat)
    requires ValidRun(Init, steps) && Undisturbed(Init, steps) && Enabled(Run(Init, steps), TakeCell(i))
    ensures var s := Run(Init, steps);
            LateLookup(s, i) <==> CanBuildTwice(Apply(s, TakeCell(i)), s.tasks[i].key)
  {
    InitInv();
    RunInv(Init, steps);
    OneCellRun(Init, steps);
    var s := Run(Init, steps);
    if LateLookup(s, i) {
      LateLookupBuildsAgain(s, i);
    } else {
      StepInv(s, TakeCell(i));
      OneCellTake(s, i);
      OneCellBuildsOnce(Apply(s, TakeCell(i)), s.tasks[i].key);
    }
  }

  lemma OneCellBuildsOnce(s: State, key: string)
    requires Inv(s) && OneCellInv(s)
    ensures !CanBuildTwice(s, key)
  {
    forall more | ValidRun(s, more) && Undisturbed(s, more) ensures !BuiltTwice(Run(s, more), key) {
      RunInv(s, more);
      OneCellRun(s, more);
      NeverBuiltTwice(Run(s, more), key);
    }
  }

  lemma NeverBuiltTwice(s: State, key: string)
    requires Inv(s) && OneCellInv(s)
    ensures !BuiltTwice(s, key)
  {
    forall a, b | 0 <= a < b < |s.builds| ensures !(s.builds[a].key == s.builds[b].key == key) {
      if s.builds[a].key == s.builds[b].key { OneBuildPerKey(s, s.builds[a], s.builds[b]); }
    }
  }
}

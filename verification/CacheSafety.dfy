/** Freshness and collapse of the provider cache, over every interleaving. */
module CacheSafety {
  import opened Options
  import opened CacheProtocol

  // ----- Invariant ----------------------------------------------------------------------

  ghost predicate CellInv(s: State, c: nat)
    requires c < |s.cells|
  {
    var cell := s.cells[c];
    && cell.created < s.clock
    && (cell.builder.Some? ==>
          && cell.builder.value < |s.tasks| && s.tasks[cell.builder.value].Building?
          && s.tasks[cell.builder.value].cell == c && cell.value.None? && cell.created <= cell.started)
    && (cell.value.Some? ==>
          var v := cell.value.value; v.key == cell.key && v.cell == c && cell.created <= v.started && v in s.builds)
  }

  /** A cell taken after the last evict of its key was created after it. */
  predicate TakenFresh(s: State, key: string, taken: nat, since: nat) {
    key in s.evicted && taken > s.evicted[key] ==> since > s.evicted[key]
  }

  predicate CellTaken(s: State, key: string, c: nat, taken: nat) {
    c < |s.cells| && s.cells[c].key == key && taken < s.clock && TakenFresh(s, key, taken, s.cells[c].created)
  }

  ghost predicate TaskInv(s: State, i: nat)
    requires i < |s.tasks|
  {
    match s.tasks[i]
    case Waiting(key, c, taken) =>
      CellTaken(s, key, c, taken)
    case Building(key, c, taken) =>
      && CellTaken(s, key, c, taken)
      && s.cells[c].builder == Some(i)
    case Publishing(key, c, taken, v) =>
      && CellTaken(s, key, c, taken)
      && s.cells[c].value == Some(v)
    case Clearing(key, v) => v.key == key && v in s.builds
    case Returned(key, result) => result.Some? ==> result.value.key == key && result.value in s.builds
    case _ => true
  }

  ghost predicate MapInv(s: State) {
    && (forall key :: key in s.evicted ==> s.evicted[key] < s.clock)
    && (forall key :: key in s.inFlight ==>
          && s.inFlight[key] < |s.cells| && s.cells[s.inFlight[key]].key == key
          && (key in s.evicted ==> s.cells[s.inFlight[key]].created > s.evicted[key]))
    && (forall key :: key in s.warm ==>
          && s.warm[key].value.key == key && s.warm[key].value in s.builds && s.warm[key].taken < s.clock
          && TakenFresh(s, key, s.warm[key].taken, s.warm[key].value.started))
  }

  /** Every success sits in its cell, so a cell succeeds at most once. */
  ghost predicate BuildInv(s: State) {
    && (forall b :: 0 <= b < |s.builds| ==>
          s.builds[b].cell < |s.cells| && s.cells[s.builds[b].cell].value == Some(s.builds[b]))
    && (forall a, b :: 0 <= a < b < |s.builds| ==> s.builds[a].cell != s.builds[b].cell)
  }

  ghost predicate Inv(s: State) {
    && MapInv(s) && BuildInv(s)
    && (forall c :: 0 <= c < |s.cells| ==> CellInv(s, c))
    && (forall i :: 0 <= i < |s.tasks| ==> TaskInv(s, i))
  }

  lemma InitInv()
    ensures Inv(Init)
  {}

  // ----- Every step keeps it ------------------------------------------------------------

  /** Cells keep their identity and their value, the logs grow, an evict is stamped now. */
  ghost predicate Extends(s: State, s': State) {
    && s'.clock == s.clock + 1 && |s.cells| <= |s'.cells| && |s.tasks| <= |s'.tasks| && s.builds <= s'.builds
    && (forall c :: 0 <= c < |s.cells| ==>
          && s'.cells[c].key == s.cells[c].key && s'.cells[c].created == s.cells[c].created
          && (s.cells[c].value.Some? ==> s'.cells[c].value == s.cells[c].value))
    && (forall key :: key in s'.evicted ==>
          (key in s.evicted && s'.evicted[key] == s.evicted[key]) || s'.evicted[key] == s.clock)
  }

  /** A task that did not move keeps its part of the invariant, if its cell kept its builder. */
  lemma TaskKept(s: State, s': State, j: nat)
    requires Extends(s, s') && j < |s.tasks| && s'.tasks[j] == s.tasks[j] && TaskInv(s, j)
    requires s.tasks[j].Building? ==> s'.cells[s.tasks[j].cell].builder == s.cells[s.tasks[j].cell].builder
    ensures TaskInv(s', j)
  {}

  /** A cell that did not change keeps its part, if its builder is still building. */
  lemma CellKept(s: State, s': State, c: nat)
    requires Extends(s, s') && c < |s.cells| && s'.cells[c] == s.cells[c] && CellInv(s, c)
    requires s.cells[c].builder.Some? ==> s'.tasks[s.cells[c].builder.value] == s.tasks[s.cells[c].builder.value]
    ensures CellInv(s', c)
  {}

  /** A step that moves task `i` only, from and to phases that build nothing. */
  lemma MoveInv(s: State, i: nat, task: Task)
    requires Inv(s) && i < |s.tasks| && !s.tasks[i].Building? && TaskInv(Move(s, i, task), i)
    ensures Inv(Move(s, i, task))
  {
    var s' := Move(s, i, task);
    KeepOthers(s, s', i);
  }

  lemma KeepOthers(s: State, s': State, i: nat)
    requires Inv(s) && Extends(s, s') && i < |s.tasks| == |s'.tasks| && !s.tasks[i].Building?
    requires s'.cells == s.cells
    requires forall j :: 0 <= j < |s.tasks| && j != i ==> s'.tasks[j] == s.tasks[j]
    ensures forall j :: 0 <= j < |s.tasks| && j != i ==> TaskInv(s', j)
    ensures forall c :: 0 <= c < |s.cells| ==> CellInv(s', c)
  {
    forall j | 0 <= j < |s.tasks| && j != i ensures TaskInv(s', j) { TaskKept(s, s', j); }
    forall c | 0 <= c < |s.cells| ensures CellInv(s', c) {
      assert CellInv(s, c);
      CellKept(s, s', c);
    }
  }

  lemma SpawnInv(s: State, task: Task)
    requires Inv(s) && (task.Probing? || task.EvictingWarm?)
    ensures Inv(Spawn(s, task))
  {
    var s' := Spawn(s, task);
    forall j | 0 <= j < |s'.tasks| ensures TaskInv(s', j) {
      if j < |s.tasks| { TaskKept(s, s', j); }
    }
    forall c | 0 <= c < |s.cells| ensures CellInv(s', c) {
      assert CellInv(s, c);
      CellKept(s, s', c);
    }
  }

  lemma TakeCellInv(s: State, i: nat)
    requires Inv(s) && Enabled(s, TakeCell(i))
    ensures Inv(Apply(s, TakeCell(i)))
  {
    var s' := Apply(s, TakeCell(i));
    var key := s.tasks[i].key;
    if key in s.inFlight {
      MoveInv(s, i, s'.tasks[i]);
    } else {
      NewCellKeeps(s, i);
    }
  }

  lemma NewCellKeeps(s: State, i: nat)
    requires Inv(s) && Enabled(s, TakeCell(i)) && s.tasks[i].key !in s.inFlight
    ensures Inv(Apply(s, TakeCell(i)))
  {
    var s' := Apply(s, TakeCell(i));
    assert Extends(s, s');
    forall j | 0 <= j < |s'.tasks| ensures TaskInv(s', j) {
      if j != i { TaskKept(s, s', j); }
    }
    forall c | 0 <= c < |s'.cells| ensures CellInv(s', c) {
      if c < |s.cells| {
        assert CellInv(s, c);
        CellKept(s, s', c);
      }
    }
  }

  /** A step that changes task `i` and the cell it holds: others are kept unless they share its builder. */
  lemma KeepOthersButCell(s: State, s': State, i: nat, c: nat)
    requires Inv(s) && Extends(s, s') && i < |s.tasks| == |s'.tasks| && c < |s.cells| == |s'.cells|
    requires s.cells[c].builder.None? || s.cells[c].builder == Some(i)
    requires s.tasks[i].Building? ==> s.tasks[i].cell == c
    requires forall j :: 0 <= j < |s.tasks| && j != i ==> s'.tasks[j] == s.tasks[j]
    requires forall d :: 0 <= d < |s.cells| && d != c ==> s'.cells[d] == s.cells[d]
    ensures forall j :: 0 <= j < |s.tasks| && j != i ==> TaskInv(s', j)
    ensures forall d :: 0 <= d < |s.cells| && d != c ==> CellInv(s', d)
  {
    forall j | 0 <= j < |s.tasks| && j != i ensures TaskInv(s', j) {
      assert TaskInv(s, j);
      TaskKept(s, s', j);
    }
    forall d | 0 <= d < |s.cells| && d != c ensures CellInv(s', d) {
      assert CellInv(s, d);
      CellKept(s, s', d);
    }
  }

  lemma EnterInv(s: State, i: nat)
    requires Inv(s) && Enabled(s, Enter(i))
    ensures Inv(Apply(s, Enter(i)))
  {
    var s' := Apply(s, Enter(i));
    var c := s.tasks[i].cell;
    assert TaskInv(s, i) && CellInv(s, c);
    if s.cells[c].value.Some? {
      MoveInv(s, i, s'.tasks[i]);
    } else {
      StartBuildInv(s, i);
    }
  }

  lemma StartBuildInv(s: State, i: nat)
    requires Inv(s) && Enabled(s, Enter(i)) && s.cells[s.tasks[i].cell].value.None?
    ensures Inv(Apply(s, Enter(i)))
  {
    var s' := Apply(s, Enter(i));
    var c := s.tasks[i].cell;
    assert TaskInv(s, i) && CellInv(s, c);
    assert Extends(s, s');
    KeepOthersButCell(s, s', i, c);
    assert TaskInv(s', i) && CellInv(s', c);
  }

  lemma BuildOkInv(s: State, i: nat)
    requires Inv(s) && Enabled(s, BuildOk(i))
    ensures Inv(Apply(s, BuildOk(i)))
  {
    var s' := Apply(s, BuildOk(i));
    var c := s.tasks[i].cell;
    assert TaskInv(s, i) && CellInv(s, c);
    BuildOkLogged(s, i);
    assert Extends(s, s');
    KeepOthersButCell(s, s', i, c);
    assert s'.builds[|s.builds|] == s'.tasks[i].value;
    assert CellInv(s', c);
    assert TaskInv(s', i);
  }

  /** The new success is the first of its cell, and the maps still point at logged successes. */
  lemma BuildOkLogged(s: State, i: nat)
    requires Inv(s) && Enabled(s, BuildOk(i))
    ensures BuildInv(Apply(s, BuildOk(i))) && MapInv(Apply(s, BuildOk(i)))
  {
    var c := s.tasks[i].cell;
    assert TaskInv(s, i) && CellInv(s, c);
    assert forall b :: 0 <= b < |s.builds| ==> s.builds[b].cell != c;
  }

  /** A failed or abandoned build leaves its cell empty for the next task. */
  function Released(s: State, i: nat): State
    requires i < |s.tasks| && s.tasks[i].Building? && s.tasks[i].cell < |s.cells|
  {
    var c := s.tasks[i].cell;
    var cell := s.cells[c];
    MoveCell(s, i, Returned(s.tasks[i].key, None), c, Cell(cell.key, cell.created, None, cell.started, cell.value))
  }

  lemma ReleasedInv(s: State, i: nat)
    requires i < |s.tasks| && s.tasks[i].Building? && s.tasks[i].cell < |s.cells| && Inv(s)
    ensures Inv(Released(s, i))
  {
    var s' := Released(s, i);
    var c := s.tasks[i].cell;
    assert TaskInv(s, i) && CellInv(s, c);
    assert forall b :: 0 <= b < |s.builds| ==> s.builds[b].cell != c;
    assert Extends(s, s');
    KeepOthersButCell(s, s', i, c);
    assert CellInv(s', c);
  }

  lemma PublishInv(s: State, i: nat)
    requires Inv(s) && Enabled(s, Publish(i))
    ensures Inv(Apply(s, Publish(i)))
  {
    var s' := Apply(s, Publish(i));
    assert TaskInv(s, i) && CellInv(s, s.tasks[i].cell);
    KeepOthers(s, s', i);
    assert TaskInv(s', i);
  }

  lemma ClearInv(s: State, i: nat)
    requires Inv(s) && Enabled(s, Clear(i))
    ensures Inv(Apply(s, Clear(i)))
  {
    var s' := Apply(s, Clear(i));
    assert TaskInv(s, i);
    KeepOthers(s, s', i);
    assert TaskInv(s', i);
  }

  lemma EvictWarmInv(s: State, i: nat)
    requires Inv(s) && Enabled(s, EvictWarm(i))
    ensures Inv(Apply(s, EvictWarm(i)))
  {
    KeepOthers(s, Apply(s, EvictWarm(i)), i);
  }

  lemma EvictCellInv(s: State, i: nat)
    requires Inv(s) && Enabled(s, EvictCell(i))
    ensures Inv(Apply(s, EvictCell(i)))
  {
    KeepOthers(s, Apply(s, EvictCell(i)), i);
  }

  lemma StepInv(s: State, step: Step)
    requires Inv(s) && Enabled(s, step)
    ensures Inv(Apply(s, step))
  {
    match step
    case CallGet(key) => SpawnInv(s, Probing(key));
    case CallEvict(key) => SpawnInv(s, EvictingWarm(key));
    case Probe(i) => MoveInv(s, i, Apply(s, step).tasks[i]);
    case TakeCell(i) => TakeCellInv(s, i);
    case Enter(i) => EnterInv(s, i);
    case BuildOk(i) => BuildOkInv(s, i);
    case BuildErr(i) => ReleasedInv(s, i);
    case Abandon(i) =>
      if s.tasks[i].Building? { ReleasedInv(s, i); } else { MoveInv(s, i, Apply(s, step).tasks[i]); }
    case Publish(i) => PublishInv(s, i);
    case Clear(i) => ClearInv(s, i);
    case EvictWarm(i) => EvictWarmInv(s, i);
    case EvictCell(i) => EvictCellInv(s, i);
  }

  lemma {:induction false} RunInv(s: State, steps: seq<Step>)
    requires Inv(s) && ValidRun(s, steps)
    ensures Inv(Run(s, steps))
    decreases |steps|
  {
    if steps != [] {
      StepInv(s, steps[0]);
      RunInv(Apply(s, steps[0]), steps[1..]);
    }
  }
}

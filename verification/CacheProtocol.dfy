/**
  The provider cache as a protocol: a warm map, a map of per-key once-cells, and any number
  of `get` and `evict` calls whose map operations interleave one by one.
 */
module CacheProtocol {
  import opened Options

  /** A successfully built provider: when its build began and which cell holds it. */
  datatype Built = Built(key: string, cell: nat, started: nat)

  /** A once-cell: empty, being initialised by one task, or holding its value for good. */
  datatype Cell = Cell(key: string, created: nat, builder: Option<nat>, started: nat, value: Option<Built>)

  /** A warm entry remembers when its publisher had taken its cell. */
  datatype Warm = Warm(value: Built, taken: nat)

  datatype Task =
    | Probing(key: string)
    | NeedsCell(key: string)
    | Waiting(key: string, cell: nat, taken: nat)
    | Building(key: string, cell: nat, taken: nat)
    | Publishing(key: string, cell: nat, taken: nat, value: Built)
    | Clearing(key: string, value: Built)
    | Returned(key: string, result: Option<Built>)
    | EvictingWarm(key: string)
    | EvictingCell(key: string)
    | Evicted(key: string)

  /** `evicted` is the completion time of the last evict of a key; `builds` logs the successes. */
  datatype State = State(clock: nat, warm: map<string, Warm>, inFlight: map<string, nat>, cells: seq<Cell>,
                         tasks: seq<Task>, evicted: map<string, nat>, builds: seq<Built>)

  const Init := State(1, map[], map[], [], [], map[], [])

  datatype Step =
    | CallGet(key: string)
    | CallEvict(key: string)
    | Probe(i: nat)
    | TakeCell(i: nat)
    | Enter(i: nat)
    | BuildOk(i: nat)
    | BuildErr(i: nat)
    | Abandon(i: nat)
    | Publish(i: nat)
    | Clear(i: nat)
    | EvictWarm(i: nat)
    | EvictCell(i: nat)

  predicate HoldsCell(task: Task) { task.Waiting? || task.Building? || task.Publishing? }

  /** A waiter goes ahead when the cell has a value, or is empty and nobody is building. */
  predicate Enabled(s: State, step: Step) {
    match step
    case CallGet(_) => true
    case CallEvict(_) => true
    case Probe(i) => i < |s.tasks| && s.tasks[i].Probing?
    case TakeCell(i) => i < |s.tasks| && s.tasks[i].NeedsCell?
    case Enter(i) =>
      i < |s.tasks| && s.tasks[i].Waiting? && s.tasks[i].cell < |s.cells| && s.cells[s.tasks[i].cell].builder.None?
    case BuildOk(i) => i < |s.tasks| && s.tasks[i].Building? && s.tasks[i].cell < |s.cells|
    case BuildErr(i) => i < |s.tasks| && s.tasks[i].Building? && s.tasks[i].cell < |s.cells|
    case Abandon(i) => i < |s.tasks| && (s.tasks[i].Waiting? || s.tasks[i].Building?) && s.tasks[i].cell < |s.cells|
    case Publish(i) => i < |s.tasks| && s.tasks[i].Publishing?
    case Clear(i) => i < |s.tasks| && s.tasks[i].Clearing?
    case EvictWarm(i) => i < |s.tasks| && s.tasks[i].EvictingWarm?
    case EvictCell(i) => i < |s.tasks| && s.tasks[i].EvictingCell?
  }

  function Spawn(s: State, task: Task): State {
    State(s.clock + 1, s.warm, s.inFlight, s.cells, s.tasks + [task], s.evicted, s.builds)
  }

  function Move(s: State, i: nat, task: Task): State
    requires i < |s.tasks|
  { State(s.clock + 1, s.warm, s.inFlight, s.cells, s.tasks[i := task], s.evicted, s.builds) }

  function MoveCell(s: State, i: nat, task: Task, c: nat, cell: Cell): State
    requires i < |s.tasks| && c < |s.cells|
  { State(s.clock + 1, s.warm, s.inFlight, s.cells[c := cell], s.tasks[i := task], s.evicted, s.builds) }

  function Apply(s: State, step: Step): State
    requires Enabled(s, step)
  {
    match step
    case CallGet(key) => Spawn(s, Probing(key))
    case CallEvict(key) => Spawn(s, EvictingWarm(key))
    case Probe(i) =>
      var key := s.tasks[i].key;
      Move(s, i, if key in s.warm then Returned(key, Some(s.warm[key].value)) else NeedsCell(key))
    case TakeCell(i) =>
      var key := s.tasks[i].key;
      if key in s.inFlight then Move(s, i, Waiting(key, s.inFlight[key], s.clock))
      else State(s.clock + 1, s.warm, s.inFlight[key := |s.cells|], s.cells + [Cell(key, s.clock, None, 0, None)],
                 s.tasks[i := Waiting(key, |s.cells|, s.clock)], s.evicted, s.builds)
    case Enter(i) =>
      var Waiting(key, c, taken) := s.tasks[i];
      var cell := s.cells[c];
      if cell.value.Some? then Move(s, i, Publishing(key, c, taken, cell.value.value))
      else MoveCell(s, i, Building(key, c, taken), c, Cell(cell.key, cell.created, Some(i), s.clock, None))
    case BuildOk(i) =>
      var Building(key, c, taken) := s.tasks[i];
      var cell := s.cells[c];
      var v := Built(key, c, cell.started);
      State(s.clock + 1, s.warm, s.inFlight, s.cells[c := Cell(cell.key, cell.created, None, cell.started, Some(v))],
            s.tasks[i := Publishing(key, c, taken, v)], s.evicted, s.builds + [v])
    case BuildErr(i) =>
      var Building(key, c, _) := s.tasks[i];
      var cell := s.cells[c];
      MoveCell(s, i, Returned(key, None), c, Cell(cell.key, cell.created, None, cell.started, cell.value))
    case Abandon(i) =>
      var c := s.tasks[i].cell;
      var cell := s.cells[c];
      if s.tasks[i].Waiting? then Move(s, i, Returned(s.tasks[i].key, None))
      else
        var free := Cell(cell.key, cell.created, None, cell.started, cell.value);
        MoveCell(s, i, Returned(s.tasks[i].key, None), c, free)
    case Publish(i) =>
      var Publishing(key, _, taken, v) := s.tasks[i];
      State(s.clock + 1, s.warm[key := Warm(v, taken)], s.inFlight, s.cells, s.tasks[i := Clearing(key, v)],
            s.evicted, s.builds)
    case Clear(i) =>
      var Clearing(key, v) := s.tasks[i];
      State(s.clock + 1, s.warm, s.inFlight - {key}, s.cells, s.tasks[i := Returned(key, Some(v))], s.evicted, s.builds)
    case EvictWarm(i) =>
      var key := s.tasks[i].key;
      State(s.clock + 1, s.warm - {key}, s.inFlight, s.cells, s.tasks[i := EvictingCell(key)], s.evicted, s.builds)
    case EvictCell(i) =>
      var key := s.tasks[i].key;
      State(s.clock + 1, s.warm, s.inFlight - {key}, s.cells, s.tasks[i := Evicted(key)],
            s.evicted[key := s.clock], s.builds)
  }

  predicate ValidRun(s: State, steps: seq<Step>)
    decreases |steps|
  {
    steps == [] || (Enabled(s, steps[0]) && ValidRun(Apply(s, steps[0]), steps[1..]))
  }

  function Run(s: State, steps: seq<Step>): State
    requires ValidRun(s, steps)
    decreases |steps|
  {
    if steps == [] then s else Run(Apply(s, steps[0]), steps[1..])
  }

  lemma Prepend(s: State, step: Step, rest: seq<Step>)
    requires Enabled(s, step) && ValidRun(Apply(s, step), rest)
    ensures ValidRun(s, [step] + rest) && Run(s, [step] + rest) == Run(Apply(s, step), rest)
  {
    assert ([step] + rest)[1..] == rest;
  }

  lemma {:induction false} Concat(s: State, a: seq<Step>, b: seq<Step>)
    requires ValidRun(s, a) && ValidRun(Run(s, a), b)
    ensures ValidRun(s, a + b) && Run(s, a + b) == Run(Run(s, a), b)
    decreases |a|
  {
    if a == [] {
      assert a + b == b;
    } else {
      Concat(Apply(s, a[0]), a[1..], b);
      assert (a + b)[0] == a[0] && (a + b)[1..] == a[1..] + b;
    }
  }

  lemma Single(s: State, step: Step)
    requires Enabled(s, step)
    ensures ValidRun(s, [step]) && Run(s, [step]) == Apply(s, step)
  {
    Prepend(s, step, []);
    assert [step] + [] == [step];
  }
}

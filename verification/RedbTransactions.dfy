/**
  Concurrent calls on the bindings of a redb store.

  Rebinding a name and setting its source config read the row in one transaction and write
  it in another, so calls of other tasks may take effect in between; a delete is one
  transaction.  Tasks interleave freely.
 */
module RedbTransactions {
  import opened Options
  import opened Orders
  import opened MetaCalls
  import opened RedbStore

  type Rows = map<Pair, Entry>

  predicate OnBinding(call: Call) { call.UpsertBinding? || call.SetSourceConfig? || call.DeleteBinding? }

  predicate AllOnBindings(calls: seq<Call>) { forall i :: 0 <= i < |calls| ==> OnBinding(calls[i]) }

  function KeyOf(call: Call): Pair
    requires OnBinding(call)
  { Pair(call.org, call.name) }

  predicate SameKind(a: Call, b: Call) {
    || (a.UpsertBinding? && b.UpsertBinding?)
    || (a.SetSourceConfig? && b.SetSourceConfig?)
    || (a.DeleteBinding? && b.DeleteBinding?)
  }

  function Lookup(rows: Rows, k: Pair): Option<Entry> { if k in rows then Some(rows[k]) else None }

  function ConfigOf(row: Option<Entry>): Option<string> { if row.Some? then row.value.config else None }

  function BindingOf(row: Option<Entry>): Option<string> { if row.Some? then Some(row.value.binding) else None }

  // ----- Steps --------------------------------------------------------------------------

  /** How far a call has come; `seen` is the row it has read. */
  datatype Task = Ready | HasRead(seen: Option<Entry>) | Finished

  /** A call that has taken effect, and what it answered. */
  datatype Effect = Effect(call: Call, reply: Reply)

  datatype State = State(rows: Rows, tasks: seq<Task>, effects: seq<Effect>)

  function Start(rows: Rows, n: nat): State { State(rows, seq(n, _ => Ready), []) }

  datatype Step = Read(i: nat) | Write(i: nat) | Remove(i: nat)

  /** The row a call writes from the row it has read. */
  function Merged(call: Call, seen: Option<Entry>): Entry
    requires call.UpsertBinding? || (call.SetSourceConfig? && seen.Some?)
  {
    if call.UpsertBinding? then Entry(call.binding, ConfigOf(seen)) else Entry(seen.value.binding, Some(call.config))
  }

  /** A rebinding answers with the binding it has read. */
  function WriteReply(call: Call, seen: Option<Entry>): Reply {
    if call.UpsertBinding? then Previous(BindingOf(seen)) else Done
  }

  predicate Enabled(calls: seq<Call>, s: State, step: Step) {
    && step.i < |calls| == |s.tasks|
    && var call, task := calls[step.i], s.tasks[step.i];
       match step
       case Read(_) => task.Ready? && (call.UpsertBinding? || call.SetSourceConfig?)
       case Write(_) => task.HasRead? && (call.UpsertBinding? || (call.SetSourceConfig? && task.seen.Some?))
       case Remove(_) => task.Ready? && call.DeleteBinding?
  }

  /** Setting the config of an unknown name ends with the read. */
  function Apply(calls: seq<Call>, s: State, step: Step): State
    requires AllOnBindings(calls) && Enabled(calls, s, step)
  {
    var i := step.i;
    var call := calls[i];
    var k := KeyOf(call);
    match step
    case Read(_) =>
      if call.SetSourceConfig? && k !in s.rows then
        State(s.rows, s.tasks[i := Finished], s.effects + [Effect(call, Done)])
      else State(s.rows, s.tasks[i := HasRead(Lookup(s.rows, k))], s.effects)
    case Write(_) =>
      var seen := s.tasks[i].seen;
      State(s.rows[k := Merged(call, seen)], s.tasks[i := Finished], s.effects + [Effect(call, WriteReply(call, seen))])
    case Remove(_) =>
      State(s.rows - {k}, s.tasks[i := Finished], s.effects + [Effect(call, Flag(k in s.rows))])
  }

  predicate ValidRun(calls: seq<Call>, s: State, steps: seq<Step>)
    requires AllOnBindings(calls)
    decreases |steps|
  {
    steps == [] || (Enabled(calls, s, steps[0]) && ValidRun(calls, Apply(calls, s, steps[0]), steps[1..]))
  }

  function Run(calls: seq<Call>, s: State, steps: seq<Step>): State
    requires AllOnBindings(calls) && ValidRun(calls, s, steps)
    decreases |steps|
  {
    if steps == [] then s else Run(calls, Apply(calls, s, steps[0]), steps[1..])
  }

  // ----- One call after the other -------------------------------------------------------

  function ReplyTo(rows: Rows, call: Call): Reply
    requires OnBinding(call)
  {
    match call
    case UpsertBinding(_, _, _) => Previous(BindingOf(Lookup(rows, KeyOf(call))))
    case SetSourceConfig(_, _, _) => Done
    case DeleteBinding(_, _) => Flag(KeyOf(call) in rows)
  }

  /** The store's own answer. */
  lemma ReplyIsAnswer(key: Grant -> string, t: Tables, call: Call)
    requires OnBinding(call)
    ensures ReplyTo(t.entries, call) == Answer(key, t, call)
  {}

  function Replay(rows: Rows, effects: seq<Effect>): Rows
    decreases |effects|
  {
    if effects == [] then rows
    else NextEntries(Replay(rows, effects[..|effects| - 1]), effects[|effects| - 1].call)
  }

  /** Every call answered what it would have answered there. */
  predicate Truthful(rows: Rows, effects: seq<Effect>)
    decreases |effects|
  {
    effects == [] ||
    var before, last := effects[..|effects| - 1], effects[|effects| - 1];
    Truthful(rows, before) && OnBinding(last.call) && last.reply == ReplyTo(Replay(rows, before), last.call)
  }

  lemma ReplayNext(rows: Rows, effects: seq<Effect>, next: Effect)
    ensures Replay(rows, effects + [next]) == NextEntries(Replay(rows, effects), next.call)
    ensures OnBinding(next.call) ==>
              (Truthful(rows, effects + [next]) <==>
               Truthful(rows, effects) && next.reply == ReplyTo(Replay(rows, effects), next.call))
  {
    assert (effects + [next])[..|effects|] == effects;
  }

  lemma ReplayTwo(rows: Rows, a: Effect, b: Effect)
    ensures Replay(rows, [a, b]) == NextEntries(NextEntries(rows, a.call), b.call)
    ensures OnBinding(b.call) && Truthful(rows, [a, b]) ==> b.reply == ReplyTo(NextEntries(rows, a.call), b.call)
  {
    ReplayNext(rows, [], a);
    ReplayNext(rows, [a], b);
    assert [] + [a] == [a] && [a] + [b] == [a, b];
  }

  /** Some order of the calls that took effect, one after the other, leaves these rows. */
  ghost predicate Explained(rows: Rows, s: State) {
    exists order :: multiset(order) == multiset(s.effects) && Replay(rows, order) == s.rows
  }

  /** In some such order every call would also have answered what it did. */
  ghost predicate FullyExplained(rows: Rows, s: State) {
    exists order :: multiset(order) == multiset(s.effects) && Replay(rows, order) == s.rows && Truthful(rows, order)
  }

  // ----- When a write is the call -------------------------------------------------------

  /** The part of the row that the call means to keep is still what it read. */
  predicate Undisturbed(call: Call, seen: Option<Entry>, now: Option<Entry>) {
    if call.UpsertBinding? then ConfigOf(seen) == ConfigOf(now)
    else now.Some? && BindingOf(seen) == BindingOf(now)
  }

  /**
    A write has the effect of the whole call, made at that moment, if and only if the part
    of the row it means to keep has not changed since the read.  Otherwise an update or a
    delete made in between is lost.
   */
  lemma WriteIsTheCallIff(rows: Rows, call: Call, seen: Option<Entry>)
    requires call.UpsertBinding? || (call.SetSourceConfig? && seen.Some?)
    ensures rows[KeyOf(call) := Merged(call, seen)] == NextEntries(rows, call) <==>
            Undisturbed(call, seen, Lookup(rows, KeyOf(call)))
  {
    var k := KeyOf(call);
    var written, next := rows[k := Merged(call, seen)], NextEntries(rows, call);
    assert k in written;
    if Undisturbed(call, seen, Lookup(rows, k)) {
      assert written == next;
    } else {
      assert k !in next || written[k] != next[k];
    }
  }

  // ----- Every interleaving -------------------------------------------------------------

  /** Calls on one name are all of one kind. */
  predicate OneKindPerName(calls: seq<Call>)
    requires AllOnBindings(calls)
  {
    forall i, j :: 0 <= i < |calls| && 0 <= j < |calls| && KeyOf(calls[i]) == KeyOf(calls[j]) ==>
      SameKind(calls[i], calls[j])
  }

  predicate TaskInv(calls: seq<Call>, s: State, i: nat)
    requires AllOnBindings(calls) && i < |calls| == |s.tasks|
  {
    s.tasks[i].HasRead? ==>
      && (calls[i].UpsertBinding? || (calls[i].SetSourceConfig? && s.tasks[i].seen.Some?))
      && Undisturbed(calls[i], s.tasks[i].seen, Lookup(s.rows, KeyOf(calls[i])))
  }

  predicate Inv(calls: seq<Call>, rows: Rows, s: State)
    requires AllOnBindings(calls)
  {
    && |s.tasks| == |calls|
    && s.rows == Replay(rows, s.effects)
    && forall i :: 0 <= i < |calls| ==> TaskInv(calls, s, i)
  }

  /** A call of the same kind, or on another name, disturbs no task that has read. */
  lemma StepKeepsTask(calls: seq<Call>, s: State, step: Step, j: nat)
    requires AllOnBindings(calls) && OneKindPerName(calls) && Enabled(calls, s, step) && j < |calls|
    requires TaskInv(calls, s, j) && TaskInv(calls, s, step.i)
    ensures TaskInv(calls, Apply(calls, s, step), j)
  {
    assert KeyOf(calls[step.i]) == KeyOf(calls[j]) ==> SameKind(calls[step.i], calls[j]);
  }

  lemma StepKeepsReplay(calls: seq<Call>, rows: Rows, s: State, step: Step)
    requires AllOnBindings(calls) && Enabled(calls, s, step) && s.rows == Replay(rows, s.effects)
    requires TaskInv(calls, s, step.i)
    ensures var s' := Apply(calls, s, step); s'.rows == Replay(rows, s'.effects)
  {
    var call := calls[step.i];
    var s' := Apply(calls, s, step);
    if |s.effects| < |s'.effects| { ReplayNext(rows, s.effects, s'.effects[|s.effects|]); }
    if step.Write? { WriteIsTheCallIff(s.rows, call, s.tasks[step.i].seen); }
  }

  lemma StepInv(calls: seq<Call>, rows: Rows, s: State, step: Step)
    requires AllOnBindings(calls) && OneKindPerName(calls) && Inv(calls, rows, s) && Enabled(calls, s, step)
    ensures Inv(calls, rows, Apply(calls, s, step))
  {
    var s' := Apply(calls, s, step);
    assert TaskInv(calls, s, step.i);
    StepKeepsReplay(calls, rows, s, step);
    forall j | 0 <= j < |calls| ensures TaskInv(calls, s', j) {
      assert TaskInv(calls, s, j);
      StepKeepsTask(calls, s, step, j);
    }
  }

  lemma {:induction false} RunInv(calls: seq<Call>, rows: Rows, s: State, steps: seq<Step>)
    requires AllOnBindings(calls) && OneKindPerName(calls) && Inv(calls, rows, s) && ValidRun(calls, s, steps)
    ensures Inv(calls, rows, Run(calls, s, steps))
    decreases |steps|
  {
    if steps != [] {
      StepInv(calls, rows, s, steps[0]);
      RunInv(calls, rows, Apply(calls, s, steps[0]), steps[1..]);
    }
  }

  // ----- Lost updates -------------------------------------------------------------------

  lemma TwoOrders(order: seq<Effect>, a: Effect, b: Effect)
    requires multiset(order) == multiset([a, b])
    ensures order == [a, b] || order == [b, a]
  {
    assert |multiset(order)| == |order| && |multiset([a, b])| == 2;
    assert order == [order[0]] + [order[1]];
    assert order[0] in multiset([a, b]) && order[1] in multiset([a, b]);
    assert multiset(order) == multiset{order[0], order[1]} && multiset([a, b]) == multiset{a, b};
  }

  /** Rows that neither order of two calls leaves are not explained. */
  lemma NotExplained(rows: Rows, s: State, a: Effect, b: Effect)
    requires s.effects == [a, b]
    requires s.rows != NextEntries(NextEntries(rows, a.call), b.call)
    requires s.rows != NextEntries(NextEntries(rows, b.call), a.call)
    ensures !Explained(rows, s)
  {
    forall order | multiset(order) == multiset(s.effects) ensures Replay(rows, order) != s.rows {
      TwoOrders(order, a, b);
      ReplayTwo(rows, a, b);
      ReplayTwo(rows, b, a);
    }
  }

  lemma OneStep(calls: seq<Call>, s: State, step: Step, rest: seq<Step>)
    requires AllOnBindings(calls) && Enabled(calls, s, step) && ValidRun(calls, Apply(calls, s, step), rest)
    ensures ValidRun(calls, s, [step] + rest)
    ensures Run(calls, s, [step] + rest) == Run(calls, Apply(calls, s, step), rest)
  {
    assert ([step] + rest)[1..] == rest;
  }

  /** Task `i` reads, task `j` takes effect as a whole, and then `i` writes. */
  lemma ReadBeforeWrite(calls: seq<Call>, rows: Rows, i: nat, j: nat, between: State, middle: seq<Step>)
    returns (steps: seq<Step>)
    requires AllOnBindings(calls) && i < |calls| && j < |calls| && i != j
    requires calls[i].UpsertBinding? || (calls[i].SetSourceConfig? && KeyOf(calls[i]) in rows)
    requires var s1 := Apply(calls, Start(rows, |calls|), Read(i));
             ValidRun(calls, s1, middle) && Run(calls, s1, middle) == between
    requires |between.tasks| == |calls| && between.tasks[i] == HasRead(Lookup(rows, KeyOf(calls[i])))
    ensures ValidRun(calls, Start(rows, |calls|), steps)
    ensures var s := Run(calls, Start(rows, |calls|), steps);
            var seen := Lookup(rows, KeyOf(calls[i]));
            && s.rows == between.rows[KeyOf(calls[i]) := Merged(calls[i], seen)]
            && s.effects == between.effects + [Effect(calls[i], WriteReply(calls[i], seen))]
  {
    var s0 := Start(rows, |calls|);
    var s1 := Apply(calls, s0, Read(i));
    OneStep(calls, between, Write(i), []);
    RunConcat(calls, s1, middle, [Write(i)] + []);
    OneStep(calls, s0, Read(i), middle + ([Write(i)] + []));
    steps := [Read(i)] + (middle + ([Write(i)] + []));
  }

  lemma {:induction false} RunConcat(calls: seq<Call>, s: State, a: seq<Step>, b: seq<Step>)
    requires AllOnBindings(calls) && ValidRun(calls, s, a) && ValidRun(calls, Run(calls, s, a), b)
    ensures ValidRun(calls, s, a + b) && Run(calls, s, a + b) == Run(calls, Run(calls, s, a), b)
    decreases |a|
  {
    if a == [] {
      assert a + b == b;
    } else {
      RunConcat(calls, Apply(calls, s, a[0]), a[1..], b);
      assert (a + b)[0] == a[0] && (a + b)[1..] == a[1..] + b;
    }
  }

  /** A config set on the old binding undoes a rebinding made in between. */
  lemma RebindingIsLost(calls: seq<Call>, u: nat, c: nat) returns (rows: Rows, steps: seq<Step>)
    requires AllOnBindings(calls) && u < |calls| && c < |calls|
    requires calls[u].UpsertBinding? && calls[c].SetSourceConfig? && KeyOf(calls[u]) == KeyOf(calls[c])
    ensures ValidRun(calls, Start(rows, |calls|), steps)
    ensures !Explained(rows, Run(calls, Start(rows, |calls|), steps))
  {
    var k, stored := KeyOf(calls[u]), Entry(calls[u].binding + "x", None);
    rows := map[k := stored];
    var s1 := Apply(calls, Start(rows, |calls|), Read(c));
    var s2 := Apply(calls, s1, Read(u));
    var s3 := Apply(calls, s2, Write(u));
    OneStep(calls, s2, Write(u), []);
    OneStep(calls, s1, Read(u), [Write(u)] + []);
    steps := ReadBeforeWrite(calls, rows, c, u, s3, [Read(u)] + ([Write(u)] + []));
    var s := Run(calls, Start(rows, |calls|), steps);
    assert s.rows[k] == Entry(stored.binding, Some(calls[c].config));
    assert |stored.binding| != |calls[u].binding|;
    NotExplained(rows, s, s.effects[0], s.effects[1]);
  }

  /** A rebinding brings back the config of a name deleted in between. */
  lemma DeletedConfigComesBack(calls: seq<Call>, u: nat, d: nat) returns (rows: Rows, steps: seq<Step>)
    requires AllOnBindings(calls) && u < |calls| && d < |calls|
    requires calls[u].UpsertBinding? && calls[d].DeleteBinding? && KeyOf(calls[u]) == KeyOf(calls[d])
    ensures ValidRun(calls, Start(rows, |calls|), steps)
    ensures !Explained(rows, Run(calls, Start(rows, |calls|), steps))
  {
    var k := KeyOf(calls[u]);
    rows := map[k := Entry("", Some(""))];
    var s1 := Apply(calls, Start(rows, |calls|), Read(u));
    var s2 := Apply(calls, s1, Remove(d));
    OneStep(calls, s1, Remove(d), []);
    steps := ReadBeforeWrite(calls, rows, u, d, s2, [Remove(d)] + []);
    var s := Run(calls, Start(rows, |calls|), steps);
    assert s.rows[k] == Entry(calls[u].binding, Some(""));
    NotExplained(rows, s, s.effects[0], s.effects[1]);
  }

  /** A config set on the old binding brings a deleted name back. */
  lemma DeleteIsUndone(calls: seq<Call>, c: nat, d: nat) returns (rows: Rows, steps: seq<Step>)
    requires AllOnBindings(calls) && c < |calls| && d < |calls|
    requires calls[c].SetSourceConfig? && calls[d].DeleteBinding? && KeyOf(calls[c]) == KeyOf(calls[d])
    ensures ValidRun(calls, Start(rows, |calls|), steps)
    ensures !Explained(rows, Run(calls, Start(rows, |calls|), steps))
  {
    var k := KeyOf(calls[c]);
    rows := map[k := Entry("", None)];
    var s1 := Apply(calls, Start(rows, |calls|), Read(c));
    var s2 := Apply(calls, s1, Remove(d));
    OneStep(calls, s1, Remove(d), []);
    steps := ReadBeforeWrite(calls, rows, c, d, s2, [Remove(d)] + []);
    var s := Run(calls, Start(rows, |calls|), steps);
    assert k in s.rows;
    NotExplained(rows, s, s.effects[0], s.effects[1]);
  }

  lemma MixedCallsLose(calls: seq<Call>, i: nat, j: nat) returns (rows: Rows, steps: seq<Step>)
    requires AllOnBindings(calls) && i < |calls| && j < |calls|
    requires KeyOf(calls[i]) == KeyOf(calls[j]) && !SameKind(calls[i], calls[j])
    ensures ValidRun(calls, Start(rows, |calls|), steps)
    ensures !Explained(rows, Run(calls, Start(rows, |calls|), steps))
  {
    match (calls[i], calls[j])
    case (UpsertBinding(_, _, _), SetSourceConfig(_, _, _)) => rows, steps := RebindingIsLost(calls, i, j);
    case (SetSourceConfig(_, _, _), UpsertBinding(_, _, _)) => rows, steps := RebindingIsLost(calls, j, i);
    case (UpsertBinding(_, _, _), DeleteBinding(_, _)) => rows, steps := DeletedConfigComesBack(calls, i, j);
    case (DeleteBinding(_, _), UpsertBinding(_, _, _)) => rows, steps := DeletedConfigComesBack(calls, j, i);
    case (SetSourceConfig(_, _, _), DeleteBinding(_, _)) => rows, steps := DeleteIsUndone(calls, i, j);
    case (DeleteBinding(_, _), SetSourceConfig(_, _, _)) => rows, steps := DeleteIsUndone(calls, j, i);
  }

  /** Whatever was stored and however the calls interleave, the rows are those of some order of them. */
  ghost predicate AlwaysExplained(calls: seq<Call>)
    requires AllOnBindings(calls)
  {
    forall rows, steps ::
      ValidRun(calls, Start(rows, |calls|), steps) ==> Explained(rows, Run(calls, Start(rows, |calls|), steps))
  }

  /**
    Calls issued at once leave rows that some order of them would leave, on every store and
    in every interleaving, if and only if the calls on each name are all of one kind.
   */
  lemma ConcurrentCallsExplainedIff(calls: seq<Call>)
    requires AllOnBindings(calls)
    ensures AlwaysExplained(calls) <==> OneKindPerName(calls)
  {
    if OneKindPerName(calls) {
      forall rows, steps | ValidRun(calls, Start(rows, |calls|), steps)
        ensures Explained(rows, Run(calls, Start(rows, |calls|), steps))
      {
        RunInv(calls, rows, Start(rows, |calls|), steps);
        var s := Run(calls, Start(rows, |calls|), steps);
        assert multiset(s.effects) == multiset(s.effects) && Replay(rows, s.effects) == s.rows;
      }
    } else {
      var i, j :| 0 <= i < |calls| && 0 <= j < |calls| && KeyOf(calls[i]) == KeyOf(calls[j])
                  && !SameKind(calls[i], calls[j]);
      var rows, steps := MixedCallsLose(calls, i, j);
    }
  }

  // ----- Every call once ----------------------------------------------------------------

  function CallsOf(effects: seq<Effect>): seq<Call> {
    seq(|effects|, i requires 0 <= i < |effects| => effects[i].call)
  }

  /** The calls whose tasks have finished. */
  function FinishedCalls(calls: seq<Call>, tasks: seq<Task>): multiset<Call>
    requires |tasks| == |calls|
    decreases |calls|
  {
    if calls == [] then multiset{}
    else
      var n := |calls| - 1;
      FinishedCalls(calls[..n], tasks[..n]) + if tasks[n].Finished? then multiset{calls[n]} else multiset{}
  }

  lemma {:induction false} TaskMoves(calls: seq<Call>, tasks: seq<Task>, i: nat, task: Task)
    requires |tasks| == |calls| && i < |tasks| && !tasks[i].Finished?
    ensures FinishedCalls(calls, tasks[i := task]) ==
            FinishedCalls(calls, tasks) + if task.Finished? then multiset{calls[i]} else multiset{}
    decreases |calls|
  {
    var n := |calls| - 1;
    if i < n {
      TaskMoves(calls[..n], tasks[..n], i, task);
      assert tasks[i := task][..n] == tasks[..n][i := task];
    } else {
      assert tasks[i := task][..n] == tasks[..n];
    }
  }

  lemma {:induction false} AllFinished(calls: seq<Call>, tasks: seq<Task>)
    requires |tasks| == |calls| && forall i :: 0 <= i < |tasks| ==> tasks[i].Finished?
    ensures FinishedCalls(calls, tasks) == multiset(calls)
    decreases |calls|
  {
    if calls != [] {
      var n := |calls| - 1;
      AllFinished(calls[..n], tasks[..n]);
      assert calls == calls[..n] + [calls[n]];
    }
  }

  lemma {:induction false} NoneFinished(calls: seq<Call>, tasks: seq<Task>)
    requires |tasks| == |calls| && forall i :: 0 <= i < |tasks| ==> !tasks[i].Finished?
    ensures FinishedCalls(calls, tasks) == multiset{}
    decreases |calls|
  {
    if calls != [] { NoneFinished(calls[..|calls| - 1], tasks[..|calls| - 1]); }
  }

  lemma StepAccounts(calls: seq<Call>, s: State, step: Step)
    requires AllOnBindings(calls) && Enabled(calls, s, step)
    requires multiset(CallsOf(s.effects)) == FinishedCalls(calls, s.tasks)
    ensures var s' := Apply(calls, s, step);
            |s'.tasks| == |calls| && multiset(CallsOf(s'.effects)) == FinishedCalls(calls, s'.tasks)
  {
    var s' := Apply(calls, s, step);
    TaskMoves(calls, s.tasks, step.i, s'.tasks[step.i]);
    if |s.effects| < |s'.effects| {
      assert CallsOf(s'.effects) == CallsOf(s.effects) + [calls[step.i]];
    }
  }

  lemma {:induction false} RunAccounts(calls: seq<Call>, s: State, steps: seq<Step>)
    requires AllOnBindings(calls) && ValidRun(calls, s, steps) && |s.tasks| == |calls|
    requires multiset(CallsOf(s.effects)) == FinishedCalls(calls, s.tasks)
    ensures var s' := Run(calls, s, steps);
            |s'.tasks| == |calls| && multiset(CallsOf(s'.effects)) == FinishedCalls(calls, s'.tasks)
    decreases |steps|
  {
    if steps != [] {
      StepAccounts(calls, s, steps[0]);
      RunAccounts(calls, Apply(calls, s, steps[0]), steps[1..]);
    }
  }

  /**
    In every interleaving the calls that took effect are exactly those whose tasks have
    finished, each once; when all have, they are the calls.
   */
  lemma EveryCallOnce(calls: seq<Call>, rows: Rows, steps: seq<Step>)
    requires AllOnBindings(calls) && ValidRun(calls, Start(rows, |calls|), steps)
    ensures var s := Run(calls, Start(rows, |calls|), steps);
            && |s.tasks| == |calls| && multiset(CallsOf(s.effects)) == FinishedCalls(calls, s.tasks)
            && ((forall i :: 0 <= i < |s.tasks| ==> s.tasks[i].Finished?) ==>
                  multiset(CallsOf(s.effects)) == multiset(calls))
  {
    NoneFinished(calls, Start(rows, |calls|).tasks);
    RunAccounts(calls, Start(rows, |calls|), steps);
    var s := Run(calls, Start(rows, |calls|), steps);
    if forall i :: 0 <= i < |s.tasks| ==> s.tasks[i].Finished? { AllFinished(calls, s.tasks); }
  }

  /** A task that has not finished can do so by itself, in at most two transactions. */
  lemma TaskCanFinish(calls: seq<Call>, rows: Rows, before: seq<Step>, i: nat) returns (steps: seq<Step>)
    requires AllOnBindings(calls) && ValidRun(calls, Start(rows, |calls|), before) && i < |calls|
    ensures ValidRun(calls, Run(calls, Start(rows, |calls|), before), steps) && |steps| <= 2
    ensures var s' := Run(calls, Run(calls, Start(rows, |calls|), before), steps);
            i < |s'.tasks| && s'.tasks[i].Finished?
  {
    var s := Run(calls, Start(rows, |calls|), before);
    ReadersMayWrite(calls, Start(rows, |calls|), before);
    match s.tasks[i]
    case Finished => steps := [];
    case HasRead(_) =>
      OneStep(calls, s, Write(i), []);
      steps := [Write(i)] + [];
    case Ready =>
      if calls[i].DeleteBinding? {
        OneStep(calls, s, Remove(i), []);
        steps := [Remove(i)] + [];
      } else {
        var s1 := Apply(calls, s, Read(i));
        if s1.tasks[i].Finished? {
          OneStep(calls, s, Read(i), []);
          steps := [Read(i)] + [];
        } else {
          OneStep(calls, s1, Write(i), []);
          OneStep(calls, s, Read(i), [Write(i)] + []);
          steps := [Read(i)] + ([Write(i)] + []);
        }
      }
  }

  predicate CanWrite(calls: seq<Call>, s: State) {
    && |s.tasks| == |calls|
    && forall i :: 0 <= i < |calls| && s.tasks[i].HasRead? ==>
         calls[i].UpsertBinding? || (calls[i].SetSourceConfig? && s.tasks[i].seen.Some?)
  }

  lemma {:induction false} ReadersMayWrite(calls: seq<Call>, s: State, steps: seq<Step>)
    requires AllOnBindings(calls) && ValidRun(calls, s, steps) && CanWrite(calls, s)
    ensures CanWrite(calls, Run(calls, s, steps))
    decreases |steps|
  {
    if steps != [] { ReadersMayWrite(calls, Apply(calls, s, steps[0]), steps[1..]); }
  }

  // ----- Answers ------------------------------------------------------------------------

  /** No name is rebound by two of the calls. */
  predicate OneRebinding(calls: seq<Call>)
    requires AllOnBindings(calls)
  {
    forall i, j :: 0 <= i < j < |calls| && calls[i].UpsertBinding? && calls[j].UpsertBinding? ==>
      KeyOf(calls[i]) != KeyOf(calls[j])
  }

  /** A rebinding still finds the binding it has read. */
  predicate AnswerInv(calls: seq<Call>, s: State, i: nat)
    requires AllOnBindings(calls) && i < |calls| == |s.tasks|
  {
    s.tasks[i].HasRead? && calls[i].UpsertBinding? ==>
      BindingOf(s.tasks[i].seen) == BindingOf(Lookup(s.rows, KeyOf(calls[i])))
  }

  lemma StepKeepsAnswer(calls: seq<Call>, s: State, step: Step, j: nat)
    requires AllOnBindings(calls) && OneKindPerName(calls) && OneRebinding(calls) && Enabled(calls, s, step)
    requires j < |calls| && AnswerInv(calls, s, j)
    ensures AnswerInv(calls, Apply(calls, s, step), j)
  {
    assert KeyOf(calls[step.i]) == KeyOf(calls[j]) ==> SameKind(calls[step.i], calls[j]);
  }

  lemma StepIsTruthful(calls: seq<Call>, rows: Rows, s: State, step: Step)
    requires AllOnBindings(calls) && Enabled(calls, s, step) && s.rows == Replay(rows, s.effects)
    requires Truthful(rows, s.effects) && AnswerInv(calls, s, step.i)
    ensures Truthful(rows, Apply(calls, s, step).effects)
  {
    var s' := Apply(calls, s, step);
    if |s.effects| < |s'.effects| { ReplayNext(rows, s.effects, s'.effects[|s.effects|]); }
  }

  lemma {:induction false} RunIsTruthful(calls: seq<Call>, rows: Rows, s: State, steps: seq<Step>)
    requires AllOnBindings(calls) && OneKindPerName(calls) && OneRebinding(calls)
    requires Inv(calls, rows, s) && Truthful(rows, s.effects) && ValidRun(calls, s, steps)
    requires forall i :: 0 <= i < |calls| ==> AnswerInv(calls, s, i)
    ensures Truthful(rows, Run(calls, s, steps).effects)
    decreases |steps|
  {
    if steps != [] {
      var s' := Apply(calls, s, steps[0]);
      StepInv(calls, rows, s, steps[0]);
      StepIsTruthful(calls, rows, s, steps[0]);
      forall j | 0 <= j < |calls| ensures AnswerInv(calls, s', j) {
        StepKeepsAnswer(calls, s, steps[0], j);
      }
      RunIsTruthful(calls, rows, s', steps[1..]);
    }
  }

  /** Two rebindings of an unbound name that both found it unbound: in any order the second would not have. */
  lemma BothFindItUnbound(calls: seq<Call>, i: nat, j: nat) returns (steps: seq<Step>)
    requires AllOnBindings(calls) && i < |calls| && j < |calls| && i != j
    requires calls[i].UpsertBinding? && calls[j].UpsertBinding? && KeyOf(calls[i]) == KeyOf(calls[j])
    ensures ValidRun(calls, Start(map[], |calls|), steps)
    ensures !FullyExplained(map[], Run(calls, Start(map[], |calls|), steps))
  {
    var rows: Rows := map[];
    var s1 := Apply(calls, Start(rows, |calls|), Read(i));
    var s2 := Apply(calls, s1, Read(j));
    var s3 := Apply(calls, s2, Write(j));
    OneStep(calls, s2, Write(j), []);
    OneStep(calls, s1, Read(j), [Write(j)] + []);
    steps := ReadBeforeWrite(calls, rows, i, j, s3, [Read(j)] + ([Write(j)] + []));
    NotBothUnbound(Run(calls, Start(rows, |calls|), steps), calls[j], calls[i]);
  }

  lemma NotBothUnbound(s: State, a: Call, b: Call)
    requires a.UpsertBinding? && b.UpsertBinding? && KeyOf(a) == KeyOf(b)
    requires s.effects == [Effect(a, Previous(None)), Effect(b, Previous(None))]
    ensures !FullyExplained(map[], s)
  {
    var rows: Rows := map[];
    var first, second := Effect(a, Previous(None)), Effect(b, Previous(None));
    forall order | multiset(order) == multiset(s.effects) ensures !Truthful(rows, order) {
      TwoOrders(order, first, second);
      ReplayTwo(rows, first, second);
      ReplayTwo(rows, second, first);
    }
  }

  ghost predicate AlwaysFullyExplained(calls: seq<Call>)
    requires AllOnBindings(calls)
  {
    forall rows, steps ::
      ValidRun(calls, Start(rows, |calls|), steps) ==> FullyExplained(rows, Run(calls, Start(rows, |calls|), steps))
  }

  /**
    Rows and answers together are those of some order of the calls, on every store and in
    every interleaving, if and only if besides that no name is rebound twice.
   */
  lemma ConcurrentAnswersExplainedIff(calls: seq<Call>)
    requires AllOnBindings(calls)
    ensures AlwaysFullyExplained(calls) <==> OneKindPerName(calls) && OneRebinding(calls)
  {
    if OneKindPerName(calls) && OneRebinding(calls) {
      forall rows, steps | ValidRun(calls, Start(rows, |calls|), steps)
        ensures FullyExplained(rows, Run(calls, Start(rows, |calls|), steps))
      {
        RunInv(calls, rows, Start(rows, |calls|), steps);
        RunIsTruthful(calls, rows, Start(rows, |calls|), steps);
        var s := Run(calls, Start(rows, |calls|), steps);
        assert multiset(s.effects) == multiset(s.effects) && Replay(rows, s.effects) == s.rows;
      }
    } else if OneKindPerName(calls) {
      var i, j :| 0 <= i < j < |calls| && calls[i].UpsertBinding? && calls[j].UpsertBinding?
                  && KeyOf(calls[i]) == KeyOf(calls[j]);
      var steps := BothFindItUnbound(calls, i, j);
    } else {
      ConcurrentCallsExplainedIff(calls);
      var rows, steps :| ValidRun(calls, Start(rows, |calls|), steps)
                         && !Explained(rows, Run(calls, Start(rows, |calls|), steps));
      assert !FullyExplained(rows, Run(calls, Start(rows, |calls|), steps));
    }
  }
}

/**
  Crash recovery of the JSON store.

  A mutation changes the memory under the lock, then writes the whole document to a
  temporary file and renames it over the store's file.  Any of these may fail, a failed
  mutation keeps its change in memory, and the process may die between and during them.
  A write in progress is not abandoned while the process lives, and a rename is atomic.
 */
module Durability {
  import opened Options
  import opened MetaCalls
  import opened EmbeddedStore

  datatype Temp = NoTemp | Torn | Whole(doc: Orgs)

  datatype Phase = Idle | Changed | Written | Renamed | Failed | Down

  /**
    `states` are the memory states since the store was first opened, one per mutation that
    was not lost, `acked` the one the last `Ok` reported and `disk` the one last renamed
    into place.  Reopening the store loses the mutations after `disk` and no other.
   */
  datatype State = State(
    memory: Orgs,
    temp: Temp,
    file: Option<Orgs>,
    phase: Phase,
    states: seq<Orgs>,
    calls: seq<Call>,
    acked: nat,
    disk: nat)

  /** What opening the file yields; a missing file is an empty store. */
  function Loaded(file: Option<Orgs>): Orgs { if file.Some? then file.value else map[] }

  function Opened(temp: Temp, file: Option<Orgs>): State {
    State(Loaded(file), temp, file, Idle, [Loaded(file)], [], 0, 0)
  }

  /** The calls that reach `persist`: a delete or a config for a missing name returns before it. */
  predicate Persists(orgs: Orgs, call: Call) {
    match call
    case SetSourceConfig(org, name, _) => name in OrgOf(orgs, org).entries
    case DeleteBinding(org, name) => name in OrgOf(orgs, org).entries
    case Delete(kind, org, name) => name in NamedIn(OrgOf(orgs, org), kind)
    case DeleteRole(org, name) => name in OrgOf(orgs, org).roles
    case DeleteGrant(org, grant) => grant in OrgOf(orgs, org).grants
    case RemoveRoleMember(org, role, user) => HasMember(OrgOf(orgs, org).members, user, role)
    case _ => Creates(call)
  }

  datatype Step =
    | Mutate(call: Call)
    | WriteTemp
    | WriteTears
    | WriteFails
    | RenameTemp
    | RenameFails
    | RenameUnreported
    | AckOk
    | AckErr
    | Crash
    | CrashWhileWriting
    | Reopen

  predicate Enabled(s: State, step: Step) {
    match step
    case Mutate(call) => s.phase.Idle? && Persists(s.memory, call)
    case WriteTemp => s.phase.Changed?
    case WriteTears => s.phase.Changed?
    case WriteFails => s.phase.Changed?
    case RenameTemp => s.phase.Written? && s.temp.Whole?
    case RenameFails => s.phase.Written?
    case RenameUnreported => s.phase.Written? && s.temp.Whole?
    case AckOk => s.phase.Renamed?
    case AckErr => s.phase.Failed?
    case Crash => !s.phase.Down?
    case CrashWhileWriting => s.phase.Changed?
    case Reopen => s.phase.Down?
  }

  predicate Shaped(s: State) { s.disk < |s.states| == |s.calls| + 1 }

  function Rename(s: State, phase: Phase): State
    requires s.temp.Whole? && s.states != []
  {
    s.(file := Some(s.temp.doc), temp := NoTemp, phase := phase, disk := |s.states| - 1)
  }

  function Apply(s: State, step: Step): State
    requires Enabled(s, step) && Shaped(s)
  {
    match step
    case Mutate(call) =>
      var after := EmbeddedStore.Next(s.memory, call);
      s.(memory := after, phase := Changed, states := s.states + [after], calls := s.calls + [call])
    case WriteTemp => s.(temp := Whole(s.memory), phase := Written)
    case WriteTears => s.(temp := Torn, phase := Failed)
    case WriteFails => s.(phase := Failed)
    case RenameTemp => Rename(s, Renamed)
    case RenameFails => s.(phase := Failed)
    case RenameUnreported => Rename(s, Failed)
    case AckOk => s.(phase := Idle, acked := |s.states| - 1)
    case AckErr => s.(phase := Idle)
    case Crash => s.(phase := Down)
    case CrashWhileWriting => s.(temp := Torn, phase := Down)
    case Reopen =>
      State(Loaded(s.file), s.temp, s.file, Idle, s.states[..s.disk + 1], s.calls[..s.disk], s.acked, s.disk)
  }

  predicate ValidRun(s: State, steps: seq<Step>)
    requires Shaped(s)
    decreases |steps|
  {
    steps == [] || (Enabled(s, steps[0]) && ValidRun(Apply(s, steps[0]), steps[1..]))
  }

  function Run(s: State, steps: seq<Step>): (s': State)
    requires Shaped(s) && ValidRun(s, steps)
    ensures Shaped(s')
    decreases |steps|
  {
    if steps == [] then s else Run(Apply(s, steps[0]), steps[1..])
  }

  // ----- The invariant ------------------------------------------------------------------

  /** The states are what the calls produce one after the other. */
  predicate Chained(states: seq<Orgs>, calls: seq<Call>) {
    && |states| == |calls| + 1
    && forall i :: 0 <= i < |calls| ==> states[i + 1] == EmbeddedStore.Next(states[i], calls[i])
  }

  predicate Inv(s: State) {
    && Shaped(s)
    && Chained(s.states, s.calls)
    && s.memory == s.states[|s.states| - 1]
    && s.acked <= s.disk < |s.states|
    && Loaded(s.file) == s.states[s.disk]
    && (s.phase.Written? ==> s.temp == Whole(s.memory))
    && (s.phase.Renamed? ==> s.disk == |s.states| - 1)
  }

  lemma StepInv(s: State, step: Step)
    requires Inv(s) && Enabled(s, step)
    ensures Inv(Apply(s, step))
  {
    if step.Mutate? {
      var after := Apply(s, step);
      forall i | 0 <= i < |after.calls|
        ensures after.states[i + 1] == EmbeddedStore.Next(after.states[i], after.calls[i])
      {
        if i < |s.calls| { assert after.calls[i] == s.calls[i]; }
      }
    }
  }

  lemma {:induction false} RunInv(s: State, steps: seq<Step>)
    requires Inv(s) && ValidRun(s, steps)
    ensures Inv(Run(s, steps))
    decreases |steps|
  {
    if steps != [] {
      StepInv(s, steps[0]);
      RunInv(Apply(s, steps[0]), steps[1..]);
    }
  }

  /** A call that returns without writing has not changed the memory either. */
  lemma UnpersistedChangesNothing(orgs: Orgs, call: Call)
    requires !Persists(orgs, call)
    ensures EmbeddedStore.Next(orgs, call) == orgs
  {
    if Scoped(call) && call.org in orgs {
      var o := orgs[call.org];
      if call.DeleteBinding? { assert o.entries - {call.name} == o.entries; }
      if call.Delete? { assert NamedIn(o, call.kind) - {call.name} == NamedIn(o, call.kind); }
      assert EditOrg(o, call) == o;
    }
  }

  /** A call writes exactly when it puts something, reports that it removed something, or announces a change. */
  lemma PersistsIff(orgs: Orgs, call: Call)
    ensures Persists(orgs, call) <==>
            || Creates(call)
            || EmbeddedStore.Answer(orgs, call) == Flag(true)
            || EmbeddedStore.Announced(orgs, call) != []
  {}

  // ----- Theorems -----------------------------------------------------------------------

  /**
    Over any number of crashes and reopenings: whenever the process dies, reopening yields
    the state after some mutation, no earlier than the last one ever acknowledged, and never
    a mixture.
   */
  lemma ReopenYieldsACommittedState(temp: Temp, file: Option<Orgs>, steps: seq<Step>) returns (mutation: nat)
    requires ValidRun(Opened(temp, file), steps)
    ensures var s := Run(Opened(temp, file), steps);
            && Chained(s.states, s.calls)
            && s.acked <= mutation < |s.states|
            && s.states[0] == Loaded(file) && Loaded(s.file) == s.states[mutation]
  {
    RunInv(Opened(temp, file), steps);
    AcknowledgedIsKept(Opened(temp, file), steps);
    mutation := Run(Opened(temp, file), steps).disk;
  }

  /** What was acknowledged stays: it is a prefix of the history after every continuation. */
  lemma {:induction false} AcknowledgedIsKept(s: State, steps: seq<Step>)
    requires Inv(s) && ValidRun(s, steps)
    ensures var s' := Run(s, steps);
            && s.acked <= s'.acked
            && s.states[..s.acked + 1] <= s'.states && s.calls[..s.acked] <= s'.calls
    decreases |steps|
  {
    if steps != [] {
      var next := Apply(s, steps[0]);
      StepInv(s, steps[0]);
      AcknowledgedIsKept(next, steps[1..]);
      assert s.states[..s.acked + 1] <= next.states[..next.acked + 1];
      assert s.calls[..s.acked] <= next.calls[..next.acked];
    }
  }

  /**
    The file is never behind an acknowledgement: right after `Ok`, the latest mutation is the
    acknowledged one and reopening yields the memory itself.
   */
  lemma AcknowledgedIsDurable(temp: Temp, file: Option<Orgs>, steps: seq<Step>)
    requires ValidRun(Opened(temp, file), steps)
    ensures var s := Run(Opened(temp, file), steps);
            && (s.phase.Idle? && s.acked == |s.states| - 1 ==> Loaded(s.file) == s.memory)
            && (Enabled(s, AckOk) ==>
                  var after := Apply(s, AckOk);
                  && after.phase.Idle? && after.acked == |after.states| - 1
                  && Loaded(after.file) == after.memory == s.memory)
  {
    RunInv(Opened(temp, file), steps);
  }

  /** In every state between two calls, a call that writes can go through: it is then in memory and in the file. */
  lemma MutationCanFinish(temp: Temp, file: Option<Orgs>, before: seq<Step>, call: Call)
    requires ValidRun(Opened(temp, file), before)
    requires var s := Run(Opened(temp, file), before); s.phase.Idle? && Persists(s.memory, call)
    ensures var s := Run(Opened(temp, file), before);
            && ValidRun(s, [Mutate(call), WriteTemp, RenameTemp, AckOk])
            && var after := Run(s, [Mutate(call), WriteTemp, RenameTemp, AckOk]);
               && after.phase.Idle? && after.memory == EmbeddedStore.Next(s.memory, call)
               && after.file == Some(after.memory) && after.temp.NoTemp?
               && after.calls == s.calls + [call] && after.acked == |after.calls|
  {
    RunInv(Opened(temp, file), before);
    var s := Run(Opened(temp, file), before);
    var s1 := Apply(s, Mutate(call));
    var s2 := Apply(s1, WriteTemp);
    var s3 := Apply(s2, RenameTemp);
    RunStep(s3, AckOk, []);
    RunStep(s2, RenameTemp, [AckOk]);
    RunStep(s1, WriteTemp, [RenameTemp] + [AckOk]);
    RunStep(s, Mutate(call), [WriteTemp] + ([RenameTemp] + [AckOk]));
    assert [AckOk] + [] == [AckOk];
    assert [Mutate(call)] + ([WriteTemp] + ([RenameTemp] + [AckOk])) == [Mutate(call), WriteTemp, RenameTemp, AckOk];
  }

  /** A write that went wrong: the caller is told so, memory keeps the change and the file does not have it. */
  predicate ToldOfFailure(s: State, s': State) {
    && s'.phase.Failed? && Enabled(s', AckErr) && !Enabled(s', AckOk)
    && s'.memory == s.memory && s'.file == s.file && s'.calls == s.calls && s'.acked == s.acked && s'.disk == s.disk
  }

  /**
    What can go wrong and what is left then.  While a mutation is unwritten the write may
    fail, tear, or be cut off by a crash; once written the rename may fail, or land and still
    be reported failed.
   */
  lemma FailureOutcomes(temp: Temp, file: Option<Orgs>, before: seq<Step>)
    requires ValidRun(Opened(temp, file), before)
    ensures var s := Run(Opened(temp, file), before);
            s.phase.Changed? ==>
              && Enabled(s, WriteFails) && ToldOfFailure(s, Apply(s, WriteFails))
              && Apply(s, WriteFails).temp == s.temp
              && Enabled(s, WriteTears) && ToldOfFailure(s, Apply(s, WriteTears)) && Apply(s, WriteTears).temp.Torn?
              && Enabled(s, CrashWhileWriting)
              && var down := Apply(s, CrashWhileWriting); down.phase.Down? && down.temp.Torn? && down.file == s.file
    ensures var s := Run(Opened(temp, file), before);
            s.phase.Written? ==>
              && Enabled(s, RenameFails) && ToldOfFailure(s, Apply(s, RenameFails))
              && Enabled(s, RenameUnreported)
              && var told := Apply(s, RenameUnreported);
                 told.phase.Failed? && told.memory == s.memory && told.file == Some(s.memory) && told.acked == s.acked
    ensures var s := Run(Opened(temp, file), before);
            && (Enabled(s, CrashWhileWriting) <==> s.phase.Changed?)
            && (Enabled(s, Crash) <==> !s.phase.Down?)
    ensures var s := Run(Opened(temp, file), before);
            !s.phase.Down? ==>
              && Enabled(s, Crash)
              && var down := Apply(s, Crash); down.phase.Down? && down.temp == s.temp && down.file == s.file
  {
    RunInv(Opened(temp, file), before);
  }

  /** However a run has gone, a restart is possible at once, and what it loads is what the file holds. */
  lemma RestartLoadsTheFile(temp: Temp, file: Option<Orgs>, before: seq<Step>)
    requires ValidRun(Opened(temp, file), before)
    ensures var s := Run(Opened(temp, file), before);
            && (!s.phase.Down? ==> Enabled(s, Crash) && Enabled(Apply(s, Crash), Reopen))
            && var down := if s.phase.Down? then s else Apply(s, Crash);
               && Enabled(down, Reopen)
               && var up := Apply(down, Reopen);
                  && up.phase.Idle? && up.memory == Loaded(s.file) && up.file == s.file
                  && s.acked < |up.states| && up.states <= s.states && up.acked == s.acked
  {
    RunInv(Opened(temp, file), before);
  }

  /** The states a run passes through, step by step, when the run is short enough to write out. */
  lemma RunStep(s: State, step: Step, rest: seq<Step>)
    requires Shaped(s) && Enabled(s, step) && ValidRun(Apply(s, step), rest)
    ensures ValidRun(s, [step] + rest) && Run(s, [step] + rest) == Run(Apply(s, step), rest)
  {
    assert ([step] + rest)[1..] == rest;
  }

  /**
    A delete whose write failed has left memory but not the file.  Repeating it finds
    nothing, so it answers without writing, and the record is back after a crash.
   */
  lemma RetriedDeleteComesBack(kind: Kind, org: string, name: string, v: Value)
    ensures var stored: Orgs := map[org := WithNamed(EmptyOrg, kind, map[name := v])];
            var retry := Delete(kind, org, name);
            var steps := [Mutate(retry), WriteFails, AckErr];
            && ValidRun(Opened(NoTemp, Some(stored)), steps)
            && var s := Run(Opened(NoTemp, Some(stored)), steps);
               && s.phase.Idle?
               && !Persists(s.memory, retry)
               && EmbeddedStore.Answer(s.memory, retry) == Flag(false)
               && EmbeddedStore.Answer(Loaded(s.file), Get(kind, org, name)) == Record(Some(v))
  {
    var stored: Orgs := map[org := WithNamed(EmptyOrg, kind, map[name := v])];
    var retry := Delete(kind, org, name);
    var s0 := Opened(NoTemp, Some(stored));
    var s1 := Apply(s0, Mutate(retry));
    var s2 := Apply(s1, WriteFails);
    RunStep(s2, AckErr, []);
    RunStep(s1, WriteFails, [AckErr]);
    RunStep(s0, Mutate(retry), [WriteFails] + [AckErr]);
    assert [Mutate(retry)] + ([WriteFails] + ([AckErr] + [])) == [Mutate(retry), WriteFails, AckErr];
    assert [AckErr] + [] == [AckErr];
  }

  // ----- Repeating a failed call --------------------------------------------------------

  predicate WriteStep(step: Step) {
    step.WriteTemp? || step.WriteTears? || step.WriteFails?
    || step.RenameTemp? || step.RenameFails? || step.RenameUnreported?
  }

  /** Only writing, up to the answer. */
  predicate Finishes(steps: seq<Step>, ack: Step) {
    && steps != [] && steps[|steps| - 1] == ack
    && forall k :: 0 <= k < |steps| - 1 ==> WriteStep(steps[k])
  }

  /** One mutation from its call to its answer, without a crash. */
  predicate Attempt(call: Call, steps: seq<Step>, ack: Step) {
    |steps| > 1 && steps[0] == Mutate(call) && Finishes(steps[1..], ack)
  }

  /** The call is answered without error: by a written mutation, or at once when there is nothing to write. */
  predicate Answered(s: State, call: Call, steps: seq<Step>)
    requires Shaped(s)
  {
    if Persists(s.memory, call) then Attempt(call, steps, AckOk) && ValidRun(s, steps) else steps == []
  }

  /** The file holds the state after the latest mutation. */
  predicate HoldsLatest(s: State) { s.disk == |s.states| - 1 }

  /** An attempt reaches the file when it is acknowledged, or when its rename landed unreported. */
  lemma {:induction false} FinishReaches(s: State, steps: seq<Step>, ack: Step)
    requires Inv(s) && ValidRun(s, steps) && Finishes(steps, ack) && (ack == AckOk || ack == AckErr)
    ensures var s' := Run(s, steps);
            && Inv(s') && s'.phase.Idle? && s'.memory == s.memory && s'.states == s.states
            && (HoldsLatest(s') <==> HoldsLatest(s) || ack == AckOk || RenameUnreported in steps)
            && (!(ack == AckOk || RenameUnreported in steps) ==> s'.file == s.file)
    decreases |steps|
  {
    StepInv(s, steps[0]);
    var next, rest := Apply(s, steps[0]), steps[1..];
    assert steps == [steps[0]] + rest;
    if rest != [] {
      assert rest[|rest| - 1] == ack;
      FinishReaches(next, rest, ack);
      if steps[0].RenameTemp? { assert rest[0] == AckOk; }
    }
  }

  lemma AttemptReaches(s: State, call: Call, steps: seq<Step>, ack: Step)
    requires Inv(s) && ValidRun(s, steps) && Attempt(call, steps, ack) && (ack == AckOk || ack == AckErr)
    ensures var s' := Run(s, steps);
            && Inv(s') && s'.phase.Idle? && s'.memory == EmbeddedStore.Next(s.memory, call)
            && (HoldsLatest(s') <==> ack == AckOk || RenameUnreported in steps)
            && (!(ack == AckOk || RenameUnreported in steps) ==> s'.file == s.file)
  {
    StepInv(s, Mutate(call));
    FinishReaches(Apply(s, Mutate(call)), steps[1..], ack);
    assert steps == [steps[0]] + steps[1..];
  }

  /** After its own attempt a call has nothing left to write exactly when it is a delete. */
  lemma RepeatWritesIff(orgs: Orgs, call: Call)
    requires Persists(orgs, call)
    ensures Persists(EmbeddedStore.Next(orgs, call), call) <==> Creates(call) || call.SetSourceConfig?
  {}

  /** However the call is repeated and answered, the file holds the latest state. */
  ghost predicate EveryRepeatReaches(s: State, call: Call)
    requires Shaped(s)
  { forall repeat :: Answered(s, call, repeat) ==> HoldsLatest(Run(s, repeat)) }

  /** However the call is repeated and answered, reopening yields the memory. */
  ghost predicate EveryRepeatSurvives(s: State, call: Call)
    requires Shaped(s)
  { forall repeat :: Answered(s, call, repeat) ==> Loaded(Run(s, repeat).file) == Run(s, repeat).memory }

  /** A repeat with nothing to write is answered where it stands. */
  lemma OnlyAnswer(s: State, call: Call)
    requires Shaped(s) && !Persists(s.memory, call)
    ensures EveryRepeatReaches(s, call) <==> HoldsLatest(s)
    ensures EveryRepeatSurvives(s, call) <==> Loaded(s.file) == s.memory
  {
    assert Answered(s, call, []) && Run(s, []) == s;
  }

  /**
    A call that failed is repeated and answered without error.  The file then holds its
    effect, whatever happened before, if and only if the call puts something, or the failed
    attempt's rename had landed after all.
   */
  lemma RepeatReachesFileIff(temp: Temp, file: Option<Orgs>, before: seq<Step>, call: Call, attempt: seq<Step>)
    requires ValidRun(Opened(temp, file), before) && ValidRun(Run(Opened(temp, file), before), attempt)
    requires Attempt(call, attempt, AckErr)
    ensures var s := Run(Run(Opened(temp, file), before), attempt);
            EveryRepeatReaches(s, call) <==> Creates(call) || call.SetSourceConfig? || RenameUnreported in attempt
  {
    RunInv(Opened(temp, file), before);
    var s0 := Run(Opened(temp, file), before);
    AttemptReaches(s0, call, attempt, AckErr);
    RepeatWritesIff(s0.memory, call);
    var s := Run(s0, attempt);
    if Persists(s.memory, call) {
      forall repeat | Answered(s, call, repeat) ensures HoldsLatest(Run(s, repeat)) {
        AttemptReaches(s, call, repeat, AckOk);
      }
    } else {
      OnlyAnswer(s, call);
    }
  }

  /**
    In terms of what a restart shows: if the file held the memory when the failed attempt
    began, reopening after the answered repeat yields the memory under the same condition,
    and otherwise a store in which the record is still there.
   */
  lemma RepeatSurvivesRestartIff(temp: Temp, file: Option<Orgs>, before: seq<Step>, call: Call, attempt: seq<Step>)
    requires ValidRun(Opened(temp, file), before) && ValidRun(Run(Opened(temp, file), before), attempt)
    requires Attempt(call, attempt, AckErr)
    requires var s0 := Run(Opened(temp, file), before); Loaded(s0.file) == s0.memory
    ensures var s := Run(Run(Opened(temp, file), before), attempt);
            && (EveryRepeatSurvives(s, call) <==> Creates(call) || call.SetSourceConfig? || RenameUnreported in attempt)
            && (!Persists(s.memory, call) && RenameUnreported !in attempt ==> Persists(Loaded(s.file), call))
  {
    RunInv(Opened(temp, file), before);
    var s0 := Run(Opened(temp, file), before);
    AttemptReaches(s0, call, attempt, AckErr);
    RepeatWritesIff(s0.memory, call);
    var s := Run(s0, attempt);
    if Persists(s.memory, call) {
      forall repeat | Answered(s, call, repeat) ensures Loaded(Run(s, repeat).file) == Run(s, repeat).memory {
        AttemptReaches(s, call, repeat, AckOk);
      }
    } else {
      OnlyAnswer(s, call);
    }
  }
}

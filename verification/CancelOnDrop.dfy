/**
  The driver task that owns a distributed query's result stream.

  The driver forwards the inner stream to the consumer through a channel with two slots.
  A consumer that goes away makes it look for the job id, polling the stream it still owns
  for at most thirty seconds, and cancel the job.  The consumer, the scheduler that reveals
  the job id, the clock and the driver interleave freely.
 */
module CancelOnDrop {
  import opened Options
  import opened FlatNames

  const Capacity: nat := 2
  const ResolveLimit: nat := 30_000
  const PollSlice: nat := 100
  const Sentinel := "not available in distributed mode"

  datatype Error = NotImplemented | Other(display: string)

  datatype Item = Batch(rows: nat) | Failed(error: Error)

  /** What the inner stream will yield, whether it then ends or blocks, and whether metrics are captured. */
  datatype Script = Script(items: seq<Item>, ends: bool, captured: bool)

  /** Only an error can be replaced, and it stays an error. */
  function Remap(item: Item): (out: Item)
    ensures out.Failed? <==> item.Failed?
    ensures out != item ==> out == Failed(NotImplemented) && Occurs(item.error.display, Sentinel)
    ensures item.Failed? && item.error.Other? && Occurs(item.error.display, "not available in distributed mode") ==>
              out == Failed(NotImplemented)
  {
    if item.Failed? && item.error.Other? && Occurs(item.error.display, Sentinel) then Failed(NotImplemented) else item
  }

  datatype Outcome =
    | Completed
    | Errored
    | Cancelled(id: nat)
    | Refused(id: nat)
    | Unreachable(id: nat)
    | StreamEnded
    | FailedEarly
    | TimedOut

  datatype Phase =
    | Polling
    | Sending(item: Item)
    | Resolving(deadline: nat)
    | Awaiting(deadline: nat, until: nat)
    | Firing(id: nat)
    | Fetching
    | Done(outcome: Outcome)

  /** The driver finished on a job id: the request was answered, answered with an error, or could not be sent. */
  predicate Tried(outcome: Outcome) { outcome.Cancelled? || outcome.Refused? || outcome.Unreachable? }

  /** When the driver noticed the consumer was gone, and the job id it could see then. */
  datatype Notice = Notice(at: nat, known: Option<nat>)

  /** `cancels` lists the cancel requests sent, whatever their answer. */
  datatype State = State(
    now: nat,
    next: nat,
    phase: Phase,
    buffer: seq<Item>,
    received: seq<Item>,
    dropped: bool,
    job: Option<nat>,
    noticed: Option<Notice>,
    cancels: seq<nat>,
    fetches: nat)

  const Init := State(0, 0, Polling, [], [], false, None, None, [], 0)

  // ----- Steps --------------------------------------------------------------------------

  datatype Step =
    | Advance(to: nat)
    | JobLands(id: nat)
    | Receive
    | Drop
    | Take
    | End
    | NoticeClosed
    | Send
    | SendFails
    | Resolve
    | AwaitItem
    | AwaitEnd
    | AwaitTimeout
    | Fire
    | FireRefused
    | FireFails
    | Fetch

  predicate Enabled(c: Script, s: State, step: Step) {
    match step
    case Advance(to) =>
      && s.now <= to
      && (s.phase.Resolving? ==> to == s.now)
      && (s.phase.Awaiting? ==> to <= s.phase.until)
    case JobLands(id) => s.job.None?
    case Receive => !s.dropped && s.buffer != []
    case Drop => !s.dropped
    case Take => s.phase.Polling? && s.next < |c.items|
    case End => s.phase.Polling? && s.next == |c.items| && c.ends
    case NoticeClosed => s.phase.Polling? && s.dropped
    case Send => s.phase.Sending? && !s.dropped && |s.buffer| < Capacity
    case SendFails => s.phase.Sending? && s.dropped
    case Resolve => s.phase.Resolving?
    case AwaitItem => s.phase.Awaiting? && s.next < |c.items|
    case AwaitEnd => s.phase.Awaiting? && s.next == |c.items| && c.ends
    case AwaitTimeout => s.phase.Awaiting? && s.phase.until <= s.now
    case Fire => s.phase.Firing?
    case FireRefused => s.phase.Firing?
    case FireFails => s.phase.Firing?
    case Fetch => s.phase.Fetching?
  }

  function StartResolving(s: State): State {
    s.(phase := Resolving(s.now + ResolveLimit), noticed := Some(Notice(s.now, s.job)))
  }

  function Apply(c: Script, s: State, step: Step): State
    requires Enabled(c, s, step)
  {
    match step
    case Advance(to) => s.(now := to)
    case JobLands(id) => s.(job := Some(id))
    case Receive => s.(received := s.received + [s.buffer[0]], buffer := s.buffer[1..])
    case Drop => s.(dropped := true, buffer := [])
    case Take => s.(next := s.next + 1, phase := Sending(Remap(c.items[s.next])))
    case End => s.(phase := if c.captured then Fetching else Done(Completed))
    case NoticeClosed => StartResolving(s)
    case Send =>
      s.(buffer := s.buffer + [s.phase.item], phase := if s.phase.item.Failed? then Done(Errored) else Polling)
    case SendFails => StartResolving(s)
    case Resolve =>
      if s.job.Some? then s.(phase := Firing(s.job.value))
      else if s.phase.deadline <= s.now then s.(phase := Done(TimedOut))
      else s.(phase := Awaiting(s.phase.deadline, s.now + PollSlice))
    case AwaitItem =>
      if c.items[s.next].Failed? && s.job.None? then s.(next := s.next + 1, phase := Done(FailedEarly))
      else s.(next := s.next + 1, phase := Resolving(s.phase.deadline))
    case AwaitEnd => s.(phase := Done(StreamEnded))
    case AwaitTimeout => s.(phase := Resolving(s.phase.deadline))
    case Fire => s.(cancels := s.cancels + [s.phase.id], phase := Done(Cancelled(s.phase.id)))
    case FireRefused => s.(cancels := s.cancels + [s.phase.id], phase := Done(Refused(s.phase.id)))
    case FireFails => s.(phase := Done(Unreachable(s.phase.id)))
    case Fetch => s.(fetches := s.fetches + 1, phase := Done(Completed))
  }

  predicate ValidRun(c: Script, s: State, steps: seq<Step>)
    decreases |steps|
  {
    steps == [] || (Enabled(c, s, steps[0]) && ValidRun(c, Apply(c, s, steps[0]), steps[1..]))
  }

  function Run(c: Script, s: State, steps: seq<Step>): State
    requires ValidRun(c, s, steps)
    decreases |steps|
  {
    if steps == [] then s else Run(c, Apply(c, s, steps[0]), steps[1..])
  }

  // ----- What the consumer may see ------------------------------------------------------

  predicate NoFailure(items: seq<Item>) { forall i :: 0 <= i < |items| ==> !items[i].Failed? }

  function RemapAll(items: seq<Item>): seq<Item> { seq(|items|, i requires 0 <= i < |items| => Remap(items[i])) }

  /** How much of the stream is forwarded: everything up to and including the first error. */
  function Cut(items: seq<Item>): (n: nat)
    ensures n <= |items| && (n > 0 ==> NoFailure(items[..n - 1]))
    ensures n < |items| ==> n > 0 && items[n - 1].Failed?
  {
    if items == [] then 0
    else if items[0].Failed? then 1
    else
      var rest := Cut(items[1..]);
      assert forall i :: 0 < i < |items| ==> items[i] == items[1..][i - 1];
      1 + rest
  }

  /** The remapped inner stream, cut after its first error. */
  function Forwarded(items: seq<Item>): seq<Item> { RemapAll(items[..Cut(items)]) }

  /** The number of polled items that went through cleanly is below the cut. */
  lemma {:induction false} BelowCut(items: seq<Item>, k: nat)
    requires k <= |items| && NoFailure(items[..k])
    ensures k <= Cut(items)
    ensures k < |items| ==> k < Cut(items)
    ensures k < |items| && items[k].Failed? ==> Cut(items) == k + 1
  {
    if k > 0 {
      assert items[..k][0] == items[0] && items[1..][..k - 1] == items[..k][1..];
      BelowCut(items[1..], k - 1);
    }
  }

  // ----- The invariant ------------------------------------------------------------------

  /** Nothing was lost or reordered: the channel and the consumer hold exactly the first `k` items. */
  predicate Delivered(c: Script, s: State, k: nat) {
    && k <= |c.items|
    && NoFailure(c.items[..k])
    && (!s.dropped ==> s.received + s.buffer == RemapAll(c.items[..k]))
  }

  predicate PhaseInv(c: Script, s: State) {
    match s.phase
    case Polling => Delivered(c, s, s.next)
    case Sending(item) => 0 < s.next <= |c.items| && Delivered(c, s, s.next - 1) && item == Remap(c.items[s.next - 1])
    case Fetching => c.captured && c.ends && s.next == |c.items| && Delivered(c, s, s.next)
    case Resolving(deadline) => s.dropped && s.now < deadline + PollSlice
    case Awaiting(deadline, until) => s.dropped && s.now <= until < deadline + PollSlice
    case Firing(id) => s.dropped && s.job == Some(id)
    case Done(outcome) => !s.dropped ==> s.received + s.buffer == Forwarded(c.items)
  }

  predicate EffectsInv(c: Script, s: State) {
    && (s.cancels != [] ==> s.phase.Done? && (s.phase.outcome.Cancelled? || s.phase.outcome.Refused?))
    && (s.fetches > 0 ==> s.phase == Done(Completed))
    && s.fetches <= 1
    && (s.phase.Polling? || s.phase.Sending? || s.phase.Fetching? ==> s.noticed.None?)
    && (s.phase.Resolving? || s.phase.Awaiting? ==>
          && s.noticed.Some?
          && s.phase.deadline == s.noticed.value.at + ResolveLimit)
    && (s.phase.Firing? ==> s.noticed.Some?)
    && (s.noticed.Some? ==> s.dropped && s.noticed.value.at <= s.now)
    && (s.noticed.Some? && s.noticed.value.known.Some? ==>
          && s.job == s.noticed.value.known
          && (s.phase.Resolving? || s.phase.Firing?
              || (s.phase.Done? && Tried(s.phase.outcome) && s.phase.outcome.id == s.job.value)))
    && (s.phase.Done? ==> OutcomeInv(c, s, s.phase.outcome))
  }

  /** What each way of finishing says about the run. */
  predicate OutcomeInv(c: Script, s: State, outcome: Outcome) {
    match outcome
    case Completed =>
      c.ends && s.next == |c.items| && NoFailure(c.items) && s.noticed.None? && (s.fetches > 0 <==> c.captured)
    case Errored =>
      0 < s.next <= |c.items| && c.items[s.next - 1].Failed? && NoFailure(c.items[..s.next - 1]) && s.noticed.None?
    case Cancelled(id) => s.noticed.Some? && s.job == Some(id) && s.cancels == [id]
    case Refused(id) => s.noticed.Some? && s.job == Some(id) && s.cancels == [id]
    case Unreachable(id) => s.noticed.Some? && s.job == Some(id)
    case StreamEnded => s.noticed.Some? && c.ends && s.next == |c.items|
    case FailedEarly => s.noticed.Some? && 0 < s.next <= |c.items| && c.items[s.next - 1].Failed?
    case TimedOut => s.noticed.Some? && s.noticed.value.at + ResolveLimit <= s.now
  }

  predicate StreamInv(c: Script, s: State) {
    && s.next <= |c.items|
    && |s.buffer| <= Capacity
    && (s.dropped ==> s.buffer == [])
    && s.received + s.buffer <= Forwarded(c.items)
    && PhaseInv(c, s)
  }

  predicate Inv(c: Script, s: State) { StreamInv(c, s) && EffectsInv(c, s) }

  lemma TakeOrEnd(c: Script, s: State, step: Step)
    requires StreamInv(c, s) && Enabled(c, s, step) && (step.Take? || step.End?)
    ensures StreamInv(c, Apply(c, s, step))
  {
    BelowCut(c.items, s.next);
    assert c.items[..s.next] == if step.Take? then c.items[..s.next + 1][..s.next] else c.items;
  }

  lemma SendKeeps(c: Script, s: State)
    requires StreamInv(c, s) && Enabled(c, s, Send)
    ensures StreamInv(c, Apply(c, s, Send))
  {
    var k := s.next - 1;
    BelowCut(c.items, k);
    assert c.items[..s.next] == c.items[..k] + [c.items[k]];
    assert RemapAll(c.items[..s.next]) == RemapAll(c.items[..k]) + [s.phase.item];
    assert s.received + (s.buffer + [s.phase.item]) == s.received + s.buffer + [s.phase.item];
    assert s.next <= Cut(c.items);
    assert RemapAll(c.items[..s.next]) <= Forwarded(c.items);
  }

  lemma ConsumerStep(c: Script, s: State, step: Step)
    requires StreamInv(c, s) && Enabled(c, s, step) && (step.Receive? || step.Drop?)
    ensures StreamInv(c, Apply(c, s, step))
  {
    if step.Receive? {
      assert s.received + [s.buffer[0]] + s.buffer[1..] == s.received + s.buffer;
    } else {
      assert s.received + [] <= s.received + s.buffer;
    }
  }

  lemma AbandonStep(c: Script, s: State, step: Step)
    requires StreamInv(c, s) && Enabled(c, s, step)
    requires !(step.Take? || step.End? || step.Send? || step.Receive? || step.Drop?)
    ensures StreamInv(c, Apply(c, s, step))
  {
    if step.Fetch? {
      assert c.items[..s.next] == c.items;
      BelowCut(c.items, s.next);
    }
  }

  lemma EffectsStep(c: Script, s: State, step: Step)
    requires Inv(c, s) && Enabled(c, s, step)
    ensures EffectsInv(c, Apply(c, s, step))
  {
    if step.Advance? || step.JobLands? || step.Receive? || step.Drop? { OutsideEffects(c, s, step); }
    else if step.Take? || step.End? || step.Send? || step.Fetch? { ForwardEffects(c, s, step); }
    else { AbandonEffects(c, s, step); }
  }

  lemma OutsideEffects(c: Script, s: State, step: Step)
    requires Inv(c, s) && Enabled(c, s, step) && (step.Advance? || step.JobLands? || step.Receive? || step.Drop?)
    ensures EffectsInv(c, Apply(c, s, step))
  {}

  lemma ForwardEffects(c: Script, s: State, step: Step)
    requires Inv(c, s) && Enabled(c, s, step) && (step.Take? || step.End? || step.Send? || step.Fetch?)
    ensures EffectsInv(c, Apply(c, s, step))
  {
    if step.End? || step.Fetch? { assert c.items[..s.next] == c.items; }
  }

  lemma AbandonEffects(c: Script, s: State, step: Step)
    requires Inv(c, s) && Enabled(c, s, step)
    requires !(step.Advance? || step.JobLands? || step.Receive? || step.Drop?)
    requires !(step.Take? || step.End? || step.Send? || step.Fetch?)
    ensures EffectsInv(c, Apply(c, s, step))
  {}

  lemma StepInv(c: Script, s: State, step: Step)
    requires Inv(c, s) && Enabled(c, s, step)
    ensures Inv(c, Apply(c, s, step))
  {
    EffectsStep(c, s, step);
    if step.Take? || step.End? { TakeOrEnd(c, s, step); }
    else if step.Send? { SendKeeps(c, s); }
    else if step.Receive? || step.Drop? { ConsumerStep(c, s, step); }
    else { AbandonStep(c, s, step); }
  }

  lemma {:induction false} RunInv(c: Script, s: State, steps: seq<Step>)
    requires Inv(c, s) && ValidRun(c, s, steps)
    ensures Inv(c, Run(c, s, steps))
    decreases |steps|
  {
    if steps != [] {
      StepInv(c, s, steps[0]);
      RunInv(c, Apply(c, s, steps[0]), steps[1..]);
    }
  }

  lemma Reachable(c: Script, steps: seq<Step>)
    requires ValidRun(c, Init, steps)
    ensures Inv(c, Run(c, Init, steps))
  {
    assert c.items[..0] == [];
    RunInv(c, Init, steps);
  }

  // ----- Theorems -----------------------------------------------------------------------

  /** Every consumer sees an in-order prefix of the remapped stream, with nothing after the first error. */
  lemma InOrderPrefix(c: Script, steps: seq<Step>)
    requires ValidRun(c, Init, steps)
    ensures var s := Run(c, Init, steps); s.received + s.buffer <= Forwarded(c.items) && |s.buffer| <= 2
    ensures forall i :: 0 <= i < |Forwarded(c.items)| ==> Forwarded(c.items)[i] == Remap(c.items[i])
    ensures forall i :: 0 <= i < |Forwarded(c.items)| - 1 ==> !Forwarded(c.items)[i].Failed?
  {
    Reachable(c, steps);
    var n := Cut(c.items);
    assert forall i :: 0 <= i < n && i < n - 1 ==> c.items[..n - 1][i] == c.items[i];
  }

  /** A consumer that stays and sees the stream close has received the whole of it. */
  lemma WholePrefixDelivered(c: Script, steps: seq<Step>)
    requires ValidRun(c, Init, steps)
    ensures var s := Run(c, Init, steps);
            !s.dropped && s.phase.Done? && s.buffer == [] ==> s.received == Forwarded(c.items)
  {
    Reachable(c, steps);
  }

  /**
    A cancel request is sent at most once, whatever its answer, only after a drop, for the
    job the scheduler reported, and never beside a metrics fetch.
   */
  lemma CancelOnceAfterDrop(c: Script, steps: seq<Step>)
    requires ValidRun(c, Init, steps)
    ensures var s := Run(c, Init, steps);
            && |s.cancels| <= 1
            && (s.cancels != [] ==> s.dropped && s.job == Some(s.cancels[0]) && s.fetches == 0)
            && s.fetches <= 1
            && (s.fetches > 0 ==> c.captured && c.ends && NoFailure(c.items) && s.next == |c.items|)
  {
    Reachable(c, steps);
  }

  /**
    An abandonment whose job id was visible always ends in a cancel attempt for that id: one
    request, unless the scheduler could not be reached.
   */
  lemma KnownJobIsCancelled(c: Script, steps: seq<Step>)
    requires ValidRun(c, Init, steps)
    ensures var s := Run(c, Init, steps);
            s.noticed.Some? && s.noticed.value.known.Some? && s.phase.Done? ==>
              var id := s.noticed.value.known.value;
              || (s.phase == Done(Unreachable(id)) && s.cancels == [])
              || ((s.phase == Done(Cancelled(id)) || s.phase == Done(Refused(id))) && s.cancels == [id])
  {
    Reachable(c, steps);
  }

  /** The search for a job id is over a poll slice after its 30 seconds, and gives up only after them. */
  lemma ResolutionIsBounded(c: Script, steps: seq<Step>)
    requires ValidRun(c, Init, steps)
    ensures var s := Run(c, Init, steps);
            && (s.phase.Resolving? || s.phase.Awaiting? ==>
                  s.noticed.Some? && s.now < s.noticed.value.at + 30_000 + 100)
            && (s.phase == Done(TimedOut) ==> s.noticed.Some? && s.noticed.value.at + 30_000 <= s.now)
  {
    Reachable(c, steps);
  }

  // ----- Progress -----------------------------------------------------------------------

  predicate Internal(step: Step) { step.Receive? || step.Take? || step.End? || step.Send? || step.Fetch? }

  /** Work left before a consumer that stays has everything. */
  function Work(c: Script, s: State): nat
    requires s.next <= |c.items|
  {
    3 * (|c.items| - s.next) + |s.buffer|
    + match s.phase
      case Polling => 2
      case Sending(_) => 4
      case Fetching => 1
      case _ => 0
  }

  /** Without a drop, every step that is not time passing or the job id landing is work done. */
  lemma WorkShrinks(c: Script, s: State, step: Step)
    requires Inv(c, s) && Enabled(c, s, step) && !s.dropped && !step.Drop? && !step.Advance? && !step.JobLands?
    ensures Internal(step) && Inv(c, Apply(c, s, step))
    ensures Work(c, Apply(c, s, step)) < Work(c, s)
  {
    StepInv(c, s, step);
  }

  /**
    Without a drop, a driver that is not finished, or a consumer that has not drained, can
    act unless the source blocks.
   */
  lemma SomethingEnabled(c: Script, s: State) returns (step: Step)
    requires Inv(c, s) && !s.dropped && (s.phase.Done? ==> s.buffer != [])
    requires s.phase.Polling? && s.buffer == [] && s.next == |c.items| ==> c.ends
    ensures Internal(step) && Enabled(c, s, step)
  {
    step := if s.buffer != [] then Receive
    else match s.phase
      case Polling => if s.next < |c.items| then Take else End
      case Sending(_) => Send
      case _ => Fetch;
  }

  /** From every state a consumer still reads from, reading on delivers the whole forwarded stream. */
  lemma {:induction false} ReadingOnDelivers(c: Script, s: State) returns (steps: seq<Step>)
    requires Inv(c, s) && !s.dropped && (c.ends || !NoFailure(c.items))
    ensures ValidRun(c, s, steps) && |steps| <= Work(c, s)
    ensures forall i :: 0 <= i < |steps| ==> Internal(steps[i])
    ensures Run(c, s, steps).received == Forwarded(c.items) && Run(c, s, steps).phase.Done?
    decreases Work(c, s)
  {
    steps := [];
    if s.phase.Done? && s.buffer == [] { return; }
    if s.next == |c.items| && s.phase.Polling? { assert c.items[..s.next] == c.items; }
    var step := SomethingEnabled(c, s);
    WorkShrinks(c, s, step);
    var rest := ReadingOnDelivers(c, Apply(c, s, step));
    steps := [step] + rest;
    assert steps[0] == step && steps[1..] == rest;
  }

  // ----- After a drop -------------------------------------------------------------------

  /** The driver ended by trying to cancel the job. */
  predicate Attempted(s: State) { s.phase.Done? && Tried(s.phase.outcome) }

  predicate AtEnd(c: Script, s: State) { s.next == |c.items| && c.ends }

  /** The job is known, and the stream cannot end before the driver looks. */
  predicate MustAttempt(c: Script, s: State) {
    s.job.Some? && (s.phase.Sending? || s.phase.Resolving? || s.phase.Firing?
                    || ((s.phase.Polling? || s.phase.Awaiting?) && !AtEnd(c, s)))
  }

  lemma Then(c: Script, s: State, step: Step, rest: seq<Step>)
    requires Enabled(c, s, step) && ValidRun(c, Apply(c, s, step), rest)
    ensures ValidRun(c, s, [step] + rest) && Run(c, s, [step] + rest) == Run(c, Apply(c, s, step), rest)
  {
    assert ([step] + rest)[1..] == rest;
  }

  lemma ThenDone(c: Script, s: State, step: Step) returns (steps: seq<Step>)
    requires Enabled(c, s, step) && Apply(c, s, step).phase.Done?
    ensures ValidRun(c, s, steps) && Run(c, s, steps) == Apply(c, s, step)
  {
    Then(c, s, step, []);
    steps := [step] + [];
  }

  /** The search for the job id runs out, whatever the scheduler does not report. */
  lemma {:induction false} ResolvingReachesDone(c: Script, s: State) returns (steps: seq<Step>)
    requires Inv(c, s) && s.phase.Resolving?
    ensures ValidRun(c, s, steps) && Run(c, s, steps).phase.Done?
    ensures s.job.None? ==> !Attempted(Run(c, s, steps))
    decreases s.phase.deadline + PollSlice - s.now, 0
  {
    var s1 := Apply(c, s, Resolve);
    StepInv(c, s, Resolve);
    if s1.phase.Firing? {
      var rest := ThenDone(c, s1, Fire);
      Then(c, s, Resolve, rest);
      steps := [Resolve] + rest;
    } else if s1.phase.Done? {
      steps := ThenDone(c, s, Resolve);
    } else {
      var rest := AwaitingReachesDone(c, s1);
      Then(c, s, Resolve, rest);
      steps := [Resolve] + rest;
    }
  }

  lemma {:induction false} AwaitingReachesDone(c: Script, s: State) returns (steps: seq<Step>)
    requires Inv(c, s) && s.phase.Awaiting?
    ensures ValidRun(c, s, steps) && Run(c, s, steps).phase.Done?
    ensures s.job.None? ==> !Attempted(Run(c, s, steps))
    decreases s.phase.deadline + PollSlice - s.phase.until, 1
  {
    var s1 := Apply(c, s, Advance(s.phase.until));
    StepInv(c, s, Advance(s.phase.until));
    var s2 := Apply(c, s1, AwaitTimeout);
    StepInv(c, s1, AwaitTimeout);
    var rest := ResolvingReachesDone(c, s2);
    Then(c, s1, AwaitTimeout, rest);
    Then(c, s, Advance(s.phase.until), [AwaitTimeout] + rest);
    steps := [Advance(s.phase.until)] + ([AwaitTimeout] + rest);
  }

  /** Once the consumer is gone the driver can always finish, without the consumer and without a job id. */
  lemma DroppedReachesDone(c: Script, s: State) returns (steps: seq<Step>)
    requires Inv(c, s) && s.dropped
    ensures ValidRun(c, s, steps) && Run(c, s, steps).phase.Done?
    ensures s.job.None? && !s.phase.Done? ==> !Attempted(Run(c, s, steps))
  {
    match s.phase
    case Done(_) => steps := [];
    case Polling => steps := NoticedReachesDone(c, s, NoticeClosed);
    case Sending(_) => steps := NoticedReachesDone(c, s, SendFails);
    case Resolving(_) => steps := ResolvingReachesDone(c, s);
    case Awaiting(_, _) => steps := AwaitingReachesDone(c, s);
    case Firing(_) => steps := ThenDone(c, s, Fire);
    case Fetching => steps := ThenDone(c, s, Fetch);
  }

  lemma NoticedReachesDone(c: Script, s: State, step: Step) returns (steps: seq<Step>)
    requires Inv(c, s) && Enabled(c, s, step) && (step.NoticeClosed? || step.SendFails?)
    ensures ValidRun(c, s, steps) && Run(c, s, steps).phase.Done?
    ensures s.job.None? ==> !Attempted(Run(c, s, steps))
  {
    StepInv(c, s, step);
    var rest := ResolvingReachesDone(c, Apply(c, s, step));
    Then(c, s, step, rest);
    steps := [step] + rest;
  }

  /** The driver holds the id of the job, the consumer is gone and nothing was sent yet. */
  predicate AboutToCancel(s: State, id: nat) {
    s.phase == Firing(id) && s.dropped && s.job == Some(id) && s.cancels == [] && s.fetches == 0
  }

  /**
    A query that is still running can be abandoned at any moment, and its job cancelled: the
    consumer leaves with what it has, the driver notices, learns the id if it did not know
    it, and is about to send the request.
   */
  lemma CanBeAbandoned(c: Script, before: seq<Step>, id: nat) returns (steps: seq<Step>)
    requires ValidRun(c, Init, before)
    requires var s := Run(c, Init, before);
             !s.dropped && (s.phase.Polling? || s.phase.Sending?) && (s.job.Some? ==> s.job == Some(id))
    ensures ValidRun(c, Run(c, Init, before), steps)
    ensures var s := Run(c, Init, before); var s' := Run(c, s, steps);
            AboutToCancel(s', id) && s'.received == s.received && s'.buffer == []
  {
    Reachable(c, before);
    var s := Run(c, Init, before);
    var s1 := Apply(c, s, Drop);
    var notice := if s.phase.Polling? then NoticeClosed else SendFails;
    var s2 := Apply(c, s1, notice);
    if s.job.Some? {
      Then(c, s2, Resolve, []);
      steps := [Resolve] + [];
    } else {
      var s3 := Apply(c, s2, JobLands(id));
      Then(c, s3, Resolve, []);
      Then(c, s2, JobLands(id), [Resolve] + []);
      steps := [JobLands(id)] + ([Resolve] + []);
    }
    Then(c, s1, notice, steps);
    Then(c, s, Drop, [notice] + steps);
    steps := [Drop] + ([notice] + steps);
  }

  /** The three ways a cancel attempt ends: one request that is answered, one answered with an error, or none sent. */
  lemma CancelOutcomes(c: Script, s: State, id: nat)
    requires AboutToCancel(s, id)
    ensures Enabled(c, s, Fire) && Enabled(c, s, FireRefused) && Enabled(c, s, FireFails)
    ensures var sent := Apply(c, s, Fire); sent.phase == Done(Cancelled(id)) && sent.cancels == [id]
    ensures var refused := Apply(c, s, FireRefused); refused.phase == Done(Refused(id)) && refused.cancels == [id]
    ensures var lost := Apply(c, s, FireFails); lost.phase == Done(Unreachable(id)) && lost.cancels == []
  {}

  /**
    What the stream tells a driver that still looks for the id: its end is the end, and so is
    an error while no id is known; anything else and it looks again, before the same deadline.
   */
  lemma StreamDecides(c: Script, s: State)
    requires Inv(c, s) && s.phase.Awaiting?
    ensures s.next == |c.items| && c.ends ==>
              Enabled(c, s, AwaitEnd) && Apply(c, s, AwaitEnd).phase == Done(StreamEnded)
    ensures s.next < |c.items| ==>
              && Enabled(c, s, AwaitItem)
              && Apply(c, s, AwaitItem).phase ==
                 if c.items[s.next].Failed? && s.job.None? then Done(FailedEarly) else Resolving(s.phase.deadline)
  {}

  // ----- Every schedule ends ------------------------------------------------------------

  /** A step of the driver itself. */
  predicate Driver(step: Step) { !step.Advance? && !step.JobLands? && !step.Receive? && !step.Drop? }

  /** Polls until the deadline, `left` away. */
  function Polls(left: int): nat { if left <= 0 then 0 else (left + PollSlice - 1) / PollSlice }

  /** Polls in the whole of `ResolveLimit`. */
  const MostPolls: nat := 300

  lemma PollsShrink(left: int)
    ensures 0 < left ==> Polls(left - PollSlice) == Polls(left) - 1
    ensures left <= ResolveLimit ==> Polls(left) <= MostPolls
  {}

  /** Driver steps before the consumer's absence is noticed and the search for a job id is over. */
  function SearchLeft(s: State): nat {
    match s.phase
    case Done(_) => 0
    case Fetching => 1
    case Firing(_) => 1
    case Resolving(deadline) => 2 * Polls(deadline - s.now) + 2
    case Awaiting(deadline, until) => 2 * Polls(deadline - until) + 3
    case Polling => 2 * MostPolls + 3
    case Sending(_) => 2 * MostPolls + 3
  }

  /** Driver steps left after a drop: an item that arrives can start a poll anew. */
  function StepsLeft(c: Script, s: State): nat
    requires s.next <= |c.items|
  { 604 * (|c.items| - s.next) + SearchLeft(s) }

  lemma ForwardUsesUp(c: Script, s: State, step: Step)
    requires Inv(c, s) && s.dropped && Enabled(c, s, step) && !s.phase.Resolving? && !s.phase.Awaiting?
    ensures var s' := Apply(c, s, step);
            s'.next <= |c.items| && StepsLeft(c, s') <= StepsLeft(c, s) - (if Driver(step) then 1 else 0)
  {
    PollsShrink(ResolveLimit);
  }

  lemma SearchUsesUp(c: Script, s: State, step: Step)
    requires Inv(c, s) && s.dropped && Enabled(c, s, step) && (s.phase.Resolving? || s.phase.Awaiting?)
    ensures var s' := Apply(c, s, step);
            s'.next <= |c.items| && StepsLeft(c, s') <= StepsLeft(c, s) - (if Driver(step) then 1 else 0)
  {
    PollsShrink(s.phase.deadline - s.now);
  }

  /** Every driver step uses up one of those left; time and the scheduler add none. */
  lemma StepsLeftShrink(c: Script, s: State, step: Step)
    requires Inv(c, s) && s.dropped && Enabled(c, s, step)
    ensures var s' := Apply(c, s, step);
            && Inv(c, s') && s'.dropped && StepsLeft(c, s') <= StepsLeft(c, s) - (if Driver(step) then 1 else 0)
  {
    StepInv(c, s, step);
    if s.phase.Resolving? || s.phase.Awaiting? { SearchUsesUp(c, s, step); } else { ForwardUsesUp(c, s, step); }
  }

  ghost function DriverSteps(steps: seq<Step>): nat {
    if steps == [] then 0 else (if Driver(steps[0]) then 1 else 0) + DriverSteps(steps[1..])
  }

  /** A driver that is not done can act at once, or once its poll slice is over. */
  lemma DriverNotStuck(c: Script, s: State) returns (step: Step)
    requires Inv(c, s) && s.dropped && !s.phase.Done?
    ensures Enabled(c, s, step)
    ensures Driver(step) || (s.phase.Awaiting? && step == Advance(s.phase.until)
                             && Enabled(c, Apply(c, s, step), AwaitTimeout))
  {
    match s.phase
    case Polling => step := NoticeClosed;
    case Sending(_) => step := SendFails;
    case Resolving(_) => step := Resolve;
    case Awaiting(_, until) => step := Advance(until);
    case Firing(_) => step := Fire;
    case Fetching => step := Fetch;
  }

  /**
    Once the consumer is gone the driver ends under every schedule: no continuation has more
    driver steps than are left, whatever the clock, the scheduler and the stream do, and
    when none is left it is done.
   */
  lemma {:induction false} EveryScheduleEnds(c: Script, s: State, steps: seq<Step>)
    requires Inv(c, s) && s.dropped && ValidRun(c, s, steps)
    ensures var s' := Run(c, s, steps);
            && Inv(c, s') && s'.dropped
            && DriverSteps(steps) + StepsLeft(c, s') <= StepsLeft(c, s) <= 604 * |c.items| + 603
            && (StepsLeft(c, s') == 0 ==> s'.phase.Done?)
    decreases |steps|
  {
    if steps == [] {
      SearchIsShort(c, s);
    } else {
      StepsLeftShrink(c, s, steps[0]);
      SearchIsShort(c, s);
      EveryScheduleEnds(c, Apply(c, s, steps[0]), steps[1..]);
    }
  }

  lemma SearchIsShort(c: Script, s: State)
    requires Inv(c, s)
    ensures SearchLeft(s) <= 2 * MostPolls + 3 && (SearchLeft(s) == 0 ==> s.phase.Done?)
  {
    if s.phase.Resolving? { PollsShrink(s.phase.deadline - s.now); }
    if s.phase.Awaiting? { PollsShrink(s.phase.deadline - s.phase.until); }
  }

  /** What must be attempted stays so until it has been. */
  lemma {:induction false} MustAttemptRun(c: Script, s: State, steps: seq<Step>)
    requires Inv(c, s) && s.dropped && ValidRun(c, s, steps) && (MustAttempt(c, s) || Attempted(s))
    ensures MustAttempt(c, Run(c, s, steps)) || Attempted(Run(c, s, steps))
    decreases |steps|
  {
    if steps != [] {
      var next := Apply(c, s, steps[0]);
      StepInv(c, s, steps[0]);
      assert next.dropped && (MustAttempt(c, next) || Attempted(next));
      MustAttemptRun(c, next, steps[1..]);
    }
  }

  ghost predicate AlwaysAttempts(c: Script, s: State) {
    forall more :: ValidRun(c, s, more) && Run(c, s, more).phase.Done? ==> Attempted(Run(c, s, more))
  }

  /**
    Exactly when an abandoned query ends in a cancel attempt however the run goes on: the
    job id is known by then and the stream is not already at its end where the driver polls
    it.  In every other state some continuation ends without one.
   */
  lemma CancelAttemptIff(c: Script, s: State)
    requires Inv(c, s) && s.dropped && !s.phase.Done?
    ensures AlwaysAttempts(c, s) <==> MustAttempt(c, s)
  {
    if MustAttempt(c, s) {
      forall more | ValidRun(c, s, more) && Run(c, s, more).phase.Done? ensures Attempted(Run(c, s, more)) {
        MustAttemptRun(c, s, more);
      }
    } else {
      var more := EndsWithoutAttempt(c, s);
      assert ValidRun(c, s, more) && Run(c, s, more).phase.Done? && !Attempted(Run(c, s, more));
    }
  }

  lemma EndsWithoutAttempt(c: Script, s: State) returns (more: seq<Step>)
    requires Inv(c, s) && s.dropped && !s.phase.Done? && !MustAttempt(c, s)
    ensures ValidRun(c, s, more) && Run(c, s, more).phase.Done? && !Attempted(Run(c, s, more))
  {
    if s.job.None? {
      more := DroppedReachesDone(c, s);
    } else if s.phase.Fetching? {
      more := ThenDone(c, s, Fetch);
    } else if s.phase.Awaiting? {
      more := ThenDone(c, s, AwaitEnd);
    } else if c.captured {
      var rest := ThenDone(c, Apply(c, s, End), Fetch);
      Then(c, s, End, rest);
      more := [End] + rest;
    } else {
      more := ThenDone(c, s, End);
    }
  }
}

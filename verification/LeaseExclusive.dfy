/**
  When leadership is exclusive, and when it is not: the exact condition on the timing.
 */
module LeaseExclusive {
  import opened LeaseProtocol
  import opened LeaseSafety

  // ----- Without heartbeat failures -----------------------------------------------------

  /** The tag of the newest write an instance has made. */
  function NewestTag(p: Phase): nat
    requires Serving(p)
  { if p.Beating? && p.outcome.Landed? then p.outcome.tag else p.tag }

  /** Whoever serves owns the newest write, has missed no tick and waits since its last refresh. */
  predicate Current(s: State, p: Phase) {
    Serving(p) ==> NewestTag(p) == Last(s) && (p.Claimed? || (p.misses == 0 && p.since == p.lastOk))
  }

  ghost predicate ExclusiveInv(t: Timing, s: State) {
    Inv(t, s) && forall i :: 0 <= i < |s.phases| ==> Current(s, s.phases[i])
  }

  predicate Exclusive(s: State) {
    forall i, j :: 0 <= i < |s.phases| && 0 <= j < |s.phases| && Serving(s.phases[i]) && Serving(s.phases[j]) ==> i == j
  }

  /**
    The lease outlasts the wait for its next refresh: from the claim, the set-up time, one
    interval and one call; from a refresh answered late, two calls in a row.
   */
  predicate RefreshesInTime(t: Timing) { t.setup + t.beat + t.call < t.lease && 2 * t.call < t.lease }

  /** While someone serves, the stored lease has not expired. */
  lemma ServedLeaseIsLive(t: Timing, s: State, i: nat)
    requires Valid(t) && RefreshesInTime(t) && ExclusiveInv(t, s) && i < |s.phases| && Serving(s.phases[i])
    ensures s.history != [] && s.history[Last(s)].holder == i && !Expired(t, s.history[Last(s)], s.now)
  {
    assert PhaseInv(t, s, i) && Current(s, s.phases[i]);
  }

  lemma ExclusiveStep(t: Timing, s: State, step: Step)
    requires Valid(t) && RefreshesInTime(t) && ExclusiveInv(t, s) && Enabled(t, s, step) && !step.BeatFails?
    ensures ExclusiveInv(t, Apply(t, s, step))
  {
    StepInv(t, s, step);
    var s' := Apply(t, s, step);
    forall j | 0 <= j < |s'.phases| ensures Current(s', s'.phases[j]) {
      assert PhaseInv(t, s, j) && Current(s, s.phases[j]);
      if step.CreateLands? || step.CreateLandsUnseen? || step.StealLands? || step.StealLandsUnseen? || step.BeatLands? {
        assert PhaseInv(t, s, step.i) && Current(s, s.phases[step.i]);
        if j != step.i && Serving(s.phases[j]) { ServedLeaseIsLive(t, s, j); }
      }
    }
  }

  lemma {:induction false} ExclusiveRun(t: Timing, s: State, steps: seq<Step>)
    requires Valid(t) && RefreshesInTime(t) && ExclusiveInv(t, s)
    requires ValidRun(t, s, steps) && NoHeartbeatFailure(steps)
    ensures ExclusiveInv(t, Run(t, s, steps))
    decreases |steps|
  {
    if steps != [] {
      assert !steps[0].BeatFails?;
      ExclusiveStep(t, s, steps[0]);
      assert forall k :: 0 <= k < |steps[1..]| ==> steps[1..][k] == steps[k + 1];
      ExclusiveRun(t, Apply(t, s, steps[0]), steps[1..]);
    }
  }

  /** In every run without heartbeat failures at most one instance serves, and its lease is live. */
  lemma ExclusiveWithoutFailures(t: Timing, n: nat, steps: seq<Step>)
    requires Valid(t) && RefreshesInTime(t) && ValidRun(t, Init(n), steps) && NoHeartbeatFailure(steps)
    ensures var s := Run(t, Init(n), steps);
            && Exclusive(s)
            && (forall i :: 0 <= i < |s.phases| && Serving(s.phases[i]) ==>
                  s.history != [] && s.history[Last(s)].holder == i && s.now < s.history[Last(s)].built + t.lease)
  {
    InitInv(t, n);
    ExclusiveRun(t, Init(n), steps);
    var s := Run(t, Init(n), steps);
    forall i | 0 <= i < |s.phases| && Serving(s.phases[i])
      ensures s.history != [] && s.history[Last(s)].holder == i && !Expired(t, s.history[Last(s)], s.now)
    {
      ServedLeaseIsLive(t, s, i);
    }
  }

  // ----- Concrete runs ------------------------------------------------------------------

  /** Instance 1 creates, reads, sees an expired lease and steals it, all at one moment. */
  function StealSteps(): seq<Step> { [BeginCreate(1), CreateExists(1), Read(1), CheckExpiry(1), StealLands(1)] }

  lemma StealSucceeds(t: Timing, s: State)
    requires |s.phases| == 2 && s.phases[1].Idle? && s.history != [] && Expired(t, s.history[Last(s)], s.now)
    ensures ValidRun(t, s, StealSteps())
    ensures Run(t, s, StealSteps())
         == State(s.now, s.history + [Write(1, s.now, s.now)], [s.phases[0], Claimed(|s.history|)])
  {
    LooksAtLease(t, s);
    StealsExpired(t, s);
    RunConcat(t, s, [BeginCreate(1), CreateExists(1), Read(1)], [CheckExpiry(1), StealLands(1)]);
    assert [BeginCreate(1), CreateExists(1), Read(1)] + [CheckExpiry(1), StealLands(1)] == StealSteps();
  }

  lemma LooksAtLease(t: Timing, s: State)
    requires |s.phases| == 2 && s.phases[1].Idle? && s.history != []
    ensures ValidRun(t, s, [BeginCreate(1), CreateExists(1), Read(1)])
    ensures Run(t, s, [BeginCreate(1), CreateExists(1), Read(1)]) == With(s, 1, Seen(Last(s)))
  {
    var s1 := With(s, 1, Creating(s.now));
    var s2 := With(s, 1, Looking);
    var s3 := With(s, 1, Seen(Last(s)));
    assert Apply(t, s, BeginCreate(1)) == s1;
    assert Apply(t, s1, CreateExists(1)) == s2 by { assert s1.phases[1 := Looking] == s2.phases; }
    assert Apply(t, s2, Read(1)) == s3 by { assert s2.phases[1 := Seen(Last(s))] == s3.phases; }
    OneStep(t, s2, Read(1));
    MoreSteps(t, s1, CreateExists(1), [Read(1)]);
    MoreSteps(t, s, BeginCreate(1), [CreateExists(1), Read(1)]);
    assert [BeginCreate(1)] + [CreateExists(1), Read(1)] == [BeginCreate(1), CreateExists(1), Read(1)];
  }

  lemma StealsExpired(t: Timing, s: State)
    requires |s.phases| == 2 && s.history != [] && Expired(t, s.history[Last(s)], s.now)
    ensures ValidRun(t, With(s, 1, Seen(Last(s))), [CheckExpiry(1), StealLands(1)])
    ensures Run(t, With(s, 1, Seen(Last(s))), [CheckExpiry(1), StealLands(1)])
         == State(s.now, s.history + [Write(1, s.now, s.now)], [s.phases[0], Claimed(|s.history|)])
  {
    var s3 := With(s, 1, Seen(Last(s)));
    var s4 := With(s, 1, Stealing(Last(s), s.now));
    var s5 := State(s.now, s.history + [Write(1, s.now, s.now)], [s.phases[0], Claimed(|s.history|)]);
    assert Apply(t, s3, CheckExpiry(1)) == s4 by { assert s3.phases[1 := Stealing(Last(s), s.now)] == s4.phases; }
    assert Apply(t, s4, StealLands(1)) == s5 by { assert s4.phases[1 := Claimed(|s.history|)] == s5.phases; }
    OneStep(t, s4, StealLands(1));
    MoreSteps(t, s3, CheckExpiry(1), [StealLands(1)]);
    assert [CheckExpiry(1)] + [StealLands(1)] == [CheckExpiry(1), StealLands(1)];
  }

  lemma OneStep(t: Timing, s: State, step: Step)
    requires Enabled(t, s, step)
    ensures ValidRun(t, s, [step]) && Run(t, s, [step]) == Apply(t, s, step)
  {
    assert [step][1..] == [];
  }

  lemma MoreSteps(t: Timing, s: State, step: Step, rest: seq<Step>)
    requires Enabled(t, s, step) && ValidRun(t, Apply(t, s, step), rest)
    ensures ValidRun(t, s, [step] + rest) && Run(t, s, [step] + rest) == Run(t, Apply(t, s, step), rest)
  {
    assert ([step] + rest)[1..] == rest;
  }

  lemma ClaimsAtZero(t: Timing)
    ensures ValidRun(t, Init(2), [BeginCreate(0), CreateLands(0)])
    ensures Run(t, Init(2), [BeginCreate(0), CreateLands(0)]) == State(0, [Write(0, 0, 0)], [Claimed(0), Idle])
  {
    var s0 := Init(2);
    assert s0.phases == [Idle, Idle];
    var s1 := State(0, [], [Creating(0), Idle]);
    assert Apply(t, s0, BeginCreate(0)) == s1;
    assert Apply(t, s1, CreateLands(0)) == State(0, [Write(0, 0, 0)], [Claimed(0), Idle]);
    OneStep(t, s1, CreateLands(0));
    MoreSteps(t, s0, BeginCreate(0), [CreateLands(0)]);
    assert [BeginCreate(0)] + [CreateLands(0)] == [BeginCreate(0), CreateLands(0)];
  }

  lemma ThreeParts(t: Timing, s: State, a: seq<Step>, b: seq<Step>, c: seq<Step>)
    requires ValidRun(t, s, a) && ValidRun(t, Run(t, s, a), b) && ValidRun(t, Run(t, Run(t, s, a), b), c)
    ensures ValidRun(t, s, a + b + c) && Run(t, s, a + b + c) == Run(t, Run(t, Run(t, s, a), b), c)
  {
    RunConcat(t, s, a, b);
    RunConcat(t, s, a + b, c);
  }

  /** Instance 0 claims at time 0 and starts its ticker when the set-up time is used up. */
  function LeadSteps(t: Timing): seq<Step> { [BeginCreate(0), CreateLands(0), Advance(t.setup), BecomeLeader(0)] }

  function LedState(t: Timing): State {
    State(t.setup, [Write(0, 0, 0)], [Leading(0, 0, t.setup, 0, t.setup, t.setup), Idle])
  }

  lemma LeadSucceeds(t: Timing)
    ensures ValidRun(t, Init(2), LeadSteps(t)) && Run(t, Init(2), LeadSteps(t)) == LedState(t)
  {
    ClaimsAtZero(t);
    var s2 := State(0, [Write(0, 0, 0)], [Claimed(0), Idle]);
    var s3 := State(t.setup, [Write(0, 0, 0)], [Claimed(0), Idle]);
    assert Apply(t, s2, Advance(t.setup)) == s3;
    assert Apply(t, s3, BecomeLeader(0)) == LedState(t);
    OneStep(t, s3, BecomeLeader(0));
    MoreSteps(t, s2, Advance(t.setup), [BecomeLeader(0)]);
    RunConcat(t, Init(2), [BeginCreate(0), CreateLands(0)], [Advance(t.setup)] + [BecomeLeader(0)]);
    assert [BeginCreate(0), CreateLands(0)] + ([Advance(t.setup)] + [BecomeLeader(0)]) == LeadSteps(t);
  }

  /** A claim that runs out: the first heartbeat is on time and still in flight when the lease ends. */
  function SlowBeatSteps(t: Timing): seq<Step> {
    [Advance(t.setup + t.beat), Beat(0), Advance(StealTime(t))]
  }

  function StealTime(t: Timing): nat {
    if t.lease < t.setup + t.beat then t.setup + t.beat else t.lease
  }

  lemma SlowBeatSucceeds(t: Timing)
    requires Valid(t) && t.lease <= t.setup + t.beat + t.call
    ensures ValidRun(t, LedState(t), SlowBeatSteps(t))
    ensures Run(t, LedState(t), SlowBeatSteps(t))
         == State(StealTime(t), [Write(0, 0, 0)],
                  [Beating(0, 0, t.setup, 0, t.setup, t.setup, t.setup + t.beat, Pending), Idle])
  {
    var s0 := LedState(t);
    assert Due(t, s0.phases[0]) == t.setup + t.beat;
    var s1 := State(t.setup + t.beat, s0.history, s0.phases);
    var beating := Beating(0, 0, t.setup, 0, t.setup, t.setup, t.setup + t.beat, Pending);
    var s2 := State(t.setup + t.beat, s0.history, [beating, Idle]);
    assert Apply(t, s0, Advance(t.setup + t.beat)) == s1;
    assert Apply(t, s1, Beat(0)) == s2;
    OneStep(t, s2, Advance(StealTime(t)));
    MoreSteps(t, s1, Beat(0), [Advance(StealTime(t))]);
    MoreSteps(t, s0, Advance(t.setup + t.beat), [Beat(0), Advance(StealTime(t))]);
    assert [Advance(t.setup + t.beat)] + [Beat(0), Advance(StealTime(t))] == SlowBeatSteps(t);
  }

  /** A refresh that lands at once and is answered late: the next one is still in flight when the lease ends. */
  function LateAnswerSteps(t: Timing): seq<Step> {
    var b := t.setup + t.beat;
    [Advance(b), Beat(0), BeatLands(0)] + [Advance(b + t.call), BeatAcked(0)] + [Beat(0), Advance(b + t.lease)]
  }

  function RefreshedState(t: Timing): State {
    var b := t.setup + t.beat;
    State(b, [Write(0, 0, 0), Write(0, b, b)],
          [Beating(0, 0, t.setup, 0, t.setup, t.setup, b, Landed(1)), Idle])
  }

  function LateState(t: Timing): State {
    var b := t.setup + t.beat;
    State(b + t.call, [Write(0, 0, 0), Write(0, b, b)],
          [Leading(0, 1, b, 0, b + t.call, b + t.call), Idle])
  }

  function LapsedRefresh(t: Timing): State {
    var b := t.setup + t.beat;
    State(b + t.lease, [Write(0, 0, 0), Write(0, b, b)],
          [Beating(0, 1, b, 0, b + t.call, b + t.call, b + t.call, Pending), Idle])
  }

  lemma RefreshLands(t: Timing)
    ensures var b := t.setup + t.beat;
            && ValidRun(t, LedState(t), [Advance(b), Beat(0), BeatLands(0)])
            && Run(t, LedState(t), [Advance(b), Beat(0), BeatLands(0)]) == RefreshedState(t)
  {
    var b := t.setup + t.beat;
    var s0 := LedState(t);
    assert Due(t, s0.phases[0]) == b;
    var s1 := State(b, s0.history, s0.phases);
    var s2 := State(b, s0.history, [Beating(0, 0, t.setup, 0, t.setup, t.setup, b, Pending), Idle]);
    assert Apply(t, s0, Advance(b)) == s1;
    assert Apply(t, s1, Beat(0)) == s2;
    assert Apply(t, s2, BeatLands(0)) == RefreshedState(t);
    OneStep(t, s2, BeatLands(0));
    MoreSteps(t, s1, Beat(0), [BeatLands(0)]);
    MoreSteps(t, s0, Advance(b), [Beat(0), BeatLands(0)]);
    assert [Advance(b)] + [Beat(0), BeatLands(0)] == [Advance(b), Beat(0), BeatLands(0)];
  }

  lemma AnswerComesLate(t: Timing)
    ensures var b := t.setup + t.beat;
            && ValidRun(t, RefreshedState(t), [Advance(b + t.call), BeatAcked(0)])
            && Run(t, RefreshedState(t), [Advance(b + t.call), BeatAcked(0)]) == LateState(t)
  {
    var b := t.setup + t.beat;
    var s0 := RefreshedState(t);
    var s1 := State(b + t.call, s0.history, s0.phases);
    assert Apply(t, s0, Advance(b + t.call)) == s1;
    assert Due(t, s1.phases[0]) == b;
    assert Apply(t, s1, BeatAcked(0)) == LateState(t);
    OneStep(t, s1, BeatAcked(0));
    MoreSteps(t, s0, Advance(b + t.call), [BeatAcked(0)]);
    assert [Advance(b + t.call)] + [BeatAcked(0)] == [Advance(b + t.call), BeatAcked(0)];
  }

  lemma SecondBeatOutlastsLease(t: Timing)
    requires t.beat <= t.call <= t.lease <= 2 * t.call
    ensures var b := t.setup + t.beat;
            && ValidRun(t, LateState(t), [Beat(0), Advance(b + t.lease)])
            && Run(t, LateState(t), [Beat(0), Advance(b + t.lease)]) == LapsedRefresh(t)
  {
    var b := t.setup + t.beat;
    var s0 := LateState(t);
    assert Due(t, s0.phases[0]) == b + t.beat <= s0.now;
    var s1 := State(b + t.call, s0.history, LapsedRefresh(t).phases);
    assert Apply(t, s0, Beat(0)) == s1;
    assert Apply(t, s1, Advance(b + t.lease)) == LapsedRefresh(t);
    OneStep(t, s1, Advance(b + t.lease));
    MoreSteps(t, s0, Beat(0), [Advance(b + t.lease)]);
    assert [Beat(0)] + [Advance(b + t.lease)] == [Beat(0), Advance(b + t.lease)];
  }

  lemma LateAnswerSucceeds(t: Timing)
    requires t.beat <= t.call <= t.lease <= 2 * t.call
    ensures ValidRun(t, LedState(t), LateAnswerSteps(t)) && Run(t, LedState(t), LateAnswerSteps(t)) == LapsedRefresh(t)
  {
    var b := t.setup + t.beat;
    RefreshLands(t);
    AnswerComesLate(t);
    SecondBeatOutlastsLease(t);
    ThreeParts(t, LedState(t), [Advance(b), Beat(0), BeatLands(0)], [Advance(b + t.call), BeatAcked(0)],
               [Beat(0), Advance(b + t.lease)]);
  }

  /** How the lease is outlasted: by the first heartbeat, or by the one after a late answer. */
  function OutlastingSteps(t: Timing): seq<Step> {
    if t.lease <= t.setup + t.beat + t.call then SlowBeatSteps(t) else LateAnswerSteps(t)
  }

  function SplitBrainSteps(t: Timing): seq<Step> { LeadSteps(t) + OutlastingSteps(t) + StealSteps() }

  /** When the wait for a refresh can reach the lease, a run without any failure has two servers. */
  lemma SplitBrainReached(t: Timing)
    requires Valid(t) && !RefreshesInTime(t)
    ensures ValidRun(t, Init(2), SplitBrainSteps(t)) && NoHeartbeatFailure(SplitBrainSteps(t))
    ensures !Exclusive(Run(t, Init(2), SplitBrainSteps(t)))
  {
    LeadSucceeds(t);
    if t.lease <= t.setup + t.beat + t.call { SlowBeatSucceeds(t); } else { LateAnswerSucceeds(t); }
    RunConcat(t, Init(2), LeadSteps(t), OutlastingSteps(t));
    var s := Run(t, LedState(t), OutlastingSteps(t));
    StealSucceeds(t, s);
    RunConcat(t, Init(2), LeadSteps(t) + OutlastingSteps(t), StealSteps());
    var s' := Run(t, Init(2), SplitBrainSteps(t));
    assert Serving(s'.phases[0]) && Serving(s'.phases[1]);
  }

  /**
    Exactly when leadership is exclusive in every run without heartbeat failures, for any
    delays: the set-up time, one interval and one call must together stay below the lease,
    and so must two calls.  The start-up check `beat < lease` is that condition for
    instantaneous calls.
   */
  lemma ExclusiveIff(t: Timing)
    requires Valid(t)
    ensures RefreshesInTime(t) <==>
            forall n, steps :: ValidRun(t, Init(n), steps) && NoHeartbeatFailure(steps) ==>
              Exclusive(Run(t, Init(n), steps))
    ensures t.setup == 0 && t.call == 0 ==> RefreshesInTime(t)
  {
    if RefreshesInTime(t) {
      forall n, steps | ValidRun(t, Init(n), steps) && NoHeartbeatFailure(steps)
        ensures Exclusive(Run(t, Init(n), steps))
      {
        ExclusiveWithoutFailures(t, n, steps);
      }
    } else {
      SplitBrainReached(t);
    }
  }
}

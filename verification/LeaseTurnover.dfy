/** How leadership is won and how it ends. */
module LeaseTurnover {
  import opened LeaseProtocol
  import opened LeaseSafety

  // ----- Claiming -----------------------------------------------------------------------

  /** The write the pending call of an instance carries. */
  predicate Carries(p: Phase, built: nat) {
    (p.Creating? || p.Stealing? || (p.Beating? && p.outcome.Pending?)) && p.built == built
  }

  predicate Lands(step: Step) {
    || step.CreateLands? || step.CreateLandsUnseen? || step.StealLands? || step.StealLandsUnseen?
    || step.BeatLands?
  }

  /** The step appended the write that instance `i` had sent. */
  predicate AppendsSent(s: State, s': State, i: nat, built: nat) {
    i < |s.phases| && Carries(s.phases[i], built) && s'.history == s.history + [Write(i, built, s.now)]
  }

  /**
    The history grows at exactly five steps, by the write the instance had sent; two of
    them leave it unaware that its claim landed.
   */
  lemma WritesIff(t: Timing, s: State, step: Step)
    requires Enabled(t, s, step)
    ensures Lands(step) ==> exists built: nat :: AppendsSent(s, Apply(t, s, step), step.i, built)
    ensures !Lands(step) ==> Apply(t, s, step).history == s.history
  {
    if Lands(step) { assert AppendsSent(s, Apply(t, s, step), step.i, s.phases[step.i].built); }
  }

  /** The store decides every conditional write: it can land exactly under the latest tag, and be rejected otherwise. */
  lemma TagDecides(t: Timing, s: State, i: nat)
    requires i < |s.phases|
    ensures s.phases[i].Stealing? ==>
              && (Enabled(t, s, StealLands(i)) <==> s.phases[i].tag == Last(s))
              && (Enabled(t, s, StealRejected(i)) <==> s.phases[i].tag != Last(s))
    ensures s.phases[i].Beating? && s.phases[i].outcome.Pending? ==>
              && (Enabled(t, s, BeatLands(i)) <==> s.phases[i].tag == Last(s))
              && (Enabled(t, s, BeatRejected(i)) <==> s.phases[i].tag != Last(s))
    ensures s.phases[i].Creating? ==>
              && (Enabled(t, s, CreateLands(i)) <==> s.history == [])
              && (Enabled(t, s, CreateExists(i)) <==> s.history != [])
  {}

  /** Whoever lost a claim or its leadership may claim again at once. */
  lemma MayClaimAgain(t: Timing, s: State, step: Step, i: nat)
    requires Enabled(t, s, step) && i < |s.phases|
    requires || step in {StealRejected(i), ClaimFails(i), CreateLandsUnseen(i), StealLandsUnseen(i)}
             || step in {BeatRejected(i), Exit(i)}
    ensures Enabled(t, Apply(t, s, step), BeginCreate(i)) && !Serving(Apply(t, s, step).phases[i])
  {}

  /** An instance may die or leave at any moment. */
  lemma MayLeave(t: Timing, s: State, i: nat)
    requires i < |s.phases|
    ensures Enabled(t, s, Exit(i)) && !Serving(Apply(t, s, Exit(i)).phases[i])
  {}

  lemma Take(t: Timing, s: State, step: Step, rest: seq<Step>) returns (steps: seq<Step>)
    requires Enabled(t, s, step) && ValidRun(t, Apply(t, s, step), rest)
    ensures ValidRun(t, s, steps) && Run(t, s, steps) == Run(t, Apply(t, s, step), rest)
  {
    steps := [step] + rest;
    assert steps[1..] == rest;
  }

  /** Instance `i` has taken over: it serves, on a write of its own made now, and nobody else moved. */
  predicate TookOver(s: State, s': State, i: nat) {
    && s'.now == s.now && i < |s.phases| == |s'.phases| && Serving(s'.phases[i])
    && s'.history == s.history + [Write(i, s.now, s.now)] && ClaimOf(s'.phases[i]) == |s.history|
    && forall j :: 0 <= j < |s.phases| && j != i ==> s'.phases[j] == s.phases[j]
  }

  predicate Free(t: Timing, s: State) { s.history == [] || Expired(t, s.history[Last(s)], s.now) }

  lemma SeenTakesOver(t: Timing, s: State, i: nat) returns (steps: seq<Step>)
    requires s.history != [] && Free(t, s) && i < |s.phases| && s.phases[i] == Seen(Last(s))
    ensures ValidRun(t, s, steps) && TookOver(s, Run(t, s, steps), i)
  {
    var s1 := Apply(t, s, CheckExpiry(i));
    steps := Take(t, s1, StealLands(i), []);
    steps := Take(t, s, CheckExpiry(i), steps);
  }

  lemma IdleTakesOver(t: Timing, s: State, i: nat) returns (steps: seq<Step>)
    requires Free(t, s) && i < |s.phases| && s.phases[i].Idle?
    ensures ValidRun(t, s, steps) && TookOver(s, Run(t, s, steps), i)
  {
    var s1 := Apply(t, s, BeginCreate(i));
    if s.history == [] {
      steps := Take(t, s1, CreateLands(i), []);
    } else {
      var s2 := Apply(t, s1, CreateExists(i));
      var s3 := Apply(t, s2, Read(i));
      steps := SeenTakesOver(t, s3, i);
      steps := Take(t, s2, Read(i), steps);
      steps := Take(t, s1, CreateExists(i), steps);
    }
    steps := Take(t, s, BeginCreate(i), steps);
  }

  /**
    After any run, once there is no lease or it has expired, every instance that does not
    serve can take it over at once, wherever it is in its claim loop.
   */
  lemma AnyoneCanTakeOver(t: Timing, n: nat, before: seq<Step>, i: nat) returns (steps: seq<Step>)
    requires Valid(t) && ValidRun(t, Init(n), before)
    requires var s := Run(t, Init(n), before); i < |s.phases| && !Serving(s.phases[i]) && Free(t, s)
    ensures ValidRun(t, Run(t, Init(n), before), steps)
    ensures TookOver(Run(t, Init(n), before), Run(t, Run(t, Init(n), before), steps), i)
  {
    var s := Run(t, Init(n), before);
    InitInv(t, n);
    RunInv(t, Init(n), before);
    assert PhaseInv(t, s, i);
    var p := s.phases[i];
    if p.Idle? {
      steps := IdleTakesOver(t, s, i);
    } else if p.Seen? {
      steps := SeenAgainTakesOver(t, s, i);
    } else {
      steps := IdleTakesOver(t, Apply(t, s, ClaimFails(i)), i);
      steps := Take(t, s, ClaimFails(i), steps);
    }
  }

  /** What it has read may be out of date: it gives the attempt up and starts over. */
  lemma SeenAgainTakesOver(t: Timing, s: State, i: nat) returns (steps: seq<Step>)
    requires Free(t, s) && i < |s.phases| && s.phases[i].Seen? && s.phases[i].tag < |s.history|
    ensures ValidRun(t, s, steps) && TookOver(s, Run(t, s, steps), i)
  {
    var s1 := Apply(t, s, CheckExpiry(i));
    if s1.phases[i].Stealing? {
      steps := IdleTakesOver(t, Apply(t, s1, ClaimFails(i)), i);
      steps := Take(t, s1, ClaimFails(i), steps);
    } else {
      steps := IdleTakesOver(t, s1, i);
    }
    steps := Take(t, s, CheckExpiry(i), steps);
  }

  // ----- Stepping down ------------------------------------------------------------------

  /** The instance gave up: its last success is a whole lease ago. */
  predicate OutOfTime(t: Timing, s: State, i: nat) {
    i < |s.phases| && s.phases[i].Beating? && s.phases[i].lastOk + t.lease <= s.now
  }

  /**
    A serving instance stops at exactly three steps: its refresh is rejected, a refresh fails
    a whole lease after the last success, or it exits.  Until then it keeps its claim.
   */
  lemma StopsServingIff(t: Timing, s: State, step: Step, i: nat)
    requires Enabled(t, s, step) && i < |s.phases| && Serving(s.phases[i])
    ensures var p := Apply(t, s, step).phases[i];
            && (!Serving(p) <==>
                step == BeatRejected(i) || (step == BeatFails(i) && OutOfTime(t, s, i)) || step == Exit(i))
            && (Serving(p) ==> ClaimOf(p) == ClaimOf(s.phases[i]))
  {}

  /** An instance starts to serve only by a claim of its own that lands then. */
  lemma StartsServingIff(t: Timing, s: State, step: Step, i: nat)
    requires Enabled(t, s, step) && i < |s.phases| && !Serving(s.phases[i])
    ensures var s' := Apply(t, s, step);
            && (Serving(s'.phases[i]) <==> step == CreateLands(i) || step == StealLands(i))
            && (Serving(s'.phases[i]) ==>
                  && ClaimOf(s'.phases[i]) == |s.history| < |s'.history|
                  && s'.history[|s.history|].holder == i && s'.history[|s.history|].landed == s.now)
  {}

  lemma TimePasses(t: Timing, s: State, step: Step)
    requires Enabled(t, s, step)
    ensures s.now <= Apply(t, s, step).now && |Apply(t, s, step).phases| == |s.phases|
    ensures s.history <= Apply(t, s, step).history
  {}

  /** Whoever serves now did so on an own write that landed at `since` or later, after `from` writes. */
  predicate ClaimedSince(s: State, i: nat, from: nat, since: nat)
    requires i < |s.phases|
  {
    Serving(s.phases[i]) ==>
      && from <= ClaimOf(s.phases[i]) < |s.history|
      && s.history[ClaimOf(s.phases[i])].holder == i && since <= s.history[ClaimOf(s.phases[i])].landed
  }

  lemma {:induction false} OnlyNewClaims(t: Timing, s: State, steps: seq<Step>, i: nat, from: nat, since: nat)
    requires ValidRun(t, s, steps) && i < |s.phases| && ClaimedSince(s, i, from, since)
    requires from <= |s.history| && since <= s.now
    ensures i < |Run(t, s, steps).phases| && ClaimedSince(Run(t, s, steps), i, from, since)
    decreases |steps|
  {
    if steps != [] {
      TimePasses(t, s, steps[0]);
      if Serving(s.phases[i]) { StopsServingIff(t, s, steps[0], i); } else { StartsServingIff(t, s, steps[0], i); }
      OnlyNewClaims(t, Apply(t, s, steps[0]), steps[1..], i, from, since);
    }
  }

  /**
    A leader told that its lease was taken stops: after a rejected refresh it does not serve,
    the write it held is not the latest, and in every continuation in which it serves again
    its claim is a write of its own made after the rejection.
   */
  lemma RejectedLeaderStops(t: Timing, n: nat, steps: seq<Step>, i: nat, more: seq<Step>)
    requires ValidRun(t, Init(n), steps) && Enabled(t, Run(t, Init(n), steps), BeatRejected(i))
    requires ValidRun(t, Apply(t, Run(t, Init(n), steps), BeatRejected(i)), more)
    ensures var s := Run(t, Init(n), steps);
            var s', last := Apply(t, s, BeatRejected(i)), Run(t, Apply(t, s, BeatRejected(i)), more);
            && ValidRun(t, Init(n), steps + [BeatRejected(i)]) && Run(t, Init(n), steps + [BeatRejected(i)]) == s'
            && s.phases[i].tag != Last(s)
            && i < |s'.phases| && !Serving(s'.phases[i])
            && i < |last.phases| && ClaimedSince(last, i, |s'.history|, s'.now)
  {
    var s := Run(t, Init(n), steps);
    var s' := Apply(t, s, BeatRejected(i));
    assert [BeatRejected(i)][1..] == [];
    RunConcat(t, Init(n), steps, [BeatRejected(i)]);
    StopsServingIff(t, s, BeatRejected(i), i);
    OnlyNewClaims(t, s', more, i, |s'.history|, s'.now);
  }

  /** So does one whose refreshes have failed for a whole lease; one that fails earlier serves on. */
  lemma OutOfTimeLeaderStops(t: Timing, s: State, i: nat, more: seq<Step>)
    requires Enabled(t, s, BeatFails(i)) && ValidRun(t, Apply(t, s, BeatFails(i)), more)
    ensures var s', last := Apply(t, s, BeatFails(i)), Run(t, Apply(t, s, BeatFails(i)), more);
            && i < |s'.phases| && (Serving(s'.phases[i]) <==> s.now < s.phases[i].lastOk + t.lease)
            && (!Serving(s'.phases[i]) ==> i < |last.phases| && ClaimedSince(last, i, |s'.history|, s'.now))
  {
    var s' := Apply(t, s, BeatFails(i));
    StopsServingIff(t, s, BeatFails(i), i);
    if !Serving(s'.phases[i]) { OnlyNewClaims(t, s', more, i, |s'.history|, s'.now); }
  }
}

/**
  The overlap bound is exact: for any delays some run reaches it.

  Instance 0 is told late of its last success, or starts its ticker late, and fails every
  tick after it until the last one it may take; instance 1 claims the lease the moment it
  runs out and keeps refreshing it.
 */
module LeaseOverlap {
  import opened LeaseProtocol
  import opened LeaseSafety
  import opened LeaseExclusive

  // ----- The successor ------------------------------------------------------------------

  /** Instance 1 leads since `claim`, has refreshed on every tick and owns the newest write. */
  predicate Refreshing(t: Timing, s: State, claim: nat) {
    && |s.phases| == 2 && s.history != []
    && var q := s.phases[1];
       && q.Leading? && q.claim == claim && q.tag == Last(s) && q.misses == 0
       && q.anchor == q.lastOk == q.since && q.anchor <= s.now <= q.anchor + t.beat
  }

  lemma OneRefresh(t: Timing, s: State, claim: nat) returns (steps: seq<Step>)
    requires Valid(t) && Refreshing(t, s, claim)
    requires MayWaitUntil(t, s, s.phases[0], s.phases[1].anchor + t.beat)
    ensures ValidRun(t, s, steps)
    ensures var due, s' := s.phases[1].anchor + t.beat, Run(t, s, steps);
            && s'.now == due && s.history <= s'.history && Refreshing(t, s', claim)
            && s'.phases[0] == s.phases[0] && s'.phases[1].anchor == due
  {
    var q, n := s.phases[1], |s.history|;
    var due := q.anchor + t.beat;
    assert Due(t, q) == due;
    var sent := Beating(claim, n - 1, q.anchor, 0, q.anchor, q.anchor, due, Pending);
    var landed := Beating(claim, n - 1, q.anchor, 0, q.anchor, q.anchor, due, Landed(n));
    var s1 := State(due, s.history, s.phases);
    var s2 := State(due, s.history, [s.phases[0], sent]);
    var s3 := State(due, s.history + [Write(1, due, due)], [s.phases[0], landed]);
    var s4 := State(due, s3.history, [s.phases[0], Leading(claim, n, due, 0, due, due)]);
    assert Apply(t, s, Advance(due)) == s1;
    assert Apply(t, s1, Beat(1)) == s2;
    assert Apply(t, s2, BeatLands(1)) == s3;
    assert Apply(t, s3, BeatAcked(1)) == s4;
    OneStep(t, s3, BeatAcked(1));
    MoreSteps(t, s2, BeatLands(1), [BeatAcked(1)]);
    MoreSteps(t, s1, Beat(1), [BeatLands(1)] + [BeatAcked(1)]);
    MoreSteps(t, s, Advance(due), [Beat(1)] + ([BeatLands(1)] + [BeatAcked(1)]));
    steps := [Advance(due)] + ([Beat(1)] + ([BeatLands(1)] + [BeatAcked(1)]));
  }

  /** Time passes for instance 0 while instance 1 refreshes. */
  lemma {:induction false} ServesOn(t: Timing, s: State, claim: nat, until: nat) returns (steps: seq<Step>)
    requires Valid(t) && Refreshing(t, s, claim) && s.now <= until && MayWaitUntil(t, s, s.phases[0], until)
    ensures ValidRun(t, s, steps)
    ensures var s' := Run(t, s, steps);
            s'.now == until && s.history <= s'.history && Refreshing(t, s', claim) && s'.phases[0] == s.phases[0]
    decreases until - s.phases[1].anchor
  {
    if until <= s.phases[1].anchor + t.beat {
      assert Due(t, s.phases[1]) == s.phases[1].anchor + t.beat;
      OneStep(t, s, Advance(until));
      steps := [Advance(until)];
    } else {
      var first := OneRefresh(t, s, claim);
      var rest := ServesOn(t, Run(t, s, first), claim, until);
      RunConcat(t, s, first, rest);
      steps := first + rest;
    }
  }

  /**
    Instance 0 is in phase `p`.  Instance 1 is idle until the last write of `base` expires,
    and serves from then on.
   */
  predicate Beside(t: Timing, s: State, base: seq<Write>, expiry: nat, p: Phase) {
    && |s.phases| == 2 && s.phases[0] == p
    && base != [] && base[|base| - 1].built + t.lease == expiry && base <= s.history
    && if s.now < expiry then s.history == base && s.phases[1].Idle?
       else |base| < |s.history| && s.history[|base|].landed == expiry && Refreshing(t, s, |base|)
  }

  lemma TakesOver(t: Timing, s: State, base: seq<Write>, expiry: nat, p: Phase) returns (steps: seq<Step>)
    requires Valid(t) && |s.phases| == 2 && s.phases[0] == p && s.phases[1].Idle? && s.now == expiry
    requires base != [] && base[|base| - 1].built + t.lease == expiry && s.history == base
    ensures ValidRun(t, s, steps) && Beside(t, Run(t, s, steps), base, expiry, p) && Run(t, s, steps).now == expiry
  {
    StealSucceeds(t, s);
    var s1 := Run(t, s, StealSteps());
    var s2 := State(expiry, s1.history, [p, Leading(|base|, |base|, expiry, 0, expiry, expiry)]);
    assert Apply(t, s1, BecomeLeader(1)) == s2;
    OneStep(t, s1, BecomeLeader(1));
    RunConcat(t, s, StealSteps(), [BecomeLeader(1)]);
    steps := StealSteps() + [BecomeLeader(1)];
  }

  /** Time passes for instance 0, whatever instance 1 does meanwhile. */
  lemma PassTime(t: Timing, s: State, base: seq<Write>, expiry: nat, p: Phase, until: nat) returns (steps: seq<Step>)
    requires Valid(t) && Beside(t, s, base, expiry, p) && s.now <= until && MayWaitUntil(t, s, p, until)
    ensures ValidRun(t, s, steps) && Beside(t, Run(t, s, steps), base, expiry, p) && Run(t, s, steps).now == until
  {
    if expiry <= s.now {
      steps := ServesOn(t, s, |base|, until);
    } else if until < expiry {
      OneStep(t, s, Advance(until));
      steps := [Advance(until)];
    } else {
      OneStep(t, s, Advance(expiry));
      var s1 := State(expiry, s.history, s.phases);
      assert Run(t, s, [Advance(expiry)]) == s1;
      var over := TakesOver(t, s1, base, expiry, p);
      var s2 := Run(t, s1, over);
      var rest := ServesOn(t, s2, |base|, until);
      RunConcat(t, s1, over, rest);
      RunConcat(t, s, [Advance(expiry)], over + rest);
      steps := [Advance(expiry)] + (over + rest);
    }
  }

  /** Time passes, and then instance 0 takes a step of its own that writes nothing. */
  lemma PassThen(t: Timing, s: State, base: seq<Write>, expiry: nat, p: Phase, until: nat, step: Step, p': Phase)
    returns (steps: seq<Step>)
    requires Valid(t) && Beside(t, s, base, expiry, p) && s.now <= until && MayWaitUntil(t, s, p, until)
    requires forall s1 :: Beside(t, s1, base, expiry, p) && s1.now == until ==>
               Enabled(t, s1, step) && Apply(t, s1, step) == With(s1, 0, p')
    ensures ValidRun(t, s, steps) && Beside(t, Run(t, s, steps), base, expiry, p') && Run(t, s, steps).now == until
  {
    var pass := PassTime(t, s, base, expiry, p, until);
    var s1 := Run(t, s, pass);
    OneStep(t, s1, step);
    RunConcat(t, s, pass, [step]);
    steps := pass + [step];
  }

  // ----- Failing every tick -------------------------------------------------------------

  function Later(a: nat, b: nat): nat { if a < b then b else a }

  /** Waiting for the next tick after `k` that failed at once, each as soon as it could be taken. */
  function Missed(t: Timing, claim: nat, tag: nat, anchor: nat, lastOk: nat, k: nat): Phase {
    Leading(claim, tag, anchor, k, lastOk, Later(anchor + k * t.beat, lastOk))
  }

  lemma NextTaken(t: Timing, claim: nat, tag: nat, anchor: nat, lastOk: nat, k: nat)
    ensures TakenAt(t, Missed(t, claim, tag, anchor, lastOk, k)) == Later(anchor + (k + 1) * t.beat, lastOk)
    ensures Due(t, Missed(t, claim, tag, anchor, lastOk, k)) == anchor + (k + 1) * t.beat
    ensures Later(anchor + k * t.beat, lastOk) <= Later(anchor + (k + 1) * t.beat, lastOk)
  {
    MulMonotone(k, k + 1, t.beat);
  }

  /** The next tick is sent as soon as it can be. */
  lemma SendsNext(t: Timing, s: State, base: seq<Write>, expiry: nat, claim: nat, tag: nat, anchor: nat, lastOk: nat,
                  k: nat)
    returns (steps: seq<Step>)
    requires Valid(t) && s.now == Later(anchor + k * t.beat, lastOk)
    requires Beside(t, s, base, expiry, Missed(t, claim, tag, anchor, lastOk, k))
    ensures ValidRun(t, s, steps)
    ensures var at := Later(anchor + (k + 1) * t.beat, lastOk);
            && Run(t, s, steps).now == at
            && Beside(t, Run(t, s, steps), base, expiry,
                      Beating(claim, tag, anchor, k, lastOk, Later(anchor + k * t.beat, lastOk), at, Pending))
  {
    NextTaken(t, claim, tag, anchor, lastOk, k);
    var at := Later(anchor + (k + 1) * t.beat, lastOk);
    steps := PassThen(t, s, base, expiry, Missed(t, claim, tag, anchor, lastOk, k), at, Beat(0),
                      Beating(claim, tag, anchor, k, lastOk, Later(anchor + k * t.beat, lastOk), at, Pending));
  }

  lemma MissesOne(t: Timing, s: State, base: seq<Write>, expiry: nat, claim: nat, tag: nat, anchor: nat, lastOk: nat,
                  k: nat)
    returns (steps: seq<Step>)
    requires Valid(t) && s.now == Later(anchor + k * t.beat, lastOk)
    requires Beside(t, s, base, expiry, Missed(t, claim, tag, anchor, lastOk, k))
    requires anchor + (k + 1) * t.beat < lastOk + t.lease
    ensures ValidRun(t, s, steps)
    ensures Beside(t, Run(t, s, steps), base, expiry, Missed(t, claim, tag, anchor, lastOk, k + 1))
    ensures Run(t, s, steps).now == Later(anchor + (k + 1) * t.beat, lastOk)
  {
    var send := SendsNext(t, s, base, expiry, claim, tag, anchor, lastOk, k);
    var s1 := Run(t, s, send);
    assert Apply(t, s1, BeatFails(0)) == With(s1, 0, Missed(t, claim, tag, anchor, lastOk, k + 1));
    OneStep(t, s1, BeatFails(0));
    RunConcat(t, s, send, [BeatFails(0)]);
    steps := send + [BeatFails(0)];
  }

  lemma {:induction false} MissesUpTo(t: Timing, s: State, base: seq<Write>, expiry: nat, claim: nat, tag: nat,
                                      anchor: nat, lastOk: nat, k: nat, m: nat)
    returns (steps: seq<Step>)
    requires Valid(t) && k <= m && anchor + m * t.beat < lastOk + t.lease && s.now == Later(anchor + k * t.beat, lastOk)
    requires Beside(t, s, base, expiry, Missed(t, claim, tag, anchor, lastOk, k))
    ensures ValidRun(t, s, steps)
    ensures Beside(t, Run(t, s, steps), base, expiry, Missed(t, claim, tag, anchor, lastOk, m))
    ensures Run(t, s, steps).now == Later(anchor + m * t.beat, lastOk)
    decreases m - k
  {
    if k == m {
      steps := [];
    } else {
      MulMonotone(k + 1, m, t.beat);
      var first := MissesOne(t, s, base, expiry, claim, tag, anchor, lastOk, k);
      var rest := MissesUpTo(t, Run(t, s, first), base, expiry, claim, tag, anchor, lastOk, k + 1, m);
      RunConcat(t, s, first, rest);
      steps := first + rest;
    }
  }

  /** The ticks that can fail before instance 0 gives up. */
  lemma MostMisses(x: nat, y: nat) returns (m: nat)
    requires x > 0 && y > 0
    ensures m + 1 == CeilDiv(x, y) && m * y < x <= (m + 1) * y
  {
    CeilDivBound(0, x, y);
    m := CeilDiv(x, y) - 1;
    assert (m + 1) * y == m * y + y;
  }

  /** When instance 0 stops serving, having failed every tick since the answer at `lastOk`. */
  function Stops(t: Timing, anchor: nat, lastOk: nat): nat
    requires t.beat > 0 && anchor <= lastOk
  { anchor + CeilDiv(lastOk - anchor + t.lease, t.beat) * t.beat + t.call }

  /** Two serve, and the younger has been serving since `expiry`. */
  predicate Overlapping(s: State, expiry: nat) {
    && |s.phases| == 2 && Serving(s.phases[0]) && Serving(s.phases[1]) && s.phases[0].tag < s.phases[1].tag
    && ClaimOf(s.phases[1]) < |s.history| && s.history[ClaimOf(s.phases[1])].landed == expiry
  }

  lemma BesideOverlaps(t: Timing, s: State, base: seq<Write>, expiry: nat, p: Phase)
    requires Beside(t, s, base, expiry, p) && Serving(p) && p.tag < |base| && expiry <= s.now
    ensures Overlapping(s, expiry)
  {}

  /** The last tick it may take is sent, and answered as late as it may be. */
  lemma LastTick(t: Timing, s: State, base: seq<Write>, expiry: nat, claim: nat, tag: nat, anchor: nat, lastOk: nat,
                 m: nat)
    returns (steps: seq<Step>)
    requires Valid(t) && s.now == Later(anchor + m * t.beat, lastOk) && tag < |base|
    requires Beside(t, s, base, expiry, Missed(t, claim, tag, anchor, lastOk, m))
    requires expiry <= lastOk + t.lease <= anchor + (m + 1) * t.beat
    ensures ValidRun(t, s, steps)
    ensures Run(t, s, steps).now == anchor + (m + 1) * t.beat + t.call && Overlapping(Run(t, s, steps), expiry)
  {
    var at := anchor + (m + 1) * t.beat;
    var p := Beating(claim, tag, anchor, m, lastOk, Later(anchor + m * t.beat, lastOk), at, Pending);
    var send := SendsNext(t, s, base, expiry, claim, tag, anchor, lastOk, m);
    var s1 := Run(t, s, send);
    var last := PassTime(t, s1, base, expiry, p, at + t.call);
    BesideOverlaps(t, Run(t, s1, last), base, expiry, p);
    RunConcat(t, s, send, last);
    steps := send + last;
  }

  lemma MissesThenStops(t: Timing, s: State, base: seq<Write>, expiry: nat, claim: nat, tag: nat, anchor: nat,
                        lastOk: nat)
    returns (steps: seq<Step>)
    requires Valid(t) && anchor <= lastOk == s.now && tag < |base| && expiry <= lastOk + t.lease
    requires Beside(t, s, base, expiry, Leading(claim, tag, anchor, 0, lastOk, lastOk))
    ensures ValidRun(t, s, steps)
    ensures Run(t, s, steps).now == Stops(t, anchor, lastOk) && Overlapping(Run(t, s, steps), expiry)
  {
    var m := MostMisses(lastOk - anchor + t.lease, t.beat);
    var misses := MissesUpTo(t, s, base, expiry, claim, tag, anchor, lastOk, 0, m);
    var s1 := Run(t, s, misses);
    var last := LastTick(t, s1, base, expiry, claim, tag, anchor, lastOk, m);
    RunConcat(t, s, misses, last);
    steps := misses + last;
  }

  // ----- A claim that is never refreshed ------------------------------------------------

  /** The ticker starts as late as it may. */
  lemma ClaimOverlaps(t: Timing) returns (steps: seq<Step>)
    requires Valid(t)
    ensures ValidRun(t, Init(2), steps)
    ensures Run(t, Init(2), steps).now == ClaimReach(t) + t.call && Overlapping(Run(t, Init(2), steps), t.lease)
  {
    ClaimsAtZero(t);
    var claim := [BeginCreate(0), CreateLands(0)];
    var s0, base := Run(t, Init(2), claim), [Write(0, 0, 0)];
    var lead := PassThen(t, s0, base, t.lease, Claimed(0), t.setup, BecomeLeader(0),
                         Leading(0, 0, t.setup, 0, t.setup, t.setup));
    var s1 := Run(t, s0, lead);
    var rest := MissesThenStops(t, s1, base, t.lease, 0, 0, t.setup, t.setup);
    RunConcat(t, s0, lead, rest);
    RunConcat(t, Init(2), claim, lead + rest);
    steps := claim + (lead + rest);
  }

  // ----- A refresh answered late --------------------------------------------------------

  /** When the tick after `r` late answers is taken: `r` behind its schedule. */
  function LagTime(t: Timing, r: nat): nat { (r + 1) * t.beat + r }

  /** Instance 0 is about to send a refresh `r` behind its schedule; instance 1 is idle. */
  predicate Lagging(t: Timing, s: State, r: nat) {
    && s.now == LagTime(t, r) && s.history != [] && |s.phases| == 2 && s.phases[1].Idle?
    && var p := s.phases[0];
       && p.Leading? && p.claim == 0 && p.tag == Last(s) && p.anchor == r * t.beat && p.misses == 0
       && p.lastOk == p.since <= s.now
  }

  /** The refresh is sent and lands at once. */
  lemma LagLands(t: Timing, s: State, r: nat)
    requires Lagging(t, s, r)
    ensures ValidRun(t, s, [Beat(0), BeatLands(0)])
    ensures var p, n := s.phases[0], |s.history|;
            Run(t, s, [Beat(0), BeatLands(0)]) ==
            State(s.now, s.history + [Write(0, s.now, s.now)],
                  [Beating(0, n - 1, p.anchor, 0, p.lastOk, p.since, s.now, Landed(n)), Idle])
  {
    var p, n := s.phases[0], |s.history|;
    LagDue(t, s, r);
    var s1 := State(s.now, s.history, [Beating(0, n - 1, p.anchor, 0, p.lastOk, p.since, s.now, Pending), Idle]);
    assert Apply(t, s, Beat(0)) == s1;
    OneStep(t, s1, BeatLands(0));
    MoreSteps(t, s, Beat(0), [BeatLands(0)]);
    assert [Beat(0)] + [BeatLands(0)] == [Beat(0), BeatLands(0)];
  }

  lemma LagDue(t: Timing, s: State, r: nat)
    requires Lagging(t, s, r)
    ensures Due(t, s.phases[0]) == (r + 1) * t.beat
  {
    assert (r + 1) * t.beat == r * t.beat + t.beat;
  }

  /** An answer one later than the interval puts the schedule one further behind. */
  lemma LagsMore(t: Timing, s: State, r: nat) returns (steps: seq<Step>)
    requires t.beat < t.call && Lagging(t, s, r)
    ensures ValidRun(t, s, steps) && Lagging(t, Run(t, s, steps), r + 1)
  {
    LagDue(t, s, r);
    LagLands(t, s, r);
    var n, next := |s.history|, LagTime(t, r + 1);
    assert next == s.now + t.beat + 1 by { assert (r + 2) * t.beat == (r + 1) * t.beat + t.beat; }
    var s2 := Run(t, s, [Beat(0), BeatLands(0)]);
    var s3 := State(next, s2.history, s2.phases);
    var s4 := State(next, s2.history, [Leading(0, n, (r + 1) * t.beat, 0, next, next), Idle]);
    assert Apply(t, s2, Advance(next)) == s3;
    assert Due(t, s3.phases[0]) == (r + 1) * t.beat;
    assert Apply(t, s3, BeatAcked(0)) == s4;
    OneStep(t, s3, BeatAcked(0));
    MoreSteps(t, s2, Advance(next), [BeatAcked(0)]);
    RunConcat(t, s, [Beat(0), BeatLands(0)], [Advance(next)] + [BeatAcked(0)]);
    steps := [Beat(0), BeatLands(0)] + ([Advance(next)] + [BeatAcked(0)]);
  }

  lemma StartsLag(t: Timing) returns (steps: seq<Step>)
    ensures ValidRun(t, Init(2), steps) && Lagging(t, Run(t, Init(2), steps), 0)
  {
    ClaimsAtZero(t);
    var claim := [BeginCreate(0), CreateLands(0)];
    var s0 := Run(t, Init(2), claim);
    var s1 := State(0, s0.history, [Leading(0, 0, 0, 0, 0, 0), Idle]);
    assert Apply(t, s0, BecomeLeader(0)) == s1;
    assert Due(t, s1.phases[0]) == t.beat;
    OneStep(t, s1, Advance(t.beat));
    MoreSteps(t, s0, BecomeLeader(0), [Advance(t.beat)]);
    RunConcat(t, Init(2), claim, [BecomeLeader(0)] + [Advance(t.beat)]);
    steps := claim + ([BecomeLeader(0)] + [Advance(t.beat)]);
  }

  lemma {:induction false} ReachesLag(t: Timing, r: nat) returns (steps: seq<Step>)
    requires r == 0 || t.beat < t.call
    ensures ValidRun(t, Init(2), steps) && Lagging(t, Run(t, Init(2), steps), r)
    decreases r
  {
    if r == 0 {
      steps := StartsLag(t);
    } else {
      var before := ReachesLag(t, r - 1);
      var more := LagsMore(t, Run(t, Init(2), before), r - 1);
      RunConcat(t, Init(2), before, more);
      steps := before + more;
    }
  }

  /** The last success is answered as late as it may be. */
  lemma RefreshOverlaps(t: Timing, r: nat) returns (steps: seq<Step>)
    requires Valid(t) && (r == 0 || t.beat < t.call)
    ensures ValidRun(t, Init(2), steps)
    ensures Run(t, Init(2), steps).now == Stops(t, (r + 1) * t.beat, LagTime(t, r) + t.call)
    ensures Overlapping(Run(t, Init(2), steps), LagTime(t, r) + t.lease)
  {
    var lag := ReachesLag(t, r);
    var rest := LagOverlaps(t, Run(t, Init(2), lag), r);
    RunConcat(t, Init(2), lag, rest);
    steps := lag + rest;
  }

  lemma LagOverlaps(t: Timing, s: State, r: nat) returns (steps: seq<Step>)
    requires Valid(t) && Lagging(t, s, r)
    ensures ValidRun(t, s, steps)
    ensures Run(t, s, steps).now == Stops(t, (r + 1) * t.beat, LagTime(t, r) + t.call)
    ensures Overlapping(Run(t, s, steps), LagTime(t, r) + t.lease)
  {
    LagDue(t, s, r);
    LagLands(t, s, r);
    var land := [Beat(0), BeatLands(0)];
    var s1 := Run(t, s, land);
    assert Due(t, s1.phases[0]) == Due(t, s.phases[0]);
    var rest := LateAnswerOverlaps(t, s1, s1.phases[0], |s.history|);
    RunConcat(t, s, land, rest);
    steps := land + rest;
  }

  lemma AnswerIsHeard(t: Timing, base: seq<Write>, expiry: nat, p: Phase, at: nat, n: nat)
    requires p.Beating? && p.outcome == Landed(n)
    ensures forall s :: Beside(t, s, base, expiry, p) && s.now == at ==>
              && Enabled(t, s, BeatAcked(0))
              && Apply(t, s, BeatAcked(0)) == With(s, 0, Leading(p.claim, n, Due(t, p), 0, at, at))
  {}

  lemma HearsLate(t: Timing, s: State, expiry: nat, p: Phase, n: nat) returns (steps: seq<Step>)
    requires Valid(t) && p.Beating? && p.claim == 0 && p.built == s.now && p.outcome == Landed(n)
    requires s.now < expiry && Beside(t, s, s.history, expiry, p)
    ensures ValidRun(t, s, steps) && Run(t, s, steps).now == s.now + t.call
    ensures Beside(t, Run(t, s, steps), s.history, expiry,
                   Leading(0, n, Due(t, p), 0, s.now + t.call, s.now + t.call))
  {
    var at := s.now + t.call;
    AnswerIsHeard(t, s.history, expiry, p, at, n);
    steps := PassThen(t, s, s.history, expiry, p, at, BeatAcked(0), Leading(0, n, Due(t, p), 0, at, at));
  }

  lemma LateAnswerOverlaps(t: Timing, s: State, p: Phase, n: nat) returns (steps: seq<Step>)
    requires Valid(t) && |s.history| == n + 1 && s.phases == [p, Idle] && s.history[n].built == s.now
    requires p.Beating? && p.claim == 0 && p.built == s.now && p.outcome == Landed(n) && Due(t, p) <= s.now
    ensures ValidRun(t, s, steps)
    ensures Run(t, s, steps).now == Stops(t, Due(t, p), s.now + t.call)
    ensures Overlapping(Run(t, s, steps), s.now + t.lease)
  {
    var expiry, answered := s.now + t.lease, s.now + t.call;
    var first := HearsLate(t, s, expiry, p, n);
    var rest := MissesThenStops(t, Run(t, s, first), s.history, expiry, 0, n, Due(t, p), answered);
    RunConcat(t, s, first, rest);
    steps := first + rest;
  }

  // ----- The bound is exact -------------------------------------------------------------

  lemma DivUnique(a: nat, y: nat, q: nat, r: nat)
    requires y > 0 && r < y && a == q * y + r
    ensures a / y == q
  {
    var d := a / y;
    assert a == y * d + a % y;
    assert y * d == d * y;
    if d < q { MulMonotone(d + 1, q, y); }
    if q < d { MulMonotone(q + 1, d, y); }
  }

  /** How far behind its schedule a leader must be for the ticks to fall just before the lease is given up. */
  lemma WorstLag(x: nat, y: nat) returns (r: nat)
    requires y > 0
    ensures CeilDiv(r + x, y) * y == r + x + y - 1
  {
    var q, e := x / y, x % y;
    assert x == q * y + e;
    r := if e <= 1 then 1 - e else y + 1 - e;
    var n := if e <= 1 then q else q + 1;
    assert n * y == if e <= 1 then q * y else q * y + y;
    assert r + x == n * y + 1;
    assert (n + 1) * y == n * y + y;
    DivUnique(r + x + y - 1, y, n + 1, 0);
  }

  /** A run in which the younger of two servers has been serving for the whole of `OverlapBound`. */
  ghost predicate Reaches(t: Timing, steps: seq<Step>)
    requires t.beat > 0 && t.lease > 0 && ValidRun(t, Init(2), steps)
  {
    var s := Run(t, Init(2), steps);
    && |s.phases| == 2 && Serving(s.phases[0]) && Serving(s.phases[1]) && s.phases[0].tag < s.phases[1].tag
    && ClaimOf(s.phases[1]) < |s.history|
    && s.now - s.history[ClaimOf(s.phases[1])].landed == OverlapBound(t)
  }

  /** The bound on the overlap is its exact maximum, for any delays. */
  lemma OverlapBoundReached(t: Timing) returns (steps: seq<Step>)
    requires Valid(t)
    ensures ValidRun(t, Init(2), steps) && Reaches(t, steps)
  {
    if RefreshReach(t) <= ClaimReach(t) {
      steps := ClaimOverlaps(t);
    } else if t.call <= t.beat {
      steps := RefreshOverlaps(t, 0);
    } else {
      var r := WorstLag(t.call + t.lease, t.beat);
      steps := RefreshOverlaps(t, r);
    }
  }
}

/** What every reachable state of the lease protocol keeps. */
module LeaseSafety {
  import opened LeaseProtocol

  // ----- The history of writes ----------------------------------------------------------

  /** Of two writes by different holders, the newer was built after the older had expired. */
  predicate TakeoverExpired(t: Timing, older: Write, newer: Write) {
    newer.holder != older.holder ==> older.built + t.lease <= newer.built
  }

  predicate HistoryInv(t: Timing, s: State) {
    && (forall n :: 0 <= n < |s.history| ==> s.history[n].built <= s.history[n].landed <= s.now)
    && (forall a, b :: 0 <= a < b < |s.history| ==>
          && s.history[a].built <= s.history[b].built
          && s.history[a].landed <= s.history[b].landed
          && TakeoverExpired(t, s.history[a], s.history[b]))
  }

  /** Writes `from` to `to` are an unbroken reign of one holder. */
  predicate Reign(history: seq<Write>, holder: nat, from: nat, to: nat) {
    from <= to < |history| && forall n :: from <= n <= to ==> history[n].holder == holder
  }

  /** What a leader knows is recent: bounds on its schedule, its last answer and its misses. */
  predicate LeaderInv(t: Timing, s: State, i: nat, p: Phase)
    requires p.Leading? || p.Beating?
  {
    && Reign(s.history, i, p.claim, p.tag)
    && var built := s.history[p.tag].built;
       && built <= p.lastOk <= built + (if p.tag == p.claim then t.setup else t.call)
       && (if p.tag == p.claim then p.anchor == p.lastOk else p.anchor <= built)
       && p.lastOk <= p.since <= s.now
       && p.since < p.lastOk + t.lease
       && p.anchor + p.misses * t.beat <= p.since
       && (t.call <= t.beat ==> p.lastOk <= p.anchor + t.call && p.since <= p.anchor + p.misses * t.beat + t.call)
  }

  ghost predicate PhaseInv(t: Timing, s: State, i: nat)
    requires i < |s.phases|
  {
    match s.phases[i]
    case Idle => true
    case Creating(built) => built <= s.now <= built + t.setup
    case Looking => true
    case Seen(tag) => tag < |s.history|
    case Stealing(tag, built) =>
      tag < |s.history| && Expired(t, s.history[tag], built) && built <= s.now <= built + t.setup
    case Claimed(tag) => Reign(s.history, i, tag, tag) && s.now <= s.history[tag].built + t.setup
    case Leading(_, _, _, _, _, _) =>
      LeaderInv(t, s, i, s.phases[i]) && s.now <= TakenAt(t, s.phases[i])
    case Beating(claim, tag, _, _, _, _, built, outcome) =>
      && LeaderInv(t, s, i, s.phases[i])
      && built == TakenAt(t, s.phases[i])
      && built <= s.now <= built + t.call
      && (outcome.Landed? ==> Reign(s.history, i, claim, outcome.tag) && tag < outcome.tag
                              && s.history[outcome.tag].built == built)
  }

  ghost predicate Inv(t: Timing, s: State) {
    HistoryInv(t, s) && forall i :: 0 <= i < |s.phases| ==> PhaseInv(t, s, i)
  }

  lemma InitInv(t: Timing, n: nat)
    ensures Inv(t, Init(n))
  {}

  /** A longer history keeps what a phase claims about a shorter one. */
  lemma PhaseKept(t: Timing, s: State, s': State, j: nat)
    requires j < |s.phases| == |s'.phases| && PhaseInv(t, s, j)
    requires s'.now == s.now && s.history <= s'.history && s'.phases[j] == s.phases[j]
    ensures PhaseInv(t, s', j)
  {
    assert forall n :: 0 <= n < |s.history| ==> s'.history[n] == s.history[n];
  }

  /** Appending a write that may follow the last one keeps the history and every phase. */
  lemma AppendInv(t: Timing, s: State, i: nat, built: nat, p: Phase)
    requires Inv(t, s) && i < |s.phases| && built <= s.now
    requires s.history != [] ==>
               s.history[Last(s)].built <= built && TakeoverExpired(t, s.history[Last(s)], Write(i, built, s.now))
    ensures HistoryInv(t, WithWrite(s, i, built, p))
    ensures forall j :: 0 <= j < |s.phases| && j != i ==> PhaseInv(t, WithWrite(s, i, built, p), j)
  {
    var s' := WithWrite(s, i, built, p);
    assert forall n :: 0 <= n < |s.history| ==> s'.history[n] == s.history[n];
    forall j | 0 <= j < |s.phases| && j != i ensures PhaseInv(t, s', j) {
      PhaseKept(t, s, s', j);
    }
  }

  /** Changing one phase keeps the others. */
  lemma WithInv(t: Timing, s: State, i: nat, p: Phase)
    requires Inv(t, s) && i < |s.phases|
    requires PhaseInv(t, With(s, i, p), i)
    ensures Inv(t, With(s, i, p))
  {
    var s' := With(s, i, p);
    forall j | 0 <= j < |s'.phases| ensures PhaseInv(t, s', j) {
      assert PhaseInv(t, s, j);
    }
  }

  lemma BeatLandsInv(t: Timing, s: State, i: nat)
    requires Valid(t) && Inv(t, s) && Enabled(t, s, BeatLands(i))
    ensures Inv(t, Apply(t, s, BeatLands(i)))
  {
    assert PhaseInv(t, s, i);
    var p := s.phases[i];
    var s' := Apply(t, s, BeatLands(i));
    AppendInv(t, s, i, p.built, s'.phases[i]);
    assert forall n :: 0 <= n < |s.history| ==> s'.history[n] == s.history[n];
    assert PhaseInv(t, s', i);
  }

  lemma ClaimLandsInv(t: Timing, s: State, i: nat, step: Step)
    requires Valid(t) && Inv(t, s) && Enabled(t, s, step)
    requires step in {CreateLands(i), CreateLandsUnseen(i), StealLands(i), StealLandsUnseen(i)}
    ensures Inv(t, Apply(t, s, step))
  {
    assert PhaseInv(t, s, i);
    var s' := Apply(t, s, step);
    AppendInv(t, s, i, s.phases[i].built, s'.phases[i]);
    assert PhaseInv(t, s', i);
  }

  lemma AdvanceInv(t: Timing, s: State, to: nat)
    requires Inv(t, s) && Enabled(t, s, Advance(to))
    ensures Inv(t, Apply(t, s, Advance(to)))
  {
    var s' := Apply(t, s, Advance(to));
    forall j | 0 <= j < |s'.phases| ensures PhaseInv(t, s', j) {
      assert PhaseInv(t, s, j) && MayWaitUntil(t, s, s.phases[j], to);
    }
  }

  lemma BecomeLeaderInv(t: Timing, s: State, i: nat)
    requires Valid(t) && Inv(t, s) && Enabled(t, s, BecomeLeader(i))
    ensures Inv(t, Apply(t, s, BecomeLeader(i)))
  {
    assert PhaseInv(t, s, i);
    WithInv(t, s, i, Apply(t, s, BecomeLeader(i)).phases[i]);
  }

  lemma BeatInv(t: Timing, s: State, i: nat)
    requires Valid(t) && Inv(t, s) && Enabled(t, s, Beat(i))
    ensures Inv(t, Apply(t, s, Beat(i)))
  {
    assert PhaseInv(t, s, i);
    WithInv(t, s, i, Apply(t, s, Beat(i)).phases[i]);
  }

  lemma BeatAckedInv(t: Timing, s: State, i: nat)
    requires Valid(t) && Inv(t, s) && Enabled(t, s, BeatAcked(i))
    ensures Inv(t, Apply(t, s, BeatAcked(i)))
  {
    assert PhaseInv(t, s, i);
    NextTick(t, s.phases[i]);
    var p' := Apply(t, s, BeatAcked(i)).phases[i];
    NextTick(t, p');
    WithInv(t, s, i, p');
  }

  lemma BeatFailsInv(t: Timing, s: State, i: nat)
    requires Valid(t) && Inv(t, s) && Enabled(t, s, BeatFails(i))
    ensures Inv(t, Apply(t, s, BeatFails(i)))
  {
    assert PhaseInv(t, s, i);
    NextTick(t, s.phases[i]);
    var p' := Apply(t, s, BeatFails(i)).phases[i];
    NextTick(t, p');
    WithInv(t, s, i, p');
  }

  /** Ticks are one interval apart. */
  lemma NextTick(t: Timing, p: Phase)
    ensures p.Leading? || p.Beating? ==> Due(t, p) == p.anchor + p.misses * t.beat + t.beat
  {
    if p.Leading? || p.Beating? { assert (p.misses + 1) * t.beat == p.misses * t.beat + t.beat; }
  }

  lemma StepInv(t: Timing, s: State, step: Step)
    requires Valid(t) && Inv(t, s) && Enabled(t, s, step)
    ensures Inv(t, Apply(t, s, step))
  {
    match step
    case Advance(to) => AdvanceInv(t, s, to);
    case CreateLands(i) => ClaimLandsInv(t, s, i, step);
    case CreateLandsUnseen(i) => ClaimLandsInv(t, s, i, step);
    case StealLands(i) => ClaimLandsInv(t, s, i, step);
    case StealLandsUnseen(i) => ClaimLandsInv(t, s, i, step);
    case BecomeLeader(i) => BecomeLeaderInv(t, s, i);
    case Beat(i) => BeatInv(t, s, i);
    case BeatLands(i) => BeatLandsInv(t, s, i);
    case BeatAcked(i) => BeatAckedInv(t, s, i);
    case BeatFails(i) => BeatFailsInv(t, s, i);
    case BeginCreate(i) => WithInv(t, s, i, Creating(s.now));
    case CreateExists(i) => WithInv(t, s, i, Looking);
    case Read(i) => WithInv(t, s, i, Seen(Last(s)));
    case CheckExpiry(i) =>
      assert PhaseInv(t, s, i);
      WithInv(t, s, i, Apply(t, s, step).phases[i]);
    case StealRejected(i) => WithInv(t, s, i, Idle);
    case ClaimFails(i) => WithInv(t, s, i, Idle);
    case BeatRejected(i) => WithInv(t, s, i, Idle);
    case Exit(i) => WithInv(t, s, i, Idle);
  }

  lemma {:induction false} RunInv(t: Timing, s: State, steps: seq<Step>)
    requires Valid(t) && Inv(t, s) && ValidRun(t, s, steps)
    ensures Inv(t, Run(t, s, steps))
    decreases |steps|
  {
    if steps != [] {
      StepInv(t, s, steps[0]);
      RunInv(t, Apply(t, s, steps[0]), steps[1..]);
    }
  }

  // ----- The history, over whole runs ---------------------------------------------------

  /** Writes are never lost or reordered. */
  lemma {:induction false} HistoryOnlyGrows(t: Timing, s: State, steps: seq<Step>)
    requires ValidRun(t, s, steps)
    ensures s.history <= Run(t, s, steps).history
    decreases |steps|
  {
    if steps != [] { HistoryOnlyGrows(t, Apply(t, s, steps[0]), steps[1..]); }
  }

  /**
    Once a newer write exists, a tag never passes a conditional write again: in every
    continuation, a heartbeat or a steal under that tag cannot take effect.
   */
  lemma SupersededTagNeverPasses(t: Timing, s: State, steps: seq<Step>, tag: nat, i: nat)
    requires ValidRun(t, s, steps) && tag < Last(s)
    ensures var s' := Run(t, s, steps);
            i < |s'.phases| && (s'.phases[i].Beating? || s'.phases[i].Stealing?) && s'.phases[i].tag == tag ==>
              && !Enabled(t, s', BeatLands(i)) && !Enabled(t, s', StealLands(i))
              && !Enabled(t, s', StealLandsUnseen(i))
  {
    HistoryOnlyGrows(t, s, steps);
  }

  /**
    Over every run, including writes that land but are reported failed: serving instances
    hold distinct tags, each tag is that instance's own write, and whenever the holder
    changes the payload replaced had already expired when the new one was built.
   */
  lemma TokensAndTakeovers(t: Timing, n: nat, steps: seq<Step>)
    requires Valid(t) && ValidRun(t, Init(n), steps)
    ensures var s := Run(t, Init(n), steps);
            && (forall i :: 0 <= i < |s.phases| && Serving(s.phases[i]) ==>
                  s.phases[i].tag < |s.history| && s.history[s.phases[i].tag].holder == i)
            && (forall i, j :: 0 <= i < j < |s.phases| && Serving(s.phases[i]) && Serving(s.phases[j]) ==>
                  s.phases[i].tag != s.phases[j].tag)
            && (forall a, b :: 0 <= a < b < |s.history| && s.history[a].holder != s.history[b].holder ==>
                  s.history[a].built + t.lease <= s.history[b].built <= s.history[b].landed)
  {
    InitInv(t, n);
    RunInv(t, Init(n), steps);
    var s := Run(t, Init(n), steps);
    forall i | 0 <= i < |s.phases| && Serving(s.phases[i])
      ensures s.phases[i].tag < |s.history| && s.history[s.phases[i].tag].holder == i
    {
      assert PhaseInv(t, s, i);
    }
  }

  // ----- Bounded overlap ----------------------------------------------------------------

  function CeilDiv(x: nat, y: nat): nat
    requires y > 0
  { (x + y - 1) / y }

  lemma CeilDivBound(m: nat, x: nat, y: nat)
    requires y > 0 && m * y < x
    ensures (m + 1) * y <= CeilDiv(x, y) * y < x + y
    ensures x <= CeilDiv(x, y) * y
  {
    var c := CeilDiv(x, y);
    assert c * y <= x + y - 1 < c * y + y;
    if c <= m { MulMonotone(c, m, y); }
    MulMonotone(m + 1, c, y);
  }

  lemma MulMonotone(a: nat, b: nat, y: nat)
    requires a <= b
    ensures a * y <= b * y
  {}

  /** From building a claim to the last tick of an instance that never refreshes it. */
  function ClaimReach(t: Timing): nat
    requires t.beat > 0
  { t.setup + CeilDiv(t.lease, t.beat) * t.beat }

  /**
    From building a refresh to the last tick after it.  While calls last at most the
    interval every tick is taken on schedule; longer ones put the schedule anywhere behind.
   */
  function RefreshReach(t: Timing): nat
    requires t.beat > 0
  { if t.call <= t.beat then CeilDiv(t.lease + t.call, t.beat) * t.beat else t.call + t.lease + t.beat - 1 }

  /** How long after its last refresh known to have landed an instance can still be serving. */
  function ServeBound(t: Timing): nat
    requires t.beat > 0 && t.lease > 0
  {
    var reach := if ClaimReach(t) < RefreshReach(t) then RefreshReach(t) else ClaimReach(t);
    reach + t.call
  }

  /** The youngest of two servers has been there at most this long. */
  function OverlapBound(t: Timing): int
    requires t.beat > 0 && t.lease > 0
  { ServeBound(t) - t.lease }

  lemma ServingIsRecent(t: Timing, s: State, i: nat)
    requires Valid(t) && Inv(t, s) && i < |s.phases| && Serving(s.phases[i])
    ensures s.phases[i].tag < |s.history|
    ensures s.now <= s.history[s.phases[i].tag].built + ServeBound(t)
  {
    assert PhaseInv(t, s, i);
    var p := s.phases[i];
    NextTick(t, p);
    if p.Leading? || p.Beating? {
      if p.tag == p.claim {
        CeilDivBound(p.misses, t.lease, t.beat);
      } else if t.call <= t.beat {
        CeilDivBound(p.misses, t.lease + t.call, t.beat);
      }
    }
  }

  /** A superseded server: its successor claimed a whole lease after the last refresh it knows of. */
  lemma SuccessorWaitedLease(t: Timing, s: State, i: nat, j: nat)
    requires Valid(t) && Inv(t, s) && i < |s.phases| && j < |s.phases| && i != j
    requires Serving(s.phases[i]) && Serving(s.phases[j]) && s.phases[i].tag < s.phases[j].tag
    ensures s.phases[i].tag < |s.history| && ClaimOf(s.phases[j]) < |s.history|
    ensures s.history[s.phases[i].tag].built + t.lease <= s.history[ClaimOf(s.phases[j])].built
  {
    assert PhaseInv(t, s, i) && PhaseInv(t, s, j);
    var tag, claim := s.phases[i].tag, ClaimOf(s.phases[j]);
    assert Reign(s.history, j, claim, s.phases[j].tag);
    assert s.history[tag].holder == i;
    assert tag < claim;
    assert TakeoverExpired(t, s.history[tag], s.history[claim]);
  }

  /**
    Bounded overlap, in every run with arbitrary failures, lost answers and delays: an
    instance stops at most `ServeBound` after its last refresh known to have landed; if two
    serve at once, the younger one built its claim at least a lease after that refresh and
    so has been serving for at most `ServeBound - lease`.
   */
  lemma BoundedOverlap(t: Timing, n: nat, steps: seq<Step>, i: nat, j: nat)
    requires Valid(t) && ValidRun(t, Init(n), steps)
    ensures var s := Run(t, Init(n), steps);
            i < |s.phases| && Serving(s.phases[i]) ==>
              && s.phases[i].tag < |s.history|
              && s.now <= s.history[s.phases[i].tag].built + ServeBound(t)
              && (j < |s.phases| && Serving(s.phases[j]) && s.phases[i].tag < s.phases[j].tag ==>
                    && ClaimOf(s.phases[j]) < |s.history|
                    && s.history[s.phases[i].tag].built + t.lease <= s.history[ClaimOf(s.phases[j])].built
                    && s.now - s.history[ClaimOf(s.phases[j])].landed <= OverlapBound(t))
  {
    InitInv(t, n);
    RunInv(t, Init(n), steps);
    var s := Run(t, Init(n), steps);
    if i < |s.phases| && Serving(s.phases[i]) {
      ServingIsRecent(t, s, i);
      if j < |s.phases| && Serving(s.phases[j]) && s.phases[i].tag < s.phases[j].tag {
        SuccessorWaitedLease(t, s, i, j);
      }
    }
  }

  /** With instantaneous calls the bound is `ceil(L/H)*H - L`, less than one heartbeat. */
  lemma InstantOverlapBelowHeartbeat(t: Timing)
    requires Valid(t) && t.setup == 0 && t.call == 0
    ensures OverlapBound(t) == CeilDiv(t.lease, t.beat) * t.beat - t.lease
    ensures 0 <= OverlapBound(t) < t.beat
  {
    CeilDivBound((t.lease - 1) / t.beat, t.lease, t.beat);
  }

  /** Never three: when the serve bound is below two leases, two servers rule out a third. */
  lemma NeverThreeServers(t: Timing, n: nat, steps: seq<Step>, i: nat, j: nat, k: nat)
    requires Valid(t) && ValidRun(t, Init(n), steps) && ServeBound(t) < 2 * t.lease
    ensures var s := Run(t, Init(n), steps);
            !(i < |s.phases| && j < |s.phases| && k < |s.phases|
              && Serving(s.phases[i]) && Serving(s.phases[j]) && Serving(s.phases[k])
              && s.phases[i].tag < s.phases[j].tag < s.phases[k].tag)
  {
    InitInv(t, n);
    RunInv(t, Init(n), steps);
    var s := Run(t, Init(n), steps);
    if i < |s.phases| && j < |s.phases| && k < |s.phases|
       && Serving(s.phases[i]) && Serving(s.phases[j]) && Serving(s.phases[k])
       && s.phases[i].tag < s.phases[j].tag < s.phases[k].tag
    {
      ThreeServersSpan(t, s, i, j, k);
    }
  }

  lemma ThreeServersSpan(t: Timing, s: State, i: nat, j: nat, k: nat)
    requires Valid(t) && Inv(t, s) && i < |s.phases| && j < |s.phases| && k < |s.phases|
    requires Serving(s.phases[i]) && Serving(s.phases[j]) && Serving(s.phases[k])
    requires s.phases[i].tag < s.phases[j].tag < s.phases[k].tag
    ensures 2 * t.lease <= ServeBound(t)
  {
    assert PhaseInv(t, s, i) && PhaseInv(t, s, j) && PhaseInv(t, s, k);
    ServingIsRecent(t, s, i);
    SuccessorWaitedLease(t, s, i, j);
    SuccessorWaitedLease(t, s, j, k);
    assert s.history[ClaimOf(s.phases[k])].landed <= s.now;
  }
}

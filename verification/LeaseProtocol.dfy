/**
  Scheduler high availability over one object in an object store.

  Any number of scheduler instances compete for a lease object that supports only
  create-if-absent and compare-and-swap on an entity tag.  Every store call is split into
  the moment it is sent, the moment it takes effect and the moment its answer arrives, so
  other instances act in between, and a write may take effect while its caller is told it
  failed.

  One shared clock is assumed, every write gets a tag never used before (its position in
  the history of writes), a heartbeat call is answered within `call`, and at most `setup`
  passes from building a claim's payload to starting the heartbeat ticker.  A call may take
  longer than the heartbeat interval: the ticker keeps its schedule, and a tick that fell
  due meanwhile is taken as soon as the call is answered.
 */
module LeaseProtocol {
  import opened Options

  /** Durations: the lease, the heartbeat interval, and the two delay bounds. */
  datatype Timing = Timing(lease: nat, beat: nat, setup: nat, call: nat)

  datatype TimingError = ZeroLease | ZeroHeartbeat | HeartbeatNotBelowLease

  /** The start-up check; `None` accepts. */
  function ValidateTiming(lease: nat, beat: nat): (err: Option<TimingError>)
    ensures err.None? <==> 0 < beat < lease
  {
    if lease == 0 then Some(ZeroLease)
    else if beat == 0 then Some(ZeroHeartbeat)
    else if beat >= lease then Some(HeartbeatNotBelowLease)
    else None
  }

  /** Accepted by the check; the delays are arbitrary. */
  predicate Valid(t: Timing) { ValidateTiming(t.lease, t.beat).None? }

  /** A write to the lease object; it expires one lease after its payload was built. */
  datatype Write = Write(holder: nat, built: nat, landed: nat)

  datatype Outcome = Pending | Landed(tag: nat)

  /**
    Where an instance is.  The serving phases remember the write that claimed the lease,
    the tag of the last refresh known to have landed, when the tick of that refresh was
    scheduled, how many ticks have failed since, when its answer arrived, and since when
    the instance has been waiting for the next tick.
   */
  datatype Phase =
    | Idle
    | Creating(built: nat)
    | Looking
    | Seen(tag: nat)
    | Stealing(tag: nat, built: nat)
    | Claimed(tag: nat)
    | Leading(claim: nat, tag: nat, anchor: nat, misses: nat, lastOk: nat, since: nat)
    | Beating(claim: nat, tag: nat, anchor: nat, misses: nat, lastOk: nat, since: nat, built: nat, outcome: Outcome)

  datatype State = State(now: nat, history: seq<Write>, phases: seq<Phase>)

  function Init(n: nat): State { State(0, [], seq(n, _ => Idle)) }

  predicate Serving(p: Phase) { p.Claimed? || p.Leading? || p.Beating? }

  function ClaimOf(p: Phase): nat
    requires Serving(p)
  { if p.Claimed? then p.tag else p.claim }

  // ----- Steps --------------------------------------------------------------------------

  datatype Step =
    | Advance(to: nat)
    | BeginCreate(i: nat)
    | CreateLands(i: nat)
    | CreateLandsUnseen(i: nat)
    | CreateExists(i: nat)
    | Read(i: nat)
    | CheckExpiry(i: nat)
    | StealLands(i: nat)
    | StealLandsUnseen(i: nat)
    | StealRejected(i: nat)
    | ClaimFails(i: nat)
    | BecomeLeader(i: nat)
    | Beat(i: nat)
    | BeatLands(i: nat)
    | BeatRejected(i: nat)
    | BeatAcked(i: nat)
    | BeatFails(i: nat)
    | Exit(i: nat)

  /** When the next tick of a leader is scheduled. */
  function Due(t: Timing, p: Phase): nat
    requires p.Leading? || p.Beating?
  { p.anchor + (p.misses + 1) * t.beat }

  /** When it is taken: on schedule, or at once when it fell due during the last call. */
  function TakenAt(t: Timing, p: Phase): nat
    requires p.Leading? || p.Beating?
  { if Due(t, p) < p.since then p.since else Due(t, p) }

  /** The latest time a phase may last to. */
  predicate MayWaitUntil(t: Timing, s: State, p: Phase, to: nat) {
    match p
    case Creating(built) => to <= built + t.setup
    case Stealing(_, built) => to <= built + t.setup
    case Claimed(tag) => tag < |s.history| && to <= s.history[tag].built + t.setup
    case Leading(_, _, _, _, _, _) => to <= TakenAt(t, p)
    case Beating(_, _, _, _, _, _, built, _) => to <= built + t.call
    case _ => true
  }

  function Last(s: State): int { |s.history| - 1 }

  predicate Expired(t: Timing, w: Write, now: nat) { w.built + t.lease <= now }

  predicate Enabled(t: Timing, s: State, step: Step) {
    match step
    case Advance(to) => s.now <= to && forall i :: 0 <= i < |s.phases| ==> MayWaitUntil(t, s, s.phases[i], to)
    case BeginCreate(i) => i < |s.phases| && s.phases[i].Idle?
    case CreateLands(i) => i < |s.phases| && s.phases[i].Creating? && s.history == []
    case CreateLandsUnseen(i) => i < |s.phases| && s.phases[i].Creating? && s.history == []
    case CreateExists(i) => i < |s.phases| && s.phases[i].Creating? && s.history != []
    case Read(i) => i < |s.phases| && s.phases[i].Looking? && s.history != []
    case CheckExpiry(i) => i < |s.phases| && s.phases[i].Seen? && s.phases[i].tag < |s.history|
    case StealLands(i) => i < |s.phases| && s.phases[i].Stealing? && s.phases[i].tag == Last(s)
    case StealLandsUnseen(i) => i < |s.phases| && s.phases[i].Stealing? && s.phases[i].tag == Last(s)
    case StealRejected(i) => i < |s.phases| && s.phases[i].Stealing? && s.phases[i].tag != Last(s)
    case ClaimFails(i) => i < |s.phases| && (s.phases[i].Creating? || s.phases[i].Looking? || s.phases[i].Stealing?)
    case BecomeLeader(i) => i < |s.phases| && s.phases[i].Claimed?
    case Beat(i) => i < |s.phases| && s.phases[i].Leading? && Due(t, s.phases[i]) <= s.now
    case BeatLands(i) =>
      i < |s.phases| && s.phases[i].Beating? && s.phases[i].outcome.Pending? && s.phases[i].tag == Last(s)
    case BeatRejected(i) =>
      i < |s.phases| && s.phases[i].Beating? && s.phases[i].outcome.Pending? && s.phases[i].tag != Last(s)
    case BeatAcked(i) => i < |s.phases| && s.phases[i].Beating? && s.phases[i].outcome.Landed?
    case BeatFails(i) => i < |s.phases| && s.phases[i].Beating?
    case Exit(i) => i < |s.phases|
  }

  function With(s: State, i: nat, p: Phase): State
    requires i < |s.phases|
  { State(s.now, s.history, s.phases[i := p]) }

  function WithWrite(s: State, i: nat, built: nat, p: Phase): State
    requires i < |s.phases|
  { State(s.now, s.history + [Write(i, built, s.now)], s.phases[i := p]) }

  function Apply(t: Timing, s: State, step: Step): State
    requires Enabled(t, s, step)
  {
    match step
    case Advance(to) => State(to, s.history, s.phases)
    case BeginCreate(i) => With(s, i, Creating(s.now))
    case CreateLands(i) => WithWrite(s, i, s.phases[i].built, Claimed(|s.history|))
    case CreateLandsUnseen(i) => WithWrite(s, i, s.phases[i].built, Idle)
    case CreateExists(i) => With(s, i, Looking)
    case Read(i) => With(s, i, Seen(Last(s)))
    case CheckExpiry(i) =>
      var tag := s.phases[i].tag;
      With(s, i, if Expired(t, s.history[tag], s.now) then Stealing(tag, s.now) else Idle)
    case StealLands(i) => WithWrite(s, i, s.phases[i].built, Claimed(|s.history|))
    case StealLandsUnseen(i) => WithWrite(s, i, s.phases[i].built, Idle)
    case StealRejected(i) => With(s, i, Idle)
    case ClaimFails(i) => With(s, i, Idle)
    case BecomeLeader(i) =>
      var tag := s.phases[i].tag;
      With(s, i, Leading(tag, tag, s.now, 0, s.now, s.now))
    case Beat(i) =>
      var p := s.phases[i];
      With(s, i, Beating(p.claim, p.tag, p.anchor, p.misses, p.lastOk, p.since, s.now, Pending))
    case BeatLands(i) =>
      var p := s.phases[i];
      var landed := Beating(p.claim, p.tag, p.anchor, p.misses, p.lastOk, p.since, p.built, Landed(|s.history|));
      WithWrite(s, i, p.built, landed)
    case BeatRejected(i) => With(s, i, Idle)
    case BeatAcked(i) =>
      var p := s.phases[i];
      With(s, i, Leading(p.claim, p.outcome.tag, Due(t, p), 0, s.now, s.now))
    case BeatFails(i) =>
      var p := s.phases[i];
      With(s, i, if s.now >= p.lastOk + t.lease then Idle
                 else Leading(p.claim, p.tag, p.anchor, p.misses + 1, p.lastOk, s.now))
    case Exit(i) => With(s, i, Idle)
  }

  // ----- Runs ---------------------------------------------------------------------------

  predicate ValidRun(t: Timing, s: State, steps: seq<Step>)
    decreases |steps|
  {
    steps == [] || (Enabled(t, s, steps[0]) && ValidRun(t, Apply(t, s, steps[0]), steps[1..]))
  }

  function Run(t: Timing, s: State, steps: seq<Step>): State
    requires ValidRun(t, s, steps)
    decreases |steps|
  {
    if steps == [] then s else Run(t, Apply(t, s, steps[0]), steps[1..])
  }

  /** No leader is told that a heartbeat failed; claims may still fail or land unseen. */
  predicate NoHeartbeatFailure(steps: seq<Step>) {
    forall k :: 0 <= k < |steps| ==> !steps[k].BeatFails?
  }

  lemma {:induction false} RunConcat(t: Timing, s: State, a: seq<Step>, b: seq<Step>)
    requires ValidRun(t, s, a) && ValidRun(t, Run(t, s, a), b)
    ensures ValidRun(t, s, a + b) && Run(t, s, a + b) == Run(t, Run(t, s, a), b)
    decreases |a|
  {
    if a == [] {
      assert a + b == b;
    } else {
      RunConcat(t, Apply(t, s, a[0]), a[1..], b);
      assert (a + b)[0] == a[0] && (a + b)[1..] == a[1..] + b;
    }
  }
}

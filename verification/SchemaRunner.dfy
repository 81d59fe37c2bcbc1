/**
  Running the Postgres schema chain: any number of servers connect to one database at any
  time, each reads the version ledger, then runs and records the pending steps one by one,
  and any of them may fail or die between two statements.
 */
module SchemaRunner {
  import opened Options
  import opened SchemaPlan

  /** A connect that is `At` step `next` is about to run it; once `Executed` it has yet to record it. */
  datatype Phase =
    | Starting
    | At(next: nat)
    | Executed(next: nat)
    | Connected
    | Rejected
    | Gone

  /** The ledger's rows, the chain steps executed so far, and the connects. */
  datatype State = State(ledger: set<string>, ran: seq<nat>, connects: seq<Phase>)

  datatype Step =
    | Connect
    | Read(c: nat, current: Option<string>)
    | RunDdl(c: nat)
    | Record(c: nat)
    | Finish(c: nat)
    | Fail(c: nat)

  ghost predicate Enabled(chain: seq<PgMigration>, s: State, step: Step) {
    match step
    case Connect => true
    case Read(c, current) => c < |s.connects| && s.connects[c].Starting? && IsCurrent(s.ledger, current)
    case RunDdl(c) => c < |s.connects| && s.connects[c].At? && s.connects[c].next < |chain|
    case Record(c) => c < |s.connects| && s.connects[c].Executed? && s.connects[c].next < |chain|
    case Finish(c) => c < |s.connects| && s.connects[c] == At(|chain|)
    case Fail(c) => c < |s.connects| && !s.connects[c].Connected? && !s.connects[c].Rejected?
  }

  function Planned(chain: seq<PgMigration>, current: Option<string>): Phase {
    match PlanMigrations(chain, current)
    case Pending(first) => At(first)
    case Refused(_, _) => Rejected
  }

  ghost function Apply(chain: seq<PgMigration>, s: State, step: Step): State
    requires Enabled(chain, s, step)
  {
    match step
    case Connect => State(s.ledger, s.ran, s.connects + [Starting])
    case Read(c, current) => State(s.ledger, s.ran, s.connects[c := Planned(chain, current)])
    case RunDdl(c) =>
      var k := s.connects[c].next;
      State(s.ledger, s.ran + [k], s.connects[c := Executed(k)])
    case Record(c) =>
      var k := s.connects[c].next;
      State(s.ledger + {chain[k].to}, s.ran, s.connects[c := At(k + 1)])
    case Finish(c) => State(s.ledger, s.ran, s.connects[c := Connected])
    case Fail(c) => State(s.ledger, s.ran, s.connects[c := Gone])
  }

  ghost predicate ValidRun(chain: seq<PgMigration>, s: State, steps: seq<Step>)
    decreases |steps|
  {
    steps == [] || (Enabled(chain, s, steps[0]) && ValidRun(chain, Apply(chain, s, steps[0]), steps[1..]))
  }

  ghost function Run(chain: seq<PgMigration>, s: State, steps: seq<Step>): State
    requires ValidRun(chain, s, steps)
    decreases |steps|
  {
    if steps == [] then s else Run(chain, Apply(chain, s, steps[0]), steps[1..])
  }

  /** A database at which the first `n` steps were applied, in order. */
  function DatabaseAt(chain: seq<PgMigration>, n: nat): State
    requires n <= |chain|
  {
    State(Versions(chain, n), seq(n, i => i), [])
  }

  // ----- The invariant ------------------------------------------------------------------

  predicate RanBefore(ran: seq<nat>, a: nat, k: nat)
    requires a <= |ran|
  { k in ran[..a] }

  /** No step was ever executed before all earlier ones had been. */
  predicate InOrder(ran: seq<nat>) {
    forall a, k :: 0 <= a < |ran| && 0 <= k < ran[a] ==> RanBefore(ran, a, k)
  }

  predicate PhaseOk(chain: seq<PgMigration>, n: nat, ran: seq<nat>, p: Phase) {
    match p
    case At(next) => next <= n
    case Executed(next) => next <= n && next < |chain| && next in ran
    case Connected => n == |chain|
    case Rejected => false
    case _ => true
  }

  /** The ledger holds exactly the first `n` versions, whose steps have all been executed. */
  predicate Inv(chain: seq<PgMigration>, s: State, n: nat) {
    && n <= |chain|
    && s.ledger == Versions(chain, n)
    && (forall k :: 0 <= k < n ==> k in s.ran)
    && InOrder(s.ran)
    && (forall c :: 0 <= c < |s.connects| ==> PhaseOk(chain, n, s.ran, s.connects[c]))
  }

  lemma RunDdlInOrder(ran: seq<nat>, k: nat)
    requires InOrder(ran) && forall j :: 0 <= j < k ==> j in ran
    ensures InOrder(ran + [k])
  {
    var after := ran + [k];
    forall a, j | 0 <= a < |after| && 0 <= j < after[a] ensures RanBefore(after, a, j) {
      assert after[..a] == ran[..a];
      if a < |ran| { assert RanBefore(ran, a, j); } else { assert ran[..a] == ran; }
    }
  }

  lemma VersionsGrow(chain: seq<PgMigration>, n: nat, k: nat)
    requires k <= n <= |chain| && k < |chain|
    ensures Versions(chain, n) + {chain[k].to} == Versions(chain, if k == n then n + 1 else n)
  {}

  lemma StepInv(chain: seq<PgMigration>, s: State, n: nat, step: Step) returns (n': nat)
    requires Increasing(chain) && Inv(chain, s, n) && Enabled(chain, s, step)
    ensures n <= n' && Inv(chain, Apply(chain, s, step), n')
  {
    n' := n;
    match step
    case Connect =>
    case Read(c, current) => PrefixPlansTheRest(chain, n, current);
    case RunDdl(c) => RunDdlInOrder(s.ran, s.connects[c].next);
    case Record(c) =>
      var k := s.connects[c].next;
      VersionsGrow(chain, n, k);
      n' := if k == n then n + 1 else n;
    case Finish(c) =>
    case Fail(c) =>
  }

  lemma {:induction false} RunInv(chain: seq<PgMigration>, s: State, n: nat, steps: seq<Step>) returns (n': nat)
    requires Increasing(chain) && Inv(chain, s, n) && ValidRun(chain, s, steps)
    ensures n <= n' && Inv(chain, Run(chain, s, steps), n')
    decreases |steps|
  {
    n' := n;
    if steps != [] {
      var next := StepInv(chain, s, n, steps[0]);
      n' := RunInv(chain, Apply(chain, s, steps[0]), next, steps[1..]);
    }
  }

  // ----- Theorems -----------------------------------------------------------------------

  /**
    From any prefix of an increasing chain, whatever connects and fails: the ledger stays a
    prefix that never shrinks, every recorded step has been executed, no step was executed
    before an earlier one, no connect is refused, and a successful one leaves the whole
    chain applied.
   */
  lemma LedgerIsAppliedPrefix(chain: seq<PgMigration>, start: nat, steps: seq<Step>) returns (n: nat)
    requires Increasing(chain) && start <= |chain| && ValidRun(chain, DatabaseAt(chain, start), steps)
    ensures var s := Run(chain, DatabaseAt(chain, start), steps);
            && start <= n <= |chain|
            && s.ledger == Versions(chain, n)
            && (forall k :: 0 <= k < n ==> k in s.ran)
            && InOrder(s.ran)
            && Rejected !in s.connects
            && (Connected in s.connects ==> n == |chain|)
  {
    DatabaseInv(chain, start);
    n := RunInv(chain, DatabaseAt(chain, start), start, steps);
  }

  lemma DatabaseInv(chain: seq<PgMigration>, start: nat)
    requires start <= |chain|
    ensures Inv(chain, DatabaseAt(chain, start), start)
  {
    var s := DatabaseAt(chain, start);
    forall k | 0 <= k < start ensures k in s.ran { assert s.ran[k] == k; }
    forall a, k | 0 <= a < |s.ran| && 0 <= k < s.ran[a] ensures RanBefore(s.ran, a, k) {
      assert s.ran[..a][k] == k;
    }
  }

  /** The steps from `from` on, in order. */
  function Onwards(chain: seq<PgMigration>, from: nat): seq<nat>
    requires from <= |chain|
  { seq(|chain| - from, i => from + i) }

  lemma Then(chain: seq<PgMigration>, s: State, step: Step, rest: seq<Step>)
    requires Enabled(chain, s, step) && ValidRun(chain, Apply(chain, s, step), rest)
    ensures ValidRun(chain, s, [step] + rest)
    ensures Run(chain, s, [step] + rest) == Run(chain, Apply(chain, s, step), rest)
  {
    assert ([step] + rest)[1..] == rest;
  }

  /** Connect `c` finished, executed exactly the steps from `from` on, and left the whole chain recorded. */
  predicate Finished(chain: seq<PgMigration>, s: State, s': State, c: nat, from: nat) {
    && from <= |chain| && s'.ran == s.ran + Onwards(chain, from)
    && |s'.connects| == |s.connects| && c < |s.connects| && s'.connects == s.connects[c := Connected]
    && s'.ledger == Versions(chain, |chain|)
  }

  lemma {:induction false} FinishesFrom(chain: seq<PgMigration>, s: State, n: nat, c: nat) returns (more: seq<Step>)
    requires Increasing(chain) && Inv(chain, s, n) && c < |s.connects| && s.connects[c].At?
    ensures ValidRun(chain, s, more) && Finished(chain, s, Run(chain, s, more), c, s.connects[c].next)
    decreases |chain| - s.connects[c].next
  {
    var k := s.connects[c].next;
    if k == |chain| {
      Then(chain, s, Finish(c), []);
      more := [Finish(c)] + [];
    } else {
      var s1 := Apply(chain, s, RunDdl(c));
      var n1 := StepInv(chain, s, n, RunDdl(c));
      var rest := RecordsFrom(chain, s1, n1, c);
      Then(chain, s, RunDdl(c), rest);
      more := [RunDdl(c)] + rest;
      assert Onwards(chain, k) == [k] + Onwards(chain, k + 1);
    }
  }

  lemma {:induction false} RecordsFrom(chain: seq<PgMigration>, s: State, n: nat, c: nat) returns (more: seq<Step>)
    requires Increasing(chain) && Inv(chain, s, n) && c < |s.connects| && s.connects[c].Executed?
    ensures s.connects[c].next < |chain|
    ensures ValidRun(chain, s, more) && Finished(chain, s, Run(chain, s, more), c, s.connects[c].next + 1)
    decreases |chain| - s.connects[c].next, 0
  {
    assert PhaseOk(chain, n, s.ran, s.connects[c]);
    var s1 := Apply(chain, s, Record(c));
    var n1 := StepInv(chain, s, n, Record(c));
    var rest := FinishesFrom(chain, s1, n1, c);
    Then(chain, s, Record(c), rest);
    more := [Record(c)] + rest;
  }

  lemma PrefixHasCurrent(chain: seq<PgMigration>, n: nat) returns (current: Option<string>)
    requires Increasing(chain) && n <= |chain|
    ensures IsCurrent(Versions(chain, n), current)
  {
    if n == 0 {
      assert Versions(chain, 0) == {};
      current := None;
    } else {
      var top := chain[n - 1].to;
      current := Some(top);
      assert top in Versions(chain, n);
      forall w | w in Versions(chain, n) ensures !Outranks(w, top) {
        var i :| 0 <= i < n && chain[i].to == w;
        if i < n - 1 { assert Outranks(top, w); }
      }
    }
  }

  /**
    A connect that has not failed can always finish by itself, whatever the others did: it
    executes exactly the steps it planned and has not executed, in order, and leaves the
    whole chain recorded.
   */
  lemma ConnectCanFinish(chain: seq<PgMigration>, start: nat, steps: seq<Step>, c: nat)
    returns (more: seq<Step>, from: nat)
    requires Increasing(chain) && start <= |chain| && ValidRun(chain, DatabaseAt(chain, start), steps)
    requires var s := Run(chain, DatabaseAt(chain, start), steps);
             c < |s.connects| && (s.connects[c].Starting? || s.connects[c].At? || s.connects[c].Executed?)
    ensures var s := Run(chain, DatabaseAt(chain, start), steps);
            && ValidRun(chain, s, more) && Finished(chain, s, Run(chain, s, more), c, from)
            && (s.connects[c].Starting? ==> from <= |chain| && s.ledger == Versions(chain, from))
            && (s.connects[c].At? ==> from == s.connects[c].next)
            && (s.connects[c].Executed? ==> from == s.connects[c].next + 1)
  {
    var s := Run(chain, DatabaseAt(chain, start), steps);
    DatabaseInv(chain, start);
    var n := RunInv(chain, DatabaseAt(chain, start), start, steps);
    match s.connects[c]
    case Starting =>
      from := n;
      var current := PrefixHasCurrent(chain, n);
      PrefixPlansTheRest(chain, n, current);
      var s1 := Apply(chain, s, Read(c, current));
      var n1 := StepInv(chain, s, n, Read(c, current));
      var rest := FinishesFrom(chain, s1, n1, c);
      Then(chain, s, Read(c, current), rest);
      more := [Read(c, current)] + rest;
    case At(next) =>
      from := next;
      more := FinishesFrom(chain, s, n, c);
    case Executed(next) =>
      from := next + 1;
      more := RecordsFrom(chain, s, n, c);
  }

  /** At the target nothing is executed and nothing recorded, however many servers connect. */
  lemma {:induction false} AtTargetNothingRuns(chain: seq<PgMigration>, s: State, steps: seq<Step>)
    requires Increasing(chain) && s.ledger == Versions(chain, |chain|) && ValidRun(chain, s, steps)
    requires forall c :: 0 <= c < |s.connects| ==> s.connects[c] in {Starting, At(|chain|), Connected, Gone}
    ensures var after := Run(chain, s, steps); after.ledger == s.ledger && after.ran == s.ran
    decreases |steps|
  {
    if steps != [] {
      var next := Apply(chain, s, steps[0]);
      if steps[0].Read? { PrefixPlansTheRest(chain, |chain|, steps[0].current); }
      AtTargetNothingRuns(chain, next, steps[1..]);
    }
  }

  /** The ledger's top rows are all versions this build does not know. */
  ghost predicate Foreign(chain: seq<PgMigration>, ledger: set<string>) {
    && chain != []
    && ledger != {}
    && forall v :: IsCurrent(ledger, Some(v)) ==> Position(chain, v).None?
  }

  /** A newer or unknown version stops every connect before any step: nothing is executed or recorded. */
  lemma {:induction false} ForeignLedgerIsRefused(chain: seq<PgMigration>, s: State, steps: seq<Step>)
    requires Foreign(chain, s.ledger) && ValidRun(chain, s, steps)
    requires forall c :: 0 <= c < |s.connects| ==> s.connects[c] in {Starting, Rejected, Gone}
    ensures var after := Run(chain, s, steps);
            && after.ledger == s.ledger && after.ran == s.ran
            && forall c :: 0 <= c < |after.connects| ==> after.connects[c] in {Starting, Rejected, Gone}
    decreases |steps|
  {
    if steps != [] {
      var next := Apply(chain, s, steps[0]);
      if steps[0].Read? { ForeignRead(chain, s.ledger, steps[0].current); }
      ForeignLedgerIsRefused(chain, next, steps[1..]);
    }
  }

  lemma ForeignRead(chain: seq<PgMigration>, ledger: set<string>, current: Option<string>)
    requires Foreign(chain, ledger) && IsCurrent(ledger, current)
    ensures Planned(chain, current) == Rejected
  {
    var v := current.value;
    assert Position(chain, v).None?;
    assert chain[|chain| - 1].to != v;
  }

  // ----- One server ---------------------------------------------------------------------

  datatype Outcome = Ready | Mismatch | QueryFailed

  function DdlOf(chain: seq<PgMigration>, from: nat, to: nat): seq<string>
    requires from <= to <= |chain|
  {
    seq(to - from, i requires 0 <= i < to - from => chain[from + i].ddl)
  }

  /** The versions of the steps from `from` up to `to`. */
  function Between(chain: seq<PgMigration>, from: nat, to: nat): set<string>
    requires to <= |chain|
  {
    set i | from <= i < to :: chain[i].to
  }

  /** How far `statements` statements get from `first`: recorded steps, and executed ones. */
  function Reached(chain: seq<PgMigration>, first: nat, statements: nat): (done: nat)
    requires first <= |chain|
    ensures first <= done <= |chain|
  {
    if statements / 2 < |chain| - first then first + statements / 2 else |chain|
  }

  function ExecutedTo(chain: seq<PgMigration>, first: nat, statements: nat): (to: nat)
    requires first <= |chain|
    ensures first <= to <= |chain|
  {
    var done := Reached(chain, first, statements);
    if done < |chain| && statements % 2 == 1 then done + 1 else done
  }

  lemma OneMore(chain: seq<PgMigration>, from: nat, to: nat)
    requires from <= to < |chain|
    ensures Between(chain, from, to + 1) == Between(chain, from, to) + {chain[to].to}
    ensures DdlOf(chain, from, to + 1) == DdlOf(chain, from, to) + [chain[to].ddl]
  {}

  /** The database of a single connect: its ledger rows and the scripts executed on it. */
  class CatalogDatabase {
    var rows: seq<string>
    var executed: seq<string>

    function Ledger(): set<string>
      reads this
    { set v | v in rows }

    /** `INSERT … ON CONFLICT DO NOTHING`. */
    method RecordVersion(v: string)
      modifies this`rows
      ensures Ledger() == old(Ledger()) + {v}
    {
      if v !in rows { rows := rows + [v]; }
    }

    /**
      Execute and record the steps from `first` on, cut off after `statements` statements:
      every pair of them completes one step, and one left over executes a step unrecorded.
     */
    method RunPending(chain: seq<PgMigration>, first: nat, statements: nat) returns (complete: bool, done: nat)
      requires first <= |chain|
      modifies this
      ensures complete <==> statements >= 2 * (|chain| - first)
      ensures done == Reached(chain, first, statements)
      ensures Ledger() == old(Ledger()) + Between(chain, first, done)
      ensures executed == old(executed) + DdlOf(chain, first, ExecutedTo(chain, first, statements))
    {
      done := first;
      var left := statements;
      while done < |chain|
        invariant first <= done <= |chain| && left == statements - 2 * (done - first)
        invariant Ledger() == old(Ledger()) + Between(chain, first, done)
        invariant executed == old(executed) + DdlOf(chain, first, done)
        decreases |chain| - done
      {
        OneMore(chain, first, done);
        if left == 0 { return false, done; }
        executed := executed + [chain[done].ddl];
        if left == 1 { return false, done; }
        RecordVersion(chain[done].to);
        left := left - 2;
        done := done + 1;
      }
      complete := true;
    }

    /**
      The runner: refused exactly when the reported version is not known, touching nothing;
      ready exactly when there were statements enough to apply the whole planned tail.
     */
    method EnsureSchema(chain: seq<PgMigration>, statements: nat) returns (outcome: Outcome)
      modifies this
      ensures var plan := PlanMigrations(chain, Reported(old(rows)));
              match plan
              case Refused(_, _) => outcome.Mismatch? && rows == old(rows) && executed == old(executed)
              case Pending(first) =>
                && outcome == (if statements >= 2 * (|chain| - first) then Ready else QueryFailed)
                && Ledger() == old(Ledger()) + Between(chain, first, Reached(chain, first, statements))
                && executed == old(executed) + DdlOf(chain, first, ExecutedTo(chain, first, statements))
    {
      var current := MaxByRank(rows);
      var plan := PlanMigrations(chain, current);
      if plan.Refused? { return Mismatch; }
      var complete, _ := RunPending(chain, plan.first, statements);
      outcome := if complete then Ready else QueryFailed;
    }

    /**
      A connect cut off anywhere on an increasing chain, and one that is not: the second
      succeeds, every version is recorded, and at most one step was executed twice.
     */
    method CutOffThenComplete(chain: seq<PgMigration>, start: nat, statements: nat, enough: nat)
      returns (first: Outcome, second: Outcome)
      requires Increasing(chain) && start <= |chain| && Ledger() == Versions(chain, start)
      requires enough >= 2 * (|chain| - Reached(chain, start, statements))
      modifies this
      ensures first == (if statements >= 2 * (|chain| - start) then Ready else QueryFailed) && second == Ready
      ensures Ledger() == Versions(chain, |chain|)
      ensures executed == old(executed) + DdlOf(chain, start, ExecutedTo(chain, start, statements))
                          + DdlOf(chain, Reached(chain, start, statements), |chain|)
      ensures ExecutedTo(chain, start, statements) <= Reached(chain, start, statements) + 1
    {
      var done := Reached(chain, start, statements);
      ReportedIsLast(rows);
      PrefixPlansTheRest(chain, start, Reported(rows));
      first := EnsureSchema(chain, statements);
      PrefixGrows(chain, start, done);
      ReportedIsLast(rows);
      PrefixPlansTheRest(chain, done, Reported(rows));
      second := EnsureSchema(chain, enough);
      PrefixGrows(chain, done, |chain|);
    }
  }

  lemma PrefixGrows(chain: seq<PgMigration>, from: nat, to: nat)
    requires from <= to <= |chain|
    ensures Versions(chain, from) + Between(chain, from, to) == Versions(chain, to)
  {}
}

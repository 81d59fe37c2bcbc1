/**
  Version ranks, the choice of the current version, and planning the pending steps of the
  Postgres schema chain.
 */
module SchemaPlan {
  import opened Options

  // ----- Ranks --------------------------------------------------------------------------

  const U32Limit: nat := 0x1_0000_0000

  predicate IsDigit(c: char) { '0' <= c <= '9' }

  predicate AllDigits(s: string) { forall i :: 0 <= i < |s| ==> IsDigit(s[i]) }

  function DigitsValue(s: string): nat
    requires AllDigits(s)
  {
    if s == [] then 0 else 10 * DigitsValue(s[..|s| - 1]) + (s[|s| - 1] as nat - '0' as nat)
  }

  /** Rust's `u32` parsing: one optional plus sign, then digits, without overflow. */
  function ParseU32(s: string): Option<nat> {
    var digits := if s != [] && s[0] == '+' then s[1..] else s;
    if digits == [] || !AllDigits(digits) || DigitsValue(digits) >= U32Limit then None else Some(DigitsValue(digits))
  }

  function VersionRank(v: string): Option<nat> {
    if v != [] && v[0] == 'v' then ParseU32(v[1..]) else None
  }

  /** The order of optional ranks: no rank is below every rank. */
  predicate RankLess(a: Option<nat>, b: Option<nat>) { b.Some? && (a.None? || a.value < b.value) }

  predicate Outranks(v: string, w: string) { RankLess(VersionRank(w), VersionRank(v)) }

  function Decimal(n: nat): string {
    (if n < 10 then [] else Decimal(n / 10)) + ['0' + (n % 10) as char]
  }

  lemma {:induction false} DecimalDigits(n: nat)
    ensures Decimal(n) != [] && AllDigits(Decimal(n)) && DigitsValue(Decimal(n)) == n
  {
    if n >= 10 { DecimalDigits(n / 10); }
    var front := if n < 10 then [] else Decimal(n / 10);
    var text := Decimal(n);
    assert text[..|text| - 1] == front;
  }

  /** Tags rank by number, not by spelling: `v10` outranks `v9`; a number too large has no rank. */
  lemma TagRank(n: nat)
    ensures VersionRank("v" + Decimal(n)) == if n < U32Limit then Some(n) else None
  {
    DecimalDigits(n);
    assert ("v" + Decimal(n))[1..] == Decimal(n);
    assert IsDigit(Decimal(n)[0]);
  }

  // ----- The current version ------------------------------------------------------------

  /** A row no other row outranks; the version reported for these rows, in whatever order they come. */
  ghost predicate IsCurrent(rows: set<string>, current: Option<string>) {
    match current
    case None => rows == {}
    case Some(v) => v in rows && forall w :: w in rows ==> !Outranks(w, v)
  }

  /** The version is in the rows, and every row after it ranks lower. */
  predicate LastOfItsRank(rows: seq<string>, v: string) {
    exists i :: 0 <= i < |rows| && rows[i] == v && forall j :: i < j < |rows| ==> Outranks(v, rows[j])
  }

  /** The last index of a maximal rank. */
  function LastTop(ranks: seq<Option<nat>>): (best: nat)
    requires ranks != []
    ensures best < |ranks|
    ensures forall j :: 0 <= j < |ranks| ==> !RankLess(ranks[best], ranks[j])
    ensures forall j :: best < j < |ranks| ==> RankLess(ranks[j], ranks[best])
  {
    var n := |ranks| - 1;
    if n == 0 then 0
    else
      var before := LastTop(ranks[..n]);
      assert forall j :: 0 <= j < n ==> ranks[..n][j] == ranks[j];
      if RankLess(ranks[n], ranks[before]) then before else n
  }

  function Ranks(rows: seq<string>): seq<Option<nat>> {
    seq(|rows|, i requires 0 <= i < |rows| => VersionRank(rows[i]))
  }

  /** The version reported for rows in this order: of equally ranked ones the last. */
  function Reported(rows: seq<string>): Option<string> {
    if rows == [] then None else Some(rows[LastTop(Ranks(rows))])
  }

  lemma ReportedIsLast(rows: seq<string>)
    ensures IsCurrent((set v | v in rows), Reported(rows))
    ensures rows != [] ==> Reported(rows).Some? && LastOfItsRank(rows, Reported(rows).value)
  {
    if rows != [] { TopIsLast(rows, Ranks(rows), LastTop(Ranks(rows))); }
  }

  /** `max_by_key`: of equally ranked rows the last one wins. */
  method MaxByRank(rows: seq<string>) returns (current: Option<string>)
    ensures IsCurrent((set v | v in rows), current)
    ensures rows != [] ==> current.Some? && LastOfItsRank(rows, current.value)
    ensures current == Reported(rows)
  {
    ReportedIsLast(rows);
    if rows == [] { return None; }
    var ranks := Ranks(rows);
    var best := LastMaximum(ranks);
    current := Some(rows[best]);
  }

  lemma TopIsLast(rows: seq<string>, ranks: seq<Option<nat>>, best: nat)
    requires |ranks| == |rows| && best < |rows| && forall j :: 0 <= j < |rows| ==> ranks[j] == VersionRank(rows[j])
    requires forall j :: 0 <= j < |ranks| ==> !RankLess(ranks[best], ranks[j])
    requires forall j :: best < j < |ranks| ==> RankLess(ranks[j], ranks[best])
    ensures IsCurrent((set v | v in rows), Some(rows[best])) && LastOfItsRank(rows, rows[best])
  {
    forall w | w in rows ensures !Outranks(w, rows[best]) {
      var j :| 0 <= j < |rows| && rows[j] == w;
      assert ranks[j] == VersionRank(w) && ranks[best] == VersionRank(rows[best]);
    }
    forall j | best < j < |rows| ensures Outranks(rows[best], rows[j]) {
      assert ranks[j] == VersionRank(rows[j]) && ranks[best] == VersionRank(rows[best]);
    }
  }

  method LastMaximum(ranks: seq<Option<nat>>) returns (best: nat)
    requires ranks != []
    ensures best == LastTop(ranks)
  {
    best := 0;
    for n := 1 to |ranks|
      invariant best == LastTop(ranks[..n])
    {
      assert ranks[..n + 1][..n] == ranks[..n] && forall j :: 0 <= j < n ==> ranks[..n][j] == ranks[..n + 1][j];
      if !RankLess(ranks[n], ranks[best]) { best := n; }
    }
    assert ranks[..|ranks|] == ranks;
  }

  // ----- Planning -----------------------------------------------------------------------

  datatype PgMigration = PgMigration(to: string, ddl: string)

  /** The steps from index `first` on are pending, or the version is not known to this build. */
  datatype Plan = Pending(first: nat) | Refused(expected: string, found: string)

  function Position(chain: seq<PgMigration>, v: string): (i: Option<nat>)
    ensures i.Some? ==> i.value < |chain| && chain[i.value].to == v && forall j :: 0 <= j < i.value ==> chain[j].to != v
    ensures i.None? ==> forall j :: 0 <= j < |chain| ==> chain[j].to != v
  {
    if chain == [] then None
    else if chain[0].to == v then Some(0)
    else
      var rest := Position(chain[1..], v);
      assert forall j :: 0 < j < |chain| ==> chain[j] == chain[1..][j - 1];
      if rest.Some? then Some(rest.value + 1) else None
  }

  function PlanMigrations(chain: seq<PgMigration>, current: Option<string>): (plan: Plan)
    ensures plan.Pending? ==> plan.first <= |chain|
  {
    if chain == [] then Pending(0)
    else
      var target := chain[|chain| - 1].to;
      match current
      case None => Pending(0)
      case Some(v) =>
        if v == target then Pending(|chain|)
        else
          var at := Position(chain, v);
          if at.Some? then Pending(at.value + 1) else Refused(target, v)
  }

  /** The versions of the first `n` steps. */
  function Versions(chain: seq<PgMigration>, n: nat): set<string>
    requires n <= |chain|
  {
    set i | 0 <= i < n :: chain[i].to
  }

  predicate Increasing(chain: seq<PgMigration>) {
    forall i, j :: 0 <= i < j < |chain| ==> Outranks(chain[j].to, chain[i].to)
  }

  /** On an increasing chain, a ledger holding a prefix plans exactly the rest. */
  lemma PrefixPlansTheRest(chain: seq<PgMigration>, n: nat, current: Option<string>)
    requires Increasing(chain) && n <= |chain| && IsCurrent(Versions(chain, n), current)
    ensures PlanMigrations(chain, current) == Pending(n)
  {
    if n > 0 {
      assert chain[n - 1].to in Versions(chain, n);
      var i :| 0 <= i < n && current == Some(chain[i].to);
      assert i == n - 1;
      assert forall j :: 0 <= j < |chain| && j != i ==> chain[j].to != chain[i].to;
    } else {
      assert Versions(chain, 0) == {};
    }
  }

  /**
    A database with the whole chain applied plans nothing, whichever of its top rows is
    reported, if and only if the last version outranks every other one of the chain.
   */
  lemma RerunPlansNothingIff(chain: seq<PgMigration>)
    requires chain != []
    ensures (forall current: Option<string> :: IsCurrent(Versions(chain, |chain|), current) ==>
               PlanMigrations(chain, current) == Pending(|chain|))
            <==>
            (forall i :: 0 <= i < |chain| ==>
               chain[i].to == chain[|chain| - 1].to || Outranks(chain[|chain| - 1].to, chain[i].to))
  {
    var n := |chain|;
    var target := chain[n - 1].to;
    var rows := Versions(chain, n);
    assert target in rows;
    if forall i :: 0 <= i < n ==> chain[i].to == target || Outranks(target, chain[i].to) {
      forall current: Option<string> | IsCurrent(rows, current) ensures PlanMigrations(chain, current) == Pending(n) {
        assert current == Some(target);
      }
    }
    if i :| 0 <= i < n && chain[i].to != target && !Outranks(target, chain[i].to) {
      var best := Best(chain, i);
      assert IsCurrent(rows, Some(chain[best].to));
      assert PlanMigrations(chain, Some(chain[best].to)) != Pending(n);
    }
  }

  /** A top row other than the target, given one the target does not outrank. */
  lemma Best(chain: seq<PgMigration>, i: nat) returns (best: nat)
    requires i < |chain| && chain[i].to != chain[|chain| - 1].to && !Outranks(chain[|chain| - 1].to, chain[i].to)
    ensures best < |chain| && chain[best].to != chain[|chain| - 1].to
    ensures forall j :: 0 <= j < |chain| ==> !Outranks(chain[j].to, chain[best].to)
  {
    var ranks := seq(|chain|, k requires 0 <= k < |chain| => VersionRank(chain[k].to));
    var last := |chain| - 1;
    best := BestRank(ranks, i);
    assert forall j :: 0 <= j < |chain| ==> ranks[j] == VersionRank(chain[j].to);
    assert best == i || ranks[best] != ranks[last];
  }

  /** An index of a top rank: the given one, or one that outranks it. */
  lemma BestRank(ranks: seq<Option<nat>>, i: nat) returns (best: nat)
    requires i < |ranks| && !RankLess(ranks[i], ranks[|ranks| - 1])
    ensures best < |ranks| && forall j :: 0 <= j < |ranks| ==> !RankLess(ranks[best], ranks[j])
    ensures best == i || ranks[best] != ranks[|ranks| - 1]
  {
    best := i;
    for n := 0 to |ranks|
      invariant best < |ranks| && !RankLess(ranks[best], ranks[|ranks| - 1])
      invariant best == i || RankLess(ranks[|ranks| - 1], ranks[best])
      invariant forall j :: 0 <= j < n ==> !RankLess(ranks[best], ranks[j])
    {
      if RankLess(ranks[best], ranks[n]) { best := n; }
    }
  }
}

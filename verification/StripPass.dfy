/**
  The pass as the engine runs it: rebuilding a node fails when two of its fields are the
  same, or when an output expression names a column its input does not have.

  Either some node's fields merge and the pass fails, or the plan keeps its meaning.
 */
module StripPass {
  import opened Options
  import opened Pigeonhole
  import opened FlatNames
  import opened Plans
  import opened Stripping
  import opened PlanMeaning
  import opened StripTheorems
  import opened StripMeaning

  /** No two fields are equal, and no unqualified name is also the name of a qualified field. */
  predicate DistinctFields(fields: seq<Field>) {
    && Distinct(fields)
    && forall i, j :: 0 <= i < |fields| && 0 <= j < |fields| ==>
         fields[i].qualifier.None? && fields[j].qualifier.Some? ==> fields[i].name != fields[j].name
  }

  predicate Finds(es: seq<Expr>, schema: seq<Field>) { None !in PositionsOf(es, schema) }

  /** What the engine asks of a node when it builds it; a filter's schema is its input's. */
  predicate NodeBuilds(p: Plan) {
    match p
    case Scan(_, _, _, _, _, schema) => DistinctFields(schema)
    case SubqueryAlias(_, _, schema) => DistinctFields(schema)
    case Projection(exprs, input, schema) => DistinctFields(schema) && Finds(exprs, SchemaOf(input))
    case Filter(_, _) => true
    case Aggregate(groups, aggs, input, schema) =>
      DistinctFields(schema) && Finds(groups, SchemaOf(input)) && Finds(aggs, SchemaOf(input))
    case Join(_, _, _, _, schema) => DistinctFields(schema)
  }

  /** Every node could be built. */
  predicate Builds(p: Plan) {
    && NodeBuilds(p)
    && match p
       case Scan(_, _, _, _, _, _) => true
       case SubqueryAlias(input, _, _) => Builds(input)
       case Projection(_, input, _) => Builds(input)
       case Filter(_, input) => Builds(input)
       case Aggregate(_, _, input, _) => Builds(input)
       case Join(left, right, _, _, _) => Builds(left) && Builds(right)
  }

  /** A filter asks for nothing of its own. */
  lemma FilterBuildsIff(e: Expr, input: Plan)
    ensures Builds(Filter(e, input)) <==> Builds(input)
  {}

  /** A node above finds what an expression outputs under the name it has for it. */
  lemma OutputIsFound(e: Expr)
    ensures Resolve(OutputColumn(e), [OutputField(e)]) == Some(0)
  {}

  /** A scan builds exactly when its columns have different names. */
  lemma ScanBuildsIff(t: TableRef, source: Source)
    ensures Builds(NewScan(t, source, None, [], None)) <==> Distinct(source.columns)
  {
    var fields := SourceSchema(t, source);
    if !Distinct(source.columns) {
      var i, j :| 0 <= i < j < |source.columns| && source.columns[i] == source.columns[j];
      assert fields[i] == fields[j];
    }
    if !Distinct(fields) {
      var i, j :| 0 <= i < j < |fields| && fields[i] == fields[j];
      assert source.columns[i] == source.columns[j];
    }
  }

  /** Bottom-up, every rebuilt node builds; a scan without a catalog is not rebuilt. */
  predicate Succeeds(p: Plan, ps: seq<FlatNamePrefix>)
    requires Usable(ps) && ScansBuildable(p)
  {
    match p
    case Scan(t, _, _, _, _, _) => HasCatalog(t) ==> NodeBuilds(Strip(p, ps))
    case SubqueryAlias(input, _, _) => Succeeds(input, ps) && NodeBuilds(Strip(p, ps))
    case Projection(_, input, _) => Succeeds(input, ps) && NodeBuilds(Strip(p, ps))
    case Filter(_, input) => Succeeds(input, ps)
    case Aggregate(_, _, input, _) => Succeeds(input, ps) && NodeBuilds(Strip(p, ps))
    case Join(left, right, _, _, _) => Succeeds(left, ps) && Succeeds(right, ps) && NodeBuilds(Strip(p, ps))
  }

  /** None when the pass fails. */
  function TryStrip(p: Plan): Option<Plan>
    requires ScansBuildable(p)
  { if Succeeds(p, Prefixes(p)) then Some(StripPlan(p)) else None }

  // ----- When the pass fails ------------------------------------------------------------

  /** After renaming, the fields of every node are still distinct. */
  predicate StaysDistinct(p: Plan, ps: seq<FlatNamePrefix>)
    requires Usable(ps)
  {
    && DistinctFields(StripSchema(SchemaOf(p), ps))
    && match p
       case Scan(_, _, _, _, _, _) => true
       case SubqueryAlias(input, _, _) => StaysDistinct(input, ps)
       case Projection(_, input, _) => StaysDistinct(input, ps)
       case Filter(_, input) => StaysDistinct(input, ps)
       case Aggregate(_, _, input, _) => StaysDistinct(input, ps)
       case Join(left, right, _, _, _) => StaysDistinct(left, ps) && StaysDistinct(right, ps)
  }

  /** Every column names a field of the input exactly, as the engine's planner writes it. */
  predicate ExprExact(e: Expr, schema: seq<Field>) {
    match e
    case Col(c) => Field(c.relation, c.name) in schema
    case Lit(_) => true
    case Binary(l, _, r) => ExprExact(l, schema) && ExprExact(r, schema)
    case Call(_, args) => forall i :: 0 <= i < |args| ==> ExprExact(args[i], schema)
    case Alias(inner, _, _) => ExprExact(inner, schema)
    case Subquery(_) => true
  }

  predicate ExprsExact(es: seq<Expr>, schema: seq<Field>) { forall i :: 0 <= i < |es| ==> ExprExact(es[i], schema) }

  predicate PlanExact(p: Plan) {
    match p
    case Scan(t, source, _, filters, _, _) => ExprsExact(filters, SourceSchema(t, source))
    case SubqueryAlias(input, _, _) => PlanExact(input)
    case Projection(exprs, input, _) => PlanExact(input) && ExprsExact(exprs, SchemaOf(input))
    case Filter(e, input) => PlanExact(input) && ExprExact(e, SchemaOf(input))
    case Aggregate(groups, aggs, input, _) =>
      PlanExact(input) && ExprsExact(groups, SchemaOf(input)) && ExprsExact(aggs, SchemaOf(input))
    case Join(left, right, lk, rk, _) =>
      PlanExact(left) && PlanExact(right) && ExprsExact(lk, SchemaOf(left)) && ExprsExact(rk, SchemaOf(right))
  }

  /** The qualifiers agree without being equal: one has a schema, the other only a table. */
  predicate Overlap(f: Field, g: Field) {
    f.qualifier.Some? && g.qualifier.Some? && f.qualifier != g.qualifier
    && ResolvedEq(f.qualifier.value, g.qualifier.value)
  }

  /** Renaming gives no two overlapping fields one name. */
  predicate NamesApart(fields: seq<Field>, ps: seq<FlatNamePrefix>)
    requires Usable(ps)
  {
    forall i, j :: 0 <= i < |fields| && 0 <= j < |fields|
                   && Overlap(StripField(fields[i], ps), StripField(fields[j], ps))
                   && ReducedName(fields[i].name, ps) == ReducedName(fields[j].name, ps) ==>
      fields[i].name == fields[j].name
  }

  predicate PlanNamesApart(p: Plan, ps: seq<FlatNamePrefix>)
    requires Usable(ps)
  {
    && NamesApart(SchemaOf(p), ps)
    && match p
       case Scan(_, _, _, _, _, _) => true
       case SubqueryAlias(input, _, _) => PlanNamesApart(input, ps)
       case Projection(_, input, _) => PlanNamesApart(input, ps)
       case Filter(_, input) => PlanNamesApart(input, ps)
       case Aggregate(_, _, input, _) => PlanNamesApart(input, ps)
       case Join(left, right, _, _, _) => PlanNamesApart(left, ps) && PlanNamesApart(right, ps)
  }

  // ----- Exact columns keep their positions ---------------------------------------------

  lemma ExactMatch(c: Column, i: nat, k: nat, schema: seq<Field>, ps: seq<FlatNamePrefix>)
    requires Usable(ps) && DistinctFields(StripSchema(schema, ps)) && NamesApart(schema, ps)
    requires i < |schema| && k < |schema| && schema[i] == Field(c.relation, c.name)
    ensures Matches(StripColumn(c, ps), StripField(schema[k], ps)) <==> Matches(c, schema[k])
  {
    var renamed := StripSchema(schema, ps);
    assert renamed[i] == StripField(schema[i], ps) && renamed[k] == StripField(schema[k], ps);
    if i != k && Matches(StripColumn(c, ps), renamed[k]) {
      assert renamed[i] != renamed[k];
      assert renamed[i].name == renamed[k].name;
      assert renamed[i].qualifier.Some? && renamed[k].qualifier.Some?;
      assert Overlap(StripField(schema[i], ps), StripField(schema[k], ps));
    }
  }

  lemma ExactKeeps(c: Column, schema: seq<Field>, ps: seq<FlatNamePrefix>)
    requires Usable(ps) && DistinctFields(StripSchema(schema, ps)) && NamesApart(schema, ps)
    requires Field(c.relation, c.name) in schema
    ensures ColumnKeeps(c, schema, ps)
  {
    var i :| 0 <= i < |schema| && schema[i] == Field(c.relation, c.name);
    forall k | 0 <= k < |schema|
      ensures Matches(StripColumn(c, ps), StripField(schema[k], ps)) <==> Matches(c, schema[k])
    {
      ExactMatch(c, i, k, schema, ps);
    }
    SameMatchesSamePosition(c, schema, ps);
  }

  /** Every column that names a field keeps its position. */
  ghost predicate ColumnsKeep(schema: seq<Field>, ps: seq<FlatNamePrefix>)
    requires Usable(ps)
  {
    forall c: Column :: Field(c.relation, c.name) in schema ==> ColumnKeeps(c, schema, ps)
  }

  lemma DistinctColumnsKeep(schema: seq<Field>, ps: seq<FlatNamePrefix>)
    requires Usable(ps) && DistinctFields(StripSchema(schema, ps)) && NamesApart(schema, ps)
    ensures ColumnsKeep(schema, ps)
  {
    forall c: Column | Field(c.relation, c.name) in schema ensures ColumnKeeps(c, schema, ps) {
      ExactKeeps(c, schema, ps);
    }
  }

  /** The fields of a scan differ in their names alone, and renaming leaves those. */
  lemma SourceColumnsKeep(t: TableRef, source: Source, ps: seq<FlatNamePrefix>)
    requires Usable(ps)
    requires forall i :: 0 <= i < |source.columns| ==> NameStable(source.columns[i], ps)
    ensures ColumnsKeep(SourceSchema(t, source), ps)
  {
    var schema := SourceSchema(t, source);
    forall c: Column | Field(c.relation, c.name) in schema ensures ColumnKeeps(c, schema, ps) {
      StableName(c.name, ps);
      forall k | 0 <= k < |schema|
        ensures Matches(StripColumn(c, ps), StripField(schema[k], ps)) <==> Matches(c, schema[k])
      {
        StableName(schema[k].name, ps);
      }
      SameMatchesSamePosition(c, schema, ps);
    }
  }

  lemma {:induction false} ExprExactKeeps(e: Expr, schema: seq<Field>, ps: seq<FlatNamePrefix>)
    requires Usable(ps) && ColumnsKeep(schema, ps) && ExprExact(e, schema)
    ensures ExprKeeps(e, schema, ps)
    decreases e
  {
    match e
    case Binary(l, _, r) =>
      ExprExactKeeps(l, schema, ps);
      ExprExactKeeps(r, schema, ps);
    case Call(_, args) =>
      forall i | 0 <= i < |args| ensures ExprKeeps(args[i], schema, ps) { ExprExactKeeps(args[i], schema, ps); }
    case Alias(inner, _, _) => ExprExactKeeps(inner, schema, ps);
    case _ =>
  }

  lemma ExprsExactKeep(es: seq<Expr>, schema: seq<Field>, ps: seq<FlatNamePrefix>)
    requires Usable(ps) && ColumnsKeep(schema, ps) && ExprsExact(es, schema)
    ensures ExprsKeep(es, schema, ps)
  {
    forall i | 0 <= i < |es| ensures ExprKeeps(es[i], schema, ps) { ExprExactKeeps(es[i], schema, ps); }
  }

  lemma {:induction false} DistinctPlanKeeps(p: Plan, ps: seq<FlatNamePrefix>)
    requires Usable(ps) && PlanClean(p, ps) && PlanExact(p) && StaysDistinct(p, ps) && PlanNamesApart(p, ps)
    ensures PlanKeeps(p, ps)
    decreases p
  {
    match p
    case Scan(t, source, _, filters, _, _) =>
      SourceColumnsKeep(t, source, ps);
      ExprsExactKeep(filters, SourceSchema(t, source), ps);
    case SubqueryAlias(input, _, _) => DistinctPlanKeeps(input, ps);
    case Projection(exprs, input, _) =>
      DistinctPlanKeeps(input, ps);
      DistinctColumnsKeep(SchemaOf(input), ps);
      ExprsExactKeep(exprs, SchemaOf(input), ps);
    case Filter(e, input) =>
      DistinctPlanKeeps(input, ps);
      DistinctColumnsKeep(SchemaOf(input), ps);
      ExprExactKeeps(e, SchemaOf(input), ps);
    case Aggregate(groups, aggs, input, _) =>
      DistinctPlanKeeps(input, ps);
      DistinctColumnsKeep(SchemaOf(input), ps);
      ExprsExactKeep(groups, SchemaOf(input), ps);
      ExprsExactKeep(aggs, SchemaOf(input), ps);
    case Join(left, right, lk, rk, _) =>
      DistinctPlanKeeps(left, ps);
      DistinctPlanKeeps(right, ps);
      DistinctColumnsKeep(SchemaOf(left), ps);
      DistinctColumnsKeep(SchemaOf(right), ps);
      ExprsExactKeep(lk, SchemaOf(left), ps);
      ExprsExactKeep(rk, SchemaOf(right), ps);
  }

  // ----- The outcome of the pass --------------------------------------------------------

  /** A plan that could be built, and whose renamed schemas commute. */
  ghost predicate Ready(p: Plan, ps: seq<FlatNamePrefix>) {
    Usable(ps) && DelimiterFree(ps) && Dotted(ps) && WellFormed(p) && PlanClean(p, ps) && Builds(p)
  }

  lemma {:induction false} SucceedsDistinct(p: Plan, ps: seq<FlatNamePrefix>)
    requires Ready(p, ps) && ScansBuildable(p) && Succeeds(p, ps)
    ensures StaysDistinct(p, ps)
    decreases p
  {
    SchemaCommutes(p, ps);
    match p
    case Scan(_, _, _, _, _, _) =>
    case SubqueryAlias(input, _, _) => SucceedsDistinct(input, ps);
    case Projection(_, input, _) => SucceedsDistinct(input, ps);
    case Filter(_, input) => SucceedsDistinct(input, ps);
    case Aggregate(_, _, input, _) => SucceedsDistinct(input, ps);
    case Join(left, right, _, _, _) =>
      SucceedsDistinct(left, ps);
      SucceedsDistinct(right, ps);
  }

  lemma StillFinds(es: seq<Expr>, input: Plan, ps: seq<FlatNamePrefix>)
    requires Ready(input, ps) && ScansBuildable(input)
    requires ExprsKeep(es, SchemaOf(input), ps) && Finds(es, SchemaOf(input))
    ensures Finds(StripExprs(es, ps), SchemaOf(Strip(input, ps)))
  {
    SchemaCommutes(input, ps);
    PositionsOfSame(es, SchemaOf(input), ps);
  }

  lemma {:induction false} DistinctSucceeds(p: Plan, ps: seq<FlatNamePrefix>)
    requires Ready(p, ps) && ScansBuildable(p) && StaysDistinct(p, ps) && PlanKeeps(p, ps)
    ensures Succeeds(p, ps)
    decreases p
  {
    SchemaCommutes(p, ps);
    match p
    case Scan(_, _, _, _, _, _) =>
    case SubqueryAlias(input, _, _) => DistinctSucceeds(input, ps);
    case Projection(exprs, input, _) =>
      DistinctSucceeds(input, ps);
      StillFinds(exprs, input, ps);
    case Filter(_, input) => DistinctSucceeds(input, ps);
    case Aggregate(groups, aggs, input, _) =>
      DistinctSucceeds(input, ps);
      StillFinds(groups, input, ps);
      StillFinds(aggs, input, ps);
    case Join(left, right, _, _, _) =>
      DistinctSucceeds(left, ps);
      DistinctSucceeds(right, ps);
  }

  /**
    No condition on merged references: the pass succeeds if and only if renaming keeps the
    fields of every node distinct, and whenever it succeeds every column of every node
    keeps its position and the rows are the same over any database and interpretation.
   */
  lemma FailsOrPreservesMeaning(p: Plan)
    requires WellFormed(p) && Builds(p) && PlanExact(p)
    requires DelimiterFree(Prefixes(p)) && PlanClean(p, Prefixes(p)) && PlanNamesApart(p, Prefixes(p))
    ensures ScansBuildable(p) && (TryStrip(p).Some? <==> StaysDistinct(p, Prefixes(p)))
    ensures TryStrip(p).Some? ==>
              var out := TryStrip(p).value;
              && WellFormed(out) && SchemaOf(out) == StripSchema(SchemaOf(p), Prefixes(p))
              && PlanPositions(out) == PlanPositions(p)
              && forall db, m :: Eval(out, db, m) == Eval(p, db, m)
  {
    var ps := Prefixes(p);
    WellFormedScans(p);
    AddedPrefixesDotted([], ScanNodes(p));
    if Succeeds(p, ps) { SucceedsDistinct(p, ps); }
    if StaysDistinct(p, ps) {
      DistinctPlanKeeps(p, ps);
      DistinctSucceeds(p, ps);
      MeaningKept(p);
    }
  }
}

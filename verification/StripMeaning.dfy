/** Stripping preserves meaning: same positions, same rows, over any database. */
module StripMeaning {
  import opened Options
  import opened FlatNames
  import opened Plans
  import opened Stripping
  import opened PlanMeaning
  import opened StripTheorems

  // ----- Resolution ---------------------------------------------------------------------

  /** The column still resolves to the position it resolved to before. */
  predicate ColumnKeeps(c: Column, schema: seq<Field>, ps: seq<FlatNamePrefix>)
    requires Usable(ps)
  { Resolve(StripColumn(c, ps), StripSchema(schema, ps)) == Resolve(c, schema) }

  predicate ExprKeeps(e: Expr, schema: seq<Field>, ps: seq<FlatNamePrefix>)
    requires Usable(ps)
  {
    match e
    case Col(c) => ColumnKeeps(c, schema, ps)
    case Lit(_) => true
    case Binary(l, _, r) => ExprKeeps(l, schema, ps) && ExprKeeps(r, schema, ps)
    case Call(_, args) => forall i :: 0 <= i < |args| ==> ExprKeeps(args[i], schema, ps)
    case Alias(inner, _, _) => ExprKeeps(inner, schema, ps)
    case Subquery(_) => true
  }

  predicate ExprsKeep(es: seq<Expr>, schema: seq<Field>, ps: seq<FlatNamePrefix>)
    requires Usable(ps)
  { forall i :: 0 <= i < |es| ==> ExprKeeps(es[i], schema, ps) }

  /** So does every column of every node. */
  predicate PlanKeeps(p: Plan, ps: seq<FlatNamePrefix>)
    requires Usable(ps)
  {
    match p
    case Scan(t, source, _, filters, _, _) => ExprsKeep(filters, SourceSchema(t, source), ps)
    case SubqueryAlias(input, _, _) => PlanKeeps(input, ps)
    case Projection(exprs, input, _) => PlanKeeps(input, ps) && ExprsKeep(exprs, SchemaOf(input), ps)
    case Filter(e, input) => PlanKeeps(input, ps) && ExprKeeps(e, SchemaOf(input), ps)
    case Aggregate(groups, aggs, input, _) =>
      PlanKeeps(input, ps) && ExprsKeep(groups, SchemaOf(input), ps) && ExprsKeep(aggs, SchemaOf(input), ps)
    case Join(left, right, lk, rk, _) =>
      && PlanKeeps(left, ps) && PlanKeeps(right, ps)
      && ExprsKeep(lk, SchemaOf(left), ps) && ExprsKeep(rk, SchemaOf(right), ps)
  }

  /** A column that matches the same fields as before resolves to the same position. */
  lemma {:induction false} SameMatchesSamePosition(c: Column, schema: seq<Field>, ps: seq<FlatNamePrefix>)
    requires Usable(ps)
    requires forall k :: 0 <= k < |schema| ==>
               (Matches(StripColumn(c, ps), StripField(schema[k], ps)) <==> Matches(c, schema[k]))
    ensures ColumnKeeps(c, schema, ps)
    decreases |schema|
  {
    if schema != [] {
      assert StripSchema(schema, ps)[1..] == StripSchema(schema[1..], ps);
      forall k | 0 <= k < |schema[1..]|
        ensures Matches(StripColumn(c, ps), StripField(schema[1..][k], ps)) <==> Matches(c, schema[1..][k])
      {
        assert schema[1..][k] == schema[k + 1];
      }
      SameMatchesSamePosition(c, schema[1..], ps);
    }
  }

  lemma {:induction false} PositionsSame(e: Expr, schema: seq<Field>, ps: seq<FlatNamePrefix>)
    requires Usable(ps) && ExprKeeps(e, schema, ps)
    ensures Positions(StripExpr(e, ps), StripSchema(schema, ps)) == Positions(e, schema)
    decreases e
  {
    match e
    case Col(c) =>
    case Lit(_) =>
    case Binary(l, _, r) =>
      PositionsSame(l, schema, ps);
      PositionsSame(r, schema, ps);
    case Call(_, args) => PositionsOfSame(args, schema, ps);
    case Alias(inner, _, _) => PositionsSame(inner, schema, ps);
    case Subquery(_) =>
  }

  lemma {:induction false} PositionsOfSame(es: seq<Expr>, schema: seq<Field>, ps: seq<FlatNamePrefix>)
    requires Usable(ps) && ExprsKeep(es, schema, ps)
    ensures PositionsOf(StripExprs(es, ps), StripSchema(schema, ps)) == PositionsOf(es, schema)
    decreases es
  {
    if es != [] {
      PositionsSame(es[0], schema, ps);
      PositionsOfSame(es[1..], schema, ps);
      assert StripExprs(es, ps)[1..] == StripExprs(es[1..], ps);
    }
  }

  // ----- Evaluation ---------------------------------------------------------------------

  lemma {:induction false} EvalExprSame(e: Expr, schema: seq<Field>, row: Row, m: Meaning, ps: seq<FlatNamePrefix>)
    requires Usable(ps) && ExprKeeps(e, schema, ps)
    ensures EvalExpr(StripExpr(e, ps), StripSchema(schema, ps), row, m) == EvalExpr(e, schema, row, m)
    decreases e
  {
    match e
    case Col(_) =>
    case Lit(_) =>
    case Binary(l, _, r) =>
      EvalExprSame(l, schema, row, m, ps);
      EvalExprSame(r, schema, row, m, ps);
    case Call(_, args) => EvalRowSame(args, schema, row, m, ps);
    case Alias(inner, _, _) => EvalExprSame(inner, schema, row, m, ps);
    case Subquery(_) =>
  }

  lemma {:induction false} EvalRowSame(es: seq<Expr>, schema: seq<Field>, row: Row, m: Meaning, ps: seq<FlatNamePrefix>)
    requires Usable(ps) && ExprsKeep(es, schema, ps)
    ensures EvalRow(StripExprs(es, ps), StripSchema(schema, ps), row, m) == EvalRow(es, schema, row, m)
    decreases es
  {
    if es != [] {
      EvalExprSame(es[0], schema, row, m, ps);
      EvalRowSame(es[1..], schema, row, m, ps);
      assert StripExprs(es, ps)[1..] == StripExprs(es[1..], ps);
    }
  }

  lemma {:induction false} MapRowsSame(rows: seq<Row>, es: seq<Expr>, schema: seq<Field>, m: Meaning,
                                       ps: seq<FlatNamePrefix>)
    requires Usable(ps) && ExprsKeep(es, schema, ps)
    ensures MapRows(rows, StripExprs(es, ps), StripSchema(schema, ps), m) == MapRows(rows, es, schema, m)
    decreases |rows|
  {
    if rows != [] {
      EvalRowSame(es, schema, rows[0], m, ps);
      MapRowsSame(rows[1..], es, schema, m, ps);
    }
  }

  lemma {:induction false} KeepSame(rows: seq<Row>, es: seq<Expr>, schema: seq<Field>, m: Meaning,
                                    ps: seq<FlatNamePrefix>)
    requires Usable(ps) && ExprsKeep(es, schema, ps)
    ensures Keep(rows, StripExprs(es, ps), StripSchema(schema, ps), m) == Keep(rows, es, schema, m)
    decreases |rows|
  {
    if rows != [] {
      EvalRowSame(es, schema, rows[0], m, ps);
      KeepSame(rows[1..], es, schema, m, ps);
    }
  }

  lemma {:induction false} EvalAggregateSame(e: Expr, schema: seq<Field>, group: seq<Row>, m: Meaning,
                                             ps: seq<FlatNamePrefix>)
    requires Usable(ps) && ExprKeeps(e, schema, ps)
    ensures EvalAggregate(StripExpr(e, ps), StripSchema(schema, ps), group, m) == EvalAggregate(e, schema, group, m)
    decreases e
  {
    match e
    case Call(_, args) => MapRowsSame(group, args, schema, m, ps);
    case Alias(inner, _, _) => EvalAggregateSame(inner, schema, group, m, ps);
    case _ =>
  }

  lemma {:induction false} EvalAggregatesSame(es: seq<Expr>, schema: seq<Field>, group: seq<Row>, m: Meaning,
                                              ps: seq<FlatNamePrefix>)
    requires Usable(ps) && ExprsKeep(es, schema, ps)
    ensures EvalAggregates(StripExprs(es, ps), StripSchema(schema, ps), group, m)
         == EvalAggregates(es, schema, group, m)
    decreases |es|
  {
    if es != [] {
      EvalAggregateSame(es[0], schema, group, m, ps);
      EvalAggregatesSame(es[1..], schema, group, m, ps);
      assert StripExprs(es, ps)[1..] == StripExprs(es[1..], ps);
    }
  }

  lemma {:induction false} AggregateGroupsSame(groupKeys: seq<Row>, rows: seq<Row>, keys: seq<Row>, aggs: seq<Expr>,
                                               schema: seq<Field>, m: Meaning, ps: seq<FlatNamePrefix>)
    requires Usable(ps) && ExprsKeep(aggs, schema, ps)
    requires |rows| == |keys|
    ensures AggregateGroups(groupKeys, rows, keys, StripExprs(aggs, ps), StripSchema(schema, ps), m)
         == AggregateGroups(groupKeys, rows, keys, aggs, schema, m)
    decreases |groupKeys|
  {
    if groupKeys != [] {
      EvalAggregatesSame(aggs, schema, Members(rows, keys, groupKeys[0]), m, ps);
      AggregateGroupsSame(groupKeys[1..], rows, keys, aggs, schema, m, ps);
    }
  }

  // ----- Plans --------------------------------------------------------------------------

  /** The side conditions under which the pass is a meaning-preserving rename. */
  ghost predicate Renameable(p: Plan, ps: seq<FlatNamePrefix>) {
    && Usable(ps) && DelimiterFree(ps) && Dotted(ps)
    && WellFormed(p) && PlanClean(p, ps) && PlanKeeps(p, ps)
  }

  lemma SourceSchemaSame(t: TableRef, source: Source, ps: seq<FlatNamePrefix>)
    requires Usable(ps)
    requires forall i :: 0 <= i < |source.columns| ==> NameStable(source.columns[i], ps)
    ensures SourceSchema(Reduced(t), source) == StripSchema(SourceSchema(t, source), ps)
  {
    forall i | 0 <= i < |source.columns|
      ensures SourceSchema(Reduced(t), source)[i] == StripSchema(SourceSchema(t, source), ps)[i]
    {
      StableName(source.columns[i], ps);
    }
  }

  lemma {:induction false} PlanPositionsSame(p: Plan, ps: seq<FlatNamePrefix>)
    requires Renameable(p, ps)
    ensures ScansBuildable(p) && PlanPositions(Strip(p, ps)) == PlanPositions(p)
    decreases p
  {
    SchemaCommutes(p, ps);
    match p
    case Scan(t, source, _, filters, _, _) =>
      SourceSchemaSame(t, source, ps);
      PositionsOfSame(filters, SourceSchema(t, source), ps);
    case SubqueryAlias(input, _, _) => PlanPositionsSame(input, ps);
    case Projection(exprs, input, _) =>
      SchemaCommutes(input, ps);
      PlanPositionsSame(input, ps);
      PositionsOfSame(exprs, SchemaOf(input), ps);
    case Filter(e, input) =>
      SchemaCommutes(input, ps);
      PlanPositionsSame(input, ps);
      PositionsSame(e, SchemaOf(input), ps);
    case Aggregate(groups, aggs, input, _) =>
      SchemaCommutes(input, ps);
      PlanPositionsSame(input, ps);
      PositionsOfSame(groups, SchemaOf(input), ps);
      PositionsOfSame(aggs, SchemaOf(input), ps);
    case Join(left, right, lk, rk, _) =>
      SchemaCommutes(left, ps);
      SchemaCommutes(right, ps);
      PlanPositionsSame(left, ps);
      PlanPositionsSame(right, ps);
      PositionsOfSame(lk, SchemaOf(left), ps);
      PositionsOfSame(rk, SchemaOf(right), ps);
  }

  lemma {:induction false} EvalSame(p: Plan, ps: seq<FlatNamePrefix>, db: Database, m: Meaning)
    requires Renameable(p, ps)
    ensures ScansBuildable(p) && Eval(Strip(p, ps), db, m) == Eval(p, db, m)
    decreases p
  {
    SchemaCommutes(p, ps);
    match p
    case Scan(t, source, _, filters, _, _) =>
      SourceSchemaSame(t, source, ps);
      KeepSame(db(source.data), filters, SourceSchema(t, source), m, ps);
    case SubqueryAlias(input, _, _) => EvalSame(input, ps, db, m);
    case Projection(exprs, input, _) =>
      SchemaCommutes(input, ps);
      EvalSame(input, ps, db, m);
      MapRowsSame(Eval(input, db, m), exprs, SchemaOf(input), m, ps);
    case Filter(e, input) =>
      SchemaCommutes(input, ps);
      EvalSame(input, ps, db, m);
      assert StripExprs([e], ps) == [StripExpr(e, ps)];
      KeepSame(Eval(input, db, m), [e], SchemaOf(input), m, ps);
    case Aggregate(groups, aggs, input, _) =>
      SchemaCommutes(input, ps);
      EvalSame(input, ps, db, m);
      var rows := Eval(input, db, m);
      MapRowsSame(rows, groups, SchemaOf(input), m, ps);
      var keys := MapRows(rows, groups, SchemaOf(input), m);
      MapRowsLength(rows, groups, SchemaOf(input), m);
      var groupKeys := if groups == [] then [[]] else DistinctKeys(keys);
      AggregateGroupsSame(groupKeys, rows, keys, aggs, SchemaOf(input), m, ps);
    case Join(left, right, lk, rk, _) =>
      SchemaCommutes(left, ps);
      SchemaCommutes(right, ps);
      EvalSame(left, ps, db, m);
      EvalSame(right, ps, db, m);
      MapRowsSame(Eval(left, db, m), lk, SchemaOf(left), m, ps);
      MapRowsSame(Eval(right, db, m), rk, SchemaOf(right), m, ps);
  }

  lemma {:induction false} AddedPrefixesDotted(ps: seq<FlatNamePrefix>, scans: seq<Plan>)
    requires Usable(ps) && Dotted(ps)
    requires forall i :: 0 <= i < |scans| ==> scans[i].Scan?
    ensures Dotted(AddPrefixes(ps, scans))
    decreases |scans|
  {
    if scans != [] {
      AddedPrefixesDotted(ps + [PrefixOf(scans[0].table)], scans[1..]);
      AddedPrefixesDotted(ps, scans[1..]);
    }
  }

  /**
    What a plan keeps when every column keeps its position: the result is well formed, its
    schema is the old one renamed, and over any database and any interpretation the rows
    are the same.
   */
  lemma MeaningKept(p: Plan)
    requires WellFormed(p) && DelimiterFree(Prefixes(p)) && PlanClean(p, Prefixes(p)) && PlanKeeps(p, Prefixes(p))
    ensures ScansBuildable(p) && WellFormed(StripPlan(p))
    ensures SchemaOf(StripPlan(p)) == StripSchema(SchemaOf(p), Prefixes(p))
    ensures PlanPositions(StripPlan(p)) == PlanPositions(p)
    ensures forall db, m :: Eval(StripPlan(p), db, m) == Eval(p, db, m)
  {
    var ps := Prefixes(p);
    AddedPrefixesDotted([], ScanNodes(p));
    StripWellFormed(p, ps);
    SchemaCommutes(p, ps);
    PlanPositionsSame(p, ps);
    forall db, m ensures Eval(StripPlan(p), db, m) == Eval(p, db, m) {
      EvalSame(p, ps, db, m);
    }
  }

  // ----- Plans in which reduction merges nothing ----------------------------------------

  /** The references and names a plan mentions. */
  datatype Universe = Universe(refs: set<TableRef>, names: set<string>)

  /** Reduction merges no two of them. */
  ghost predicate MergeFree(u: Universe, ps: seq<FlatNamePrefix>)
    requires Usable(ps)
  {
    && (forall a, b :: a in u.refs && b in u.refs && ResolvedEq(Reduced(a), Reduced(b)) ==> ResolvedEq(a, b))
    && (forall x, y :: x in u.names && y in u.names && ReducedName(x, ps) == ReducedName(y, ps) ==> x == y)
  }

  predicate RefWithin(r: Option<TableRef>, u: Universe) { r.Some? ==> r.value in u.refs }

  predicate SchemaWithin(fields: seq<Field>, u: Universe) {
    forall i :: 0 <= i < |fields| ==> RefWithin(fields[i].qualifier, u) && fields[i].name in u.names
  }

  predicate ExprWithin(e: Expr, u: Universe) {
    match e
    case Col(c) => RefWithin(c.relation, u) && c.name in u.names
    case Lit(_) => true
    case Binary(l, _, r) => ExprWithin(l, u) && ExprWithin(r, u)
    case Call(_, args) => forall i :: 0 <= i < |args| ==> ExprWithin(args[i], u)
    case Alias(inner, _, _) => ExprWithin(inner, u)
    case Subquery(_) => true
  }

  predicate ExprsWithin(es: seq<Expr>, u: Universe) { forall i :: 0 <= i < |es| ==> ExprWithin(es[i], u) }

  predicate PlanWithin(p: Plan, u: Universe) {
    && SchemaWithin(SchemaOf(p), u)
    && match p
       case Scan(t, source, _, filters, _, _) => SchemaWithin(SourceSchema(t, source), u) && ExprsWithin(filters, u)
       case SubqueryAlias(input, _, _) => PlanWithin(input, u)
       case Projection(exprs, input, _) => PlanWithin(input, u) && ExprsWithin(exprs, u)
       case Filter(e, input) => PlanWithin(input, u) && ExprWithin(e, u)
       case Aggregate(groups, aggs, input, _) => PlanWithin(input, u) && ExprsWithin(groups, u) && ExprsWithin(aggs, u)
       case Join(left, right, lk, rk, _) =>
         PlanWithin(left, u) && PlanWithin(right, u) && ExprsWithin(lk, u) && ExprsWithin(rk, u)
  }

  lemma MatchesSame(c: Column, f: Field, u: Universe, ps: seq<FlatNamePrefix>)
    requires Usable(ps) && MergeFree(u, ps)
    requires RefWithin(c.relation, u) && c.name in u.names
    requires RefWithin(f.qualifier, u) && f.name in u.names
    ensures Matches(StripColumn(c, ps), StripField(f, ps)) <==> Matches(c, f)
  {
    if c.relation.Some? && f.qualifier.Some? {
      assert ResolvedEq(c.relation.value, f.qualifier.value)
        <==> ResolvedEq(Reduced(c.relation.value), Reduced(f.qualifier.value));
    }
  }

  /** A column resolves to the position it resolved to before. */
  lemma ResolveSame(c: Column, schema: seq<Field>, u: Universe, ps: seq<FlatNamePrefix>)
    requires Usable(ps) && MergeFree(u, ps)
    requires RefWithin(c.relation, u) && c.name in u.names && SchemaWithin(schema, u)
    ensures Resolve(StripColumn(c, ps), StripSchema(schema, ps)) == Resolve(c, schema)
  {
    forall k | 0 <= k < |schema|
      ensures Matches(StripColumn(c, ps), StripField(schema[k], ps)) <==> Matches(c, schema[k])
    {
      MatchesSame(c, schema[k], u, ps);
    }
    SameMatchesSamePosition(c, schema, ps);
  }

  lemma {:induction false} ExprWithinKeeps(e: Expr, schema: seq<Field>, u: Universe, ps: seq<FlatNamePrefix>)
    requires Usable(ps) && MergeFree(u, ps) && ExprWithin(e, u) && SchemaWithin(schema, u)
    ensures ExprKeeps(e, schema, ps)
    decreases e
  {
    match e
    case Col(c) => ResolveSame(c, schema, u, ps);
    case Binary(l, _, r) =>
      ExprWithinKeeps(l, schema, u, ps);
      ExprWithinKeeps(r, schema, u, ps);
    case Call(_, args) =>
      forall i | 0 <= i < |args| ensures ExprKeeps(args[i], schema, ps) { ExprWithinKeeps(args[i], schema, u, ps); }
    case Alias(inner, _, _) => ExprWithinKeeps(inner, schema, u, ps);
    case _ =>
  }

  lemma ExprsWithinKeep(es: seq<Expr>, schema: seq<Field>, u: Universe, ps: seq<FlatNamePrefix>)
    requires Usable(ps) && MergeFree(u, ps) && ExprsWithin(es, u) && SchemaWithin(schema, u)
    ensures ExprsKeep(es, schema, ps)
  {
    forall i | 0 <= i < |es| ensures ExprKeeps(es[i], schema, ps) { ExprWithinKeeps(es[i], schema, u, ps); }
  }

  lemma {:induction false} PlanWithinKeeps(p: Plan, u: Universe, ps: seq<FlatNamePrefix>)
    requires Usable(ps) && MergeFree(u, ps) && PlanWithin(p, u)
    ensures PlanKeeps(p, ps)
    decreases p
  {
    match p
    case Scan(t, source, _, filters, _, _) => ExprsWithinKeep(filters, SourceSchema(t, source), u, ps);
    case SubqueryAlias(input, _, _) => PlanWithinKeeps(input, u, ps);
    case Projection(exprs, input, _) =>
      PlanWithinKeeps(input, u, ps);
      ExprsWithinKeep(exprs, SchemaOf(input), u, ps);
    case Filter(e, input) =>
      PlanWithinKeeps(input, u, ps);
      ExprWithinKeeps(e, SchemaOf(input), u, ps);
    case Aggregate(groups, aggs, input, _) =>
      PlanWithinKeeps(input, u, ps);
      ExprsWithinKeep(groups, SchemaOf(input), u, ps);
      ExprsWithinKeep(aggs, SchemaOf(input), u, ps);
    case Join(left, right, lk, rk, _) =>
      PlanWithinKeeps(left, u, ps);
      PlanWithinKeeps(right, u, ps);
      ExprsWithinKeep(lk, SchemaOf(left), u, ps);
      ExprsWithinKeep(rk, SchemaOf(right), u, ps);
  }

  /**
    The whole pass, with the prefixes it collects itself: the result is well formed, its
    schema is the old one renamed, every column of every node resolves to the position it
    had, and over any database and any interpretation the rows are the same.
   */
  lemma StrippingPreservesMeaning(p: Plan, u: Universe)
    requires WellFormed(p) && PlanWithin(p, u)
    requires DelimiterFree(Prefixes(p)) && PlanClean(p, Prefixes(p)) && MergeFree(u, Prefixes(p))
    ensures ScansBuildable(p) && WellFormed(StripPlan(p))
    ensures SchemaOf(StripPlan(p)) == StripSchema(SchemaOf(p), Prefixes(p))
    ensures PlanPositions(StripPlan(p)) == PlanPositions(p)
    ensures WellResolved(StripPlan(p)) <==> WellResolved(p)
    ensures forall db, m :: Eval(StripPlan(p), db, m) == Eval(p, db, m)
  {
    PlanWithinKeeps(p, u, Prefixes(p));
    MeaningKept(p);
  }
}

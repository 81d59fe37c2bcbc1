/**
  What a plan means: columns resolve by name against the schema below them, expressions are
  evaluated on rows, and a plan yields rows over any database.
 */
module PlanMeaning {
  import opened Options
  import opened FlatNames
  import opened Plans

  /** `Missing` is the value of a column that resolves nowhere. */
  datatype Value = Missing | Null | Bool(b: bool) | Int(i: int) | Text(s: string)

  type Row = seq<Value>

  type Database = nat -> seq<Row>

  /** How literals, functions, aggregates and subqueries are interpreted; any interpretation will do. */
  datatype Meaning = Meaning(
    literal: string -> Value,
    scalar: (string, seq<Value>) -> Value,
    aggregate: (string, seq<Row>) -> Value,
    subquery: Plan -> Value)

  // ----- Resolution ---------------------------------------------------------------------

  /** An unqualified column matches by name alone; a qualified one needs an agreeing qualifier. */
  predicate Matches(c: Column, f: Field) {
    && c.name == f.name
    && (c.relation.Some? ==> f.qualifier.Some? && ResolvedEq(c.relation.value, f.qualifier.value))
  }

  /** The first matching position. */
  function Resolve(c: Column, schema: seq<Field>): (pos: Option<nat>)
    ensures pos.Some? ==> pos.value < |schema| && Matches(c, schema[pos.value])
  {
    if schema == [] then None
    else if Matches(c, schema[0]) then Some(0)
    else
      var rest := Resolve(c, schema[1..]);
      if rest.None? then None else Some(rest.value + 1)
  }

  /** Where every column of an expression resolves, left to right. */
  function Positions(e: Expr, schema: seq<Field>): seq<Option<nat>> {
    match e
    case Col(c) => [Resolve(c, schema)]
    case Lit(_) => []
    case Binary(l, _, r) => Positions(l, schema) + Positions(r, schema)
    case Call(_, args) => PositionsOf(args, schema)
    case Alias(inner, _, _) => Positions(inner, schema)
    case Subquery(_) => []
  }

  function PositionsOf(es: seq<Expr>, schema: seq<Field>): seq<Option<nat>> {
    if es == [] then [] else Positions(es[0], schema) + PositionsOf(es[1..], schema)
  }

  /** Where every column of every node resolves. */
  function PlanPositions(p: Plan): seq<Option<nat>> {
    match p
    case Scan(t, source, _, filters, _, _) => PositionsOf(filters, SourceSchema(t, source))
    case SubqueryAlias(input, _, _) => PlanPositions(input)
    case Projection(exprs, input, _) => PlanPositions(input) + PositionsOf(exprs, SchemaOf(input))
    case Filter(e, input) => PlanPositions(input) + Positions(e, SchemaOf(input))
    case Aggregate(groups, aggs, input, _) =>
      PlanPositions(input) + PositionsOf(groups, SchemaOf(input)) + PositionsOf(aggs, SchemaOf(input))
    case Join(left, right, lk, rk, _) =>
      PlanPositions(left) + PlanPositions(right) + PositionsOf(lk, SchemaOf(left)) + PositionsOf(rk, SchemaOf(right))
  }

  /** No column is left without a field. */
  predicate WellResolved(p: Plan) { None !in PlanPositions(p) }

  // ----- Evaluation ---------------------------------------------------------------------

  function EvalExpr(e: Expr, schema: seq<Field>, row: Row, m: Meaning): Value {
    match e
    case Col(c) =>
      var pos := Resolve(c, schema);
      if pos.Some? && pos.value < |row| then row[pos.value] else Missing
    case Lit(t) => m.literal(t)
    case Binary(l, op, r) => m.scalar(op, [EvalExpr(l, schema, row, m), EvalExpr(r, schema, row, m)])
    case Call(f, args) => m.scalar(f, EvalRow(args, schema, row, m))
    case Alias(inner, _, _) => EvalExpr(inner, schema, row, m)
    case Subquery(p) => m.subquery(p)
  }

  function EvalRow(es: seq<Expr>, schema: seq<Field>, row: Row, m: Meaning): Row {
    if es == [] then [] else [EvalExpr(es[0], schema, row, m)] + EvalRow(es[1..], schema, row, m)
  }

  function Keep(rows: seq<Row>, filters: seq<Expr>, schema: seq<Field>, m: Meaning): seq<Row> {
    if rows == [] then []
    else
      var rest := Keep(rows[1..], filters, schema, m);
      var vs := EvalRow(filters, schema, rows[0], m);
      if forall i :: 0 <= i < |vs| ==> vs[i] == Bool(true) then [rows[0]] + rest else rest
  }

  function MapRows(rows: seq<Row>, es: seq<Expr>, schema: seq<Field>, m: Meaning): seq<Row> {
    if rows == [] then [] else [EvalRow(es, schema, rows[0], m)] + MapRows(rows[1..], es, schema, m)
  }

  function Pick(rows: seq<Row>, projection: seq<nat>): seq<Row> {
    seq(|rows|, i requires 0 <= i < |rows| =>
      seq(|projection|, k requires 0 <= k < |projection| =>
        if projection[k] < |rows[i]| then rows[i][projection[k]] else Missing))
  }

  function DistinctKeys(keys: seq<Row>): seq<Row> {
    if keys == [] then []
    else
      var earlier := DistinctKeys(keys[..|keys| - 1]);
      if keys[|keys| - 1] in earlier then earlier else earlier + [keys[|keys| - 1]]
  }

  function Members(rows: seq<Row>, keys: seq<Row>, key: Row): seq<Row>
    requires |rows| == |keys|
  {
    if rows == [] then []
    else (if keys[0] == key then [rows[0]] else []) + Members(rows[1..], keys[1..], key)
  }

  /** An aggregate sees the argument rows of its whole group. */
  function EvalAggregate(e: Expr, schema: seq<Field>, group: seq<Row>, m: Meaning): Value {
    match e
    case Call(f, args) => m.aggregate(f, MapRows(group, args, schema, m))
    case Alias(inner, _, _) => EvalAggregate(inner, schema, group, m)
    case _ => Missing
  }

  function EvalAggregates(aggs: seq<Expr>, schema: seq<Field>, group: seq<Row>, m: Meaning): Row {
    if aggs == [] then [] else [EvalAggregate(aggs[0], schema, group, m)] + EvalAggregates(aggs[1..], schema, group, m)
  }

  function AggregateGroups(groupKeys: seq<Row>, rows: seq<Row>, keys: seq<Row>, aggs: seq<Expr>,
                           schema: seq<Field>, m: Meaning): seq<Row>
    requires |rows| == |keys|
  {
    if groupKeys == [] then []
    else
      [groupKeys[0] + EvalAggregates(aggs, schema, Members(rows, keys, groupKeys[0]), m)]
      + AggregateGroups(groupKeys[1..], rows, keys, aggs, schema, m)
  }

  /** Pairs of rows whose keys agree, left rows first. */
  function JoinRows(lefts: seq<Row>, rights: seq<Row>, lkeys: seq<Row>, rkeys: seq<Row>): seq<Row>
    requires |lefts| == |lkeys| && |rights| == |rkeys|
  {
    if lefts == [] then []
    else
      var partners := Members(rights, rkeys, lkeys[0]);
      seq(|partners|, i requires 0 <= i < |partners| => lefts[0] + partners[i])
      + JoinRows(lefts[1..], rights, lkeys[1..], rkeys)
  }

  lemma MapRowsLength(rows: seq<Row>, es: seq<Expr>, schema: seq<Field>, m: Meaning)
    ensures |MapRows(rows, es, schema, m)| == |rows|
  {}

  function Eval(p: Plan, db: Database, m: Meaning): seq<Row> {
    match p
    case Scan(t, source, projection, filters, fetch, _) =>
      var kept := Keep(db(source.data), filters, SourceSchema(t, source), m);
      var limited := if fetch.Some? && fetch.value < |kept| then kept[..fetch.value] else kept;
      if projection.None? then limited else Pick(limited, projection.value)
    case SubqueryAlias(input, _, _) => Eval(input, db, m)
    case Projection(exprs, input, _) => MapRows(Eval(input, db, m), exprs, SchemaOf(input), m)
    case Filter(e, input) => Keep(Eval(input, db, m), [e], SchemaOf(input), m)
    case Aggregate(groups, aggs, input, _) =>
      var rows := Eval(input, db, m);
      var keys := MapRows(rows, groups, SchemaOf(input), m);
      MapRowsLength(rows, groups, SchemaOf(input), m);
      var groupKeys := if groups == [] then [[]] else DistinctKeys(keys);
      AggregateGroups(groupKeys, rows, keys, aggs, SchemaOf(input), m)
    case Join(left, right, lk, rk, _) =>
      var lefts, rights := Eval(left, db, m), Eval(right, db, m);
      var lkeys, rkeys := MapRows(lefts, lk, SchemaOf(left), m), MapRows(rights, rk, SchemaOf(right), m);
      MapRowsLength(lefts, lk, SchemaOf(left), m);
      MapRowsLength(rights, rk, SchemaOf(right), m);
      JoinRows(lefts, rights, lkeys, rkeys)
  }
}

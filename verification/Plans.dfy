/**
  Logical plans and the expressions inside them.

  Every node that stores a schema in the engine stores one here, so a pass that rewrites a
  node and forgets to recompute its schema leaves a stale schema behind.
 */
module Plans {
  import opened Options
  import opened FlatNames

  datatype Column = Column(relation: Option<TableRef>, name: string)

  datatype Field = Field(qualifier: Option<TableRef>, name: string)

  datatype Expr =
    | Col(col: Column)
    | Lit(text: string)
    | Binary(left: Expr, op: string, right: Expr)
    | Call(fn: string, args: seq<Expr>)
    | Alias(inner: Expr, relation: Option<TableRef>, name: string)
    | Subquery(plan: Plan)

  /** What stands behind a scan. */
  datatype Provider =
    | SqlProvider(context: Option<string>, remote: TableRef)
    | WarehouseProvider(connector: string, namespace: string, table: string)
    | NativeProvider(id: nat)

  datatype Source = Source(data: nat, columns: seq<string>, provider: Provider)

  datatype Plan =
    | Scan(table: TableRef, source: Source, projection: Option<seq<nat>>,
           filters: seq<Expr>, fetch: Option<nat>, schema: seq<Field>)
    | SubqueryAlias(input: Plan, alias: TableRef, schema: seq<Field>)
    | Projection(exprs: seq<Expr>, input: Plan, schema: seq<Field>)
    | Filter(predicate_: Expr, input: Plan)
    | Aggregate(groups: seq<Expr>, aggs: seq<Expr>, input: Plan, schema: seq<Field>)
    | Join(left: Plan, right: Plan, leftKeys: seq<Expr>, rightKeys: seq<Expr>, schema: seq<Field>)

  // ----- Rendering ----------------------------------------------------------------------

  function FlatName(c: Column): string {
    if c.relation.None? then c.name else ShowRef(c.relation.value) + "." + c.name
  }

  function Render(e: Expr): string {
    match e
    case Col(c) => FlatName(c)
    case Lit(t) => t
    case Binary(l, op, r) => Render(l) + " " + op + " " + Render(r)
    case Call(f, args) => f + "(" + RenderArgs(args) + ")"
    case Alias(_, _, n) => n
    case Subquery(_) => "(<subquery>)"
  }

  function RenderArgs(args: seq<Expr>): string {
    if args == [] then ""
    else if |args| == 1 then Render(args[0])
    else Render(args[0]) + "," + RenderArgs(args[1..])
  }

  /** The field an output expression produces: only compound expressions are flattened. */
  function OutputField(e: Expr): Field {
    match e
    case Col(c) => Field(c.relation, c.name)
    case Alias(_, rel, n) => Field(rel, n)
    case _ => Field(None, Render(e))
  }

  /** How a node above names the output of an expression. */
  function OutputColumn(e: Expr): Column {
    match e
    case Col(c) => c
    case Alias(_, rel, n) => Column(rel, n)
    case _ => Column(None, Render(e))
  }

  function OutputFields(es: seq<Expr>): seq<Field> {
    seq(|es|, i requires 0 <= i < |es| => OutputField(es[i]))
  }

  // ----- Schemas ------------------------------------------------------------------------

  function SourceSchema(t: TableRef, source: Source): seq<Field> {
    seq(|source.columns|, i requires 0 <= i < |source.columns| => Field(Some(t), source.columns[i]))
  }

  predicate ProjectionInRange(projection: Option<seq<nat>>, width: nat) {
    projection.Some? ==> forall i :: 0 <= i < |projection.value| ==> projection.value[i] < width
  }

  function ScanSchema(t: TableRef, source: Source, projection: Option<seq<nat>>): seq<Field>
    requires ProjectionInRange(projection, |source.columns|)
  {
    if projection.None? then SourceSchema(t, source)
    else seq(|projection.value|, i requires 0 <= i < |projection.value| =>
               Field(Some(t), source.columns[projection.value[i]]))
  }

  function Requalify(fields: seq<Field>, alias: TableRef): seq<Field> {
    seq(|fields|, i requires 0 <= i < |fields| => Field(Some(alias), fields[i].name))
  }

  /** The schema a node stores; a filter stores none and shows its input's. */
  function SchemaOf(p: Plan): seq<Field> {
    match p
    case Filter(_, input) => SchemaOf(input)
    case Scan(_, _, _, _, _, schema) => schema
    case SubqueryAlias(_, _, schema) => schema
    case Projection(_, _, schema) => schema
    case Aggregate(_, _, _, schema) => schema
    case Join(_, _, _, _, schema) => schema
  }

  /** Rebuild a node's schema from its inputs and expressions; scans are left alone. */
  function RecomputeSchema(p: Plan): Plan {
    match p
    case Scan(_, _, _, _, _, _) => p
    case SubqueryAlias(input, alias, _) => SubqueryAlias(input, alias, Requalify(SchemaOf(input), alias))
    case Projection(exprs, input, _) => Projection(exprs, input, OutputFields(exprs))
    case Filter(_, _) => p
    case Aggregate(groups, aggs, input, _) =>
      Aggregate(groups, aggs, input, OutputFields(groups) + OutputFields(aggs))
    case Join(left, right, lk, rk, _) => Join(left, right, lk, rk, SchemaOf(left) + SchemaOf(right))
  }

  /** A scan built from its parts always stores the schema qualified by its own name. */
  function NewScan(t: TableRef, source: Source, projection: Option<seq<nat>>,
                   filters: seq<Expr>, fetch: Option<nat>): Plan
    requires ProjectionInRange(projection, |source.columns|)
  {
    Scan(t, source, projection, filters, fetch, ScanSchema(t, source, projection))
  }

  /** Every stored schema is the one its node would compute. */
  predicate WellFormed(p: Plan) {
    match p
    case Scan(t, source, projection, _, _, schema) =>
      ProjectionInRange(projection, |source.columns|) && schema == ScanSchema(t, source, projection)
    case SubqueryAlias(input, _, _) => WellFormed(input) && RecomputeSchema(p) == p
    case Projection(_, input, _) => WellFormed(input) && RecomputeSchema(p) == p
    case Filter(_, input) => WellFormed(input)
    case Aggregate(_, _, input, _) => WellFormed(input) && RecomputeSchema(p) == p
    case Join(left, right, leftKeys, rightKeys, _) =>
      WellFormed(left) && WellFormed(right) && |leftKeys| == |rightKeys| && RecomputeSchema(p) == p
  }

  /** Scans with an out-of-range projection cannot be rebuilt. */
  predicate ScansBuildable(p: Plan) {
    match p
    case Scan(_, source, projection, _, _, _) => ProjectionInRange(projection, |source.columns|)
    case SubqueryAlias(input, _, _) => ScansBuildable(input)
    case Projection(_, input, _) => ScansBuildable(input)
    case Filter(_, input) => ScansBuildable(input)
    case Aggregate(_, _, input, _) => ScansBuildable(input)
    case Join(left, right, _, _, _) => ScansBuildable(left) && ScansBuildable(right)
  }

  lemma WellFormedScans(p: Plan)
    requires WellFormed(p)
    ensures ScansBuildable(p)
  {}

  /** The scans of a plan in pre-order; subquery expressions are not entered. */
  function ScanNodes(p: Plan): (scans: seq<Plan>)
    ensures forall i :: 0 <= i < |scans| ==> scans[i].Scan?
  {
    match p
    case Scan(_, _, _, _, _, _) => [p]
    case SubqueryAlias(input, _, _) => ScanNodes(input)
    case Projection(_, input, _) => ScanNodes(input)
    case Filter(_, input) => ScanNodes(input)
    case Aggregate(_, _, input, _) => ScanNodes(input)
    case Join(left, right, _, _, _) => ScanNodes(left) + ScanNodes(right)
  }
}

/**
  What stripping does to a plan: every schema is renamed field by field, catalogs are gone
  exactly where the pass can reach, and a second pass changes nothing.
 */
module StripTheorems {
  import opened Options
  import opened FlatNames
  import opened Plans
  import opened Stripping

  // ----- Schemas ------------------------------------------------------------------------

  function StripField(f: Field, ps: seq<FlatNamePrefix>): Field
    requires Usable(ps)
  { Field(ReducedOpt(f.qualifier), ReducedName(f.name, ps)) }

  function StripSchema(fields: seq<Field>, ps: seq<FlatNamePrefix>): seq<Field>
    requires Usable(ps)
  { seq(|fields|, i requires 0 <= i < |fields| => StripField(fields[i], ps)) }

  /** A name the pass must leave alone, because nothing renames the field it stands for. */
  predicate NameStable(n: string, ps: seq<FlatNamePrefix>) { IsExpressionName(n) ==> NoneOccurs(n, ps) }

  /**
    What an output expression must satisfy for its field to follow the rename: a plain
    column nothing, an alias no catalog and no embedded prefix, a compound a clean rendering.
   */
  ghost predicate OutputClean(e: Expr, ps: seq<FlatNamePrefix>) {
    match e
    case Col(_) => true
    case Alias(_, rel, n) => (rel.Some? ==> !HasCatalog(rel.value)) && NameStable(n, ps)
    case _ => RenderClean(e, ps)
  }

  ghost predicate OutputsClean(es: seq<Expr>, ps: seq<FlatNamePrefix>) {
    forall i :: 0 <= i < |es| ==> OutputClean(es[i], ps)
  }

  ghost predicate PlanClean(p: Plan, ps: seq<FlatNamePrefix>) {
    match p
    case Scan(_, source, _, _, _, _) =>
      forall i :: 0 <= i < |source.columns| ==> NameStable(source.columns[i], ps)
    case SubqueryAlias(input, _, _) => PlanClean(input, ps)
    case Projection(exprs, input, _) => PlanClean(input, ps) && OutputsClean(exprs, ps)
    case Filter(_, input) => PlanClean(input, ps)
    case Aggregate(groups, aggs, input, _) =>
      PlanClean(input, ps) && OutputsClean(groups, ps) && OutputsClean(aggs, ps)
    case Join(left, right, _, _, _) => PlanClean(left, ps) && PlanClean(right, ps)
  }

  lemma StableName(n: string, ps: seq<FlatNamePrefix>)
    requires Usable(ps) && NameStable(n, ps)
    ensures ReducedName(n, ps) == n
  {
    if IsExpressionName(n) { RewriteAbsent(n, ps); }
  }

  lemma CompoundIsExpressionName(e: Expr)
    requires e.Binary? || e.Call? || e.Subquery?
    ensures IsExpressionName(Render(e))
  {
    match e
    case Binary(l, op, r) => assert Render(e)[|Render(l)|] == ' ';
    case Call(f, _) => assert Render(e)[|f|] == '(';
    case Subquery(_) => assert Render(e)[0] == '(';
  }

  /** The field of a rewritten output expression is the renamed field: what a node above still looks for. */
  lemma OutputFieldCommutes(e: Expr, ps: seq<FlatNamePrefix>)
    requires Usable(ps) && DelimiterFree(ps) && Dotted(ps) && OutputClean(e, ps)
    ensures OutputField(StripExpr(e, ps)) == StripField(OutputField(e), ps)
  {
    match e
    case Col(_) =>
    case Alias(_, _, n) => StableName(n, ps);
    case Lit(t) => RewriteAbsent(t, ps);
    case _ =>
      RenderRewrites(e, ps);
      CompoundIsExpressionName(e);
  }

  lemma OutputFieldsCommute(es: seq<Expr>, ps: seq<FlatNamePrefix>)
    requires Usable(ps) && DelimiterFree(ps) && Dotted(ps) && OutputsClean(es, ps)
    ensures OutputFields(StripExprs(es, ps)) == StripSchema(OutputFields(es), ps)
  {
    forall i | 0 <= i < |es|
      ensures OutputFields(StripExprs(es, ps))[i] == StripSchema(OutputFields(es), ps)[i]
    {
      OutputFieldCommutes(es[i], ps);
    }
  }

  lemma ScanSchemaCommutes(p: Plan, ps: seq<FlatNamePrefix>)
    requires Usable(ps) && p.Scan? && WellFormed(p) && PlanClean(p, ps)
    ensures ScansBuildable(p) && SchemaOf(Strip(p, ps)) == StripSchema(SchemaOf(p), ps)
  {
    forall i | 0 <= i < |p.schema| ensures SchemaOf(Strip(p, ps))[i] == StripSchema(p.schema, ps)[i] {
      StableName(p.schema[i].name, ps);
    }
  }

  /** The recomputed schema of every node is its old schema, renamed field by field. */
  lemma {:induction false} SchemaCommutes(p: Plan, ps: seq<FlatNamePrefix>)
    requires Usable(ps) && DelimiterFree(ps) && Dotted(ps)
    requires WellFormed(p) && PlanClean(p, ps)
    ensures ScansBuildable(p) && SchemaOf(Strip(p, ps)) == StripSchema(SchemaOf(p), ps)
    decreases p
  {
    WellFormedScans(p);
    match p
    case Scan(_, _, _, _, _, _) => ScanSchemaCommutes(p, ps);
    case SubqueryAlias(input, _, _) => SchemaCommutes(input, ps);
    case Projection(exprs, _, _) => OutputFieldsCommute(exprs, ps);
    case Filter(_, input) => SchemaCommutes(input, ps);
    case Aggregate(_, _, _, _) => AggregateSchemaCommutes(p, ps);
    case Join(left, right, _, _, _) =>
      SchemaCommutes(left, ps);
      SchemaCommutes(right, ps);
      StripSchemaConcat(SchemaOf(left), SchemaOf(right), ps);
  }

  lemma StripSchemaConcat(a: seq<Field>, b: seq<Field>, ps: seq<FlatNamePrefix>)
    requires Usable(ps)
    ensures StripSchema(a + b, ps) == StripSchema(a, ps) + StripSchema(b, ps)
  {}

  lemma AggregateSchemaCommutes(p: Plan, ps: seq<FlatNamePrefix>)
    requires Usable(ps) && DelimiterFree(ps) && Dotted(ps)
    requires p.Aggregate? && WellFormed(p) && PlanClean(p, ps) && ScansBuildable(p)
    ensures SchemaOf(Strip(p, ps)) == StripSchema(SchemaOf(p), ps)
  {
    OutputFieldsCommute(p.groups, ps);
    OutputFieldsCommute(p.aggs, ps);
    StripSchemaConcat(OutputFields(p.groups), OutputFields(p.aggs), ps);
  }

  /** No node of a stripped plan keeps a stale schema. */
  lemma {:induction false} StripWellFormed(p: Plan, ps: seq<FlatNamePrefix>)
    requires Usable(ps) && WellFormed(p)
    ensures ScansBuildable(p) && WellFormed(Strip(p, ps))
    decreases p
  {
    WellFormedScans(p);
    match p
    case Scan(_, _, _, _, _, _) =>
    case SubqueryAlias(input, _, _) => StripWellFormed(input, ps);
    case Projection(_, input, _) => StripWellFormed(input, ps);
    case Filter(_, input) => StripWellFormed(input, ps);
    case Aggregate(_, _, input, _) => StripWellFormed(input, ps);
    case Join(left, right, _, _, _) =>
      StripWellFormed(left, ps);
      StripWellFormed(right, ps);
  }

  // ----- Catalogs -----------------------------------------------------------------------

  predicate RefFree(r: Option<TableRef>) { r.Some? ==> !HasCatalog(r.value) }

  predicate SchemaFree(fields: seq<Field>) { forall i :: 0 <= i < |fields| ==> RefFree(fields[i].qualifier) }

  /** No catalog anywhere in the expression, subquery plans included. */
  predicate ExprFree(e: Expr) {
    match e
    case Col(c) => RefFree(c.relation)
    case Lit(_) => true
    case Binary(l, _, r) => ExprFree(l) && ExprFree(r)
    case Call(_, args) => forall i :: 0 <= i < |args| ==> ExprFree(args[i])
    case Alias(inner, rel, _) => RefFree(rel) && ExprFree(inner)
    case Subquery(p) => PlanFree(p)
  }

  predicate ExprsFree(es: seq<Expr>) { forall i :: 0 <= i < |es| ==> ExprFree(es[i]) }

  /** No scan name, alias, column relation or stored field qualifier carries a catalog, at any depth. */
  predicate PlanFree(p: Plan) {
    match p
    case Scan(t, _, _, filters, _, schema) => !HasCatalog(t) && ExprsFree(filters) && SchemaFree(schema)
    case SubqueryAlias(input, alias, schema) => PlanFree(input) && !HasCatalog(alias) && SchemaFree(schema)
    case Projection(exprs, input, schema) => PlanFree(input) && ExprsFree(exprs) && SchemaFree(schema)
    case Filter(e, input) => PlanFree(input) && ExprFree(e)
    case Aggregate(groups, aggs, input, schema) =>
      PlanFree(input) && ExprsFree(groups) && ExprsFree(aggs) && SchemaFree(schema)
    case Join(left, right, lk, rk, schema) =>
      PlanFree(left) && PlanFree(right) && ExprsFree(lk) && ExprsFree(rk) && SchemaFree(schema)
  }

  /** What the pass cannot reach carries no catalog: alias relations and subquery plans. */
  predicate ExprOutOfReachFree(e: Expr) {
    match e
    case Col(_) => true
    case Lit(_) => true
    case Binary(l, _, r) => ExprOutOfReachFree(l) && ExprOutOfReachFree(r)
    case Call(_, args) => forall i :: 0 <= i < |args| ==> ExprOutOfReachFree(args[i])
    case Alias(inner, rel, _) => RefFree(rel) && ExprOutOfReachFree(inner)
    case Subquery(p) => PlanFree(p)
  }

  predicate ExprsOutOfReachFree(es: seq<Expr>) { forall i :: 0 <= i < |es| ==> ExprOutOfReachFree(es[i]) }

  predicate OutOfReachFree(p: Plan) {
    match p
    case Scan(_, _, _, filters, _, _) => ExprsOutOfReachFree(filters)
    case SubqueryAlias(input, _, _) => OutOfReachFree(input)
    case Projection(exprs, input, _) => OutOfReachFree(input) && ExprsOutOfReachFree(exprs)
    case Filter(e, input) => OutOfReachFree(input) && ExprOutOfReachFree(e)
    case Aggregate(groups, aggs, input, _) =>
      OutOfReachFree(input) && ExprsOutOfReachFree(groups) && ExprsOutOfReachFree(aggs)
    case Join(left, right, lk, rk, _) =>
      OutOfReachFree(left) && OutOfReachFree(right) && ExprsOutOfReachFree(lk) && ExprsOutOfReachFree(rk)
  }

  lemma {:induction false} StripExprCatalogs(e: Expr, ps: seq<FlatNamePrefix>)
    requires Usable(ps)
    ensures ExprFree(StripExpr(e, ps)) <==> ExprOutOfReachFree(e)
    decreases e
  {
    match e
    case Col(_) =>
    case Lit(_) =>
    case Binary(l, _, r) =>
      StripExprCatalogs(l, ps);
      StripExprCatalogs(r, ps);
    case Call(_, args) => StripExprsCatalogs(args, ps);
    case Alias(inner, _, _) => StripExprCatalogs(inner, ps);
    case Subquery(_) =>
  }

  lemma {:induction false} StripExprsCatalogs(es: seq<Expr>, ps: seq<FlatNamePrefix>)
    requires Usable(ps)
    ensures ExprsFree(StripExprs(es, ps)) <==> ExprsOutOfReachFree(es)
    decreases es, 0
  {
    forall i | 0 <= i < |es| ensures ExprFree(StripExprs(es, ps)[i]) <==> ExprOutOfReachFree(es[i]) {
      StripExprCatalogs(es[i], ps);
    }
    if ExprsFree(StripExprs(es, ps)) {
      forall i | 0 <= i < |es| ensures ExprOutOfReachFree(es[i]) {
        assert ExprFree(StripExprs(es, ps)[i]);
      }
    }
  }

  lemma OutputsFree(es: seq<Expr>)
    requires ExprsFree(es)
    ensures SchemaFree(OutputFields(es))
  {
    forall i | 0 <= i < |es| ensures RefFree(OutputFields(es)[i].qualifier) {
      assert ExprFree(es[i]);
    }
  }

  /** A catalog survives the pass exactly when an alias relation or a subquery plan carried one. */
  lemma {:induction false} StrippedFreeIff(p: Plan, ps: seq<FlatNamePrefix>)
    requires Usable(ps) && WellFormed(p)
    ensures ScansBuildable(p) && (PlanFree(Strip(p, ps)) <==> OutOfReachFree(p))
    ensures PlanFree(Strip(p, ps)) ==> SchemaFree(SchemaOf(Strip(p, ps)))
    decreases p
  {
    WellFormedScans(p);
    match p
    case Scan(_, _, _, filters, _, _) => StripExprsCatalogs(filters, ps);
    case SubqueryAlias(input, _, _) => StrippedFreeIff(input, ps);
    case Projection(exprs, input, _) =>
      StrippedFreeIff(input, ps);
      StripExprsCatalogs(exprs, ps);
      if ExprsOutOfReachFree(exprs) { OutputsFree(StripExprs(exprs, ps)); }
    case Filter(e, input) =>
      StrippedFreeIff(input, ps);
      StripExprCatalogs(e, ps);
    case Aggregate(groups, aggs, input, _) =>
      StrippedFreeIff(input, ps);
      StripExprsCatalogs(groups, ps);
      StripExprsCatalogs(aggs, ps);
      if ExprsOutOfReachFree(groups) && ExprsOutOfReachFree(aggs) {
        OutputsFree(StripExprs(groups, ps));
        OutputsFree(StripExprs(aggs, ps));
      }
    case Join(left, right, lk, rk, _) =>
      StrippedFreeIff(left, ps);
      StrippedFreeIff(right, ps);
      StripExprsCatalogs(lk, ps);
      StripExprsCatalogs(rk, ps);
  }

  // ----- A second pass ------------------------------------------------------------------

  lemma {:induction false} NoCatalogNoPrefixes(ps: seq<FlatNamePrefix>, scans: seq<Plan>)
    requires Usable(ps)
    requires forall i :: 0 <= i < |scans| ==> scans[i].Scan? && !HasCatalog(scans[i].table)
    ensures AddPrefixes(ps, scans) == ps
    decreases |scans|
  {
    if scans != [] { NoCatalogNoPrefixes(ps, scans[1..]); }
  }

  lemma {:induction false} StrippedScansFree(p: Plan, ps: seq<FlatNamePrefix>)
    requires Usable(ps) && ScansBuildable(p)
    ensures forall i :: 0 <= i < |ScanNodes(Strip(p, ps))| ==> !HasCatalog(ScanNodes(Strip(p, ps))[i].table)
    decreases p
  {
    match p
    case Scan(_, _, _, _, _, _) =>
    case SubqueryAlias(input, _, _) => StrippedScansFree(input, ps);
    case Projection(_, input, _) => StrippedScansFree(input, ps);
    case Filter(_, input) => StrippedScansFree(input, ps);
    case Aggregate(_, _, input, _) => StrippedScansFree(input, ps);
    case Join(left, right, _, _, _) =>
      StrippedScansFree(left, ps);
      StrippedScansFree(right, ps);
  }

  lemma {:induction false} StripExprTwice(e: Expr, ps: seq<FlatNamePrefix>)
    requires Usable(ps)
    ensures StripExpr(StripExpr(e, ps), []) == StripExpr(e, ps)
    decreases e
  {
    match e
    case Col(_) =>
    case Lit(_) =>
    case Binary(l, _, r) =>
      StripExprTwice(l, ps);
      StripExprTwice(r, ps);
    case Call(_, args) => StripExprsTwice(args, ps);
    case Alias(inner, _, _) => StripExprTwice(inner, ps);
    case Subquery(_) =>
  }

  lemma {:induction false} StripExprsTwice(es: seq<Expr>, ps: seq<FlatNamePrefix>)
    requires Usable(ps)
    ensures StripExprs(StripExprs(es, ps), []) == StripExprs(es, ps)
    decreases es, 0
  {
    forall i | 0 <= i < |es| ensures StripExprs(StripExprs(es, ps), [])[i] == StripExprs(es, ps)[i] {
      StripExprTwice(es[i], ps);
    }
  }

  lemma {:induction false} StripTwice(p: Plan, ps: seq<FlatNamePrefix>)
    requires Usable(ps) && ScansBuildable(p)
    ensures Strip(Strip(p, ps), []) == Strip(p, ps)
    decreases p
  {
    match p
    case Scan(_, _, _, filters, _, _) => StripExprsTwice(filters, ps);
    case SubqueryAlias(input, _, _) => StripTwice(input, ps);
    case Projection(exprs, input, _) =>
      StripTwice(input, ps);
      StripExprsTwice(exprs, ps);
    case Filter(e, input) =>
      StripTwice(input, ps);
      StripExprTwice(e, ps);
    case Aggregate(groups, aggs, input, _) =>
      StripTwice(input, ps);
      StripExprsTwice(groups, ps);
      StripExprsTwice(aggs, ps);
    case Join(left, right, lk, rk, _) =>
      StripTwice(left, ps);
      StripTwice(right, ps);
      StripExprsTwice(lk, ps);
      StripExprsTwice(rk, ps);
  }

  /** Stripping a stripped plan changes nothing, whatever the plan. */
  lemma StripIdempotent(p: Plan)
    requires ScansBuildable(p)
    ensures StripPlan(StripPlan(p)) == StripPlan(p)
  {
    var ps := Prefixes(p);
    StrippedScansFree(p, ps);
    NoCatalogNoPrefixes([], ScanNodes(StripPlan(p)));
    StripTwice(p, ps);
  }
}

/**
  The pass that collapses a decoded federated plan from three-part to two-part references.
 */
module Stripping {
  import opened Pigeonhole
  import opened FlatNames
  import opened Plans

  // ----- The pass -----------------------------------------------------------------------

  function StripColumn(c: Column, ps: seq<FlatNamePrefix>): Column
    requires Usable(ps)
  {
    Column(ReducedOpt(c.relation), ReducedName(c.name, ps))
  }

  /** Only columns change; a subquery's plan is not entered and an alias keeps its own relation. */
  function StripExpr(e: Expr, ps: seq<FlatNamePrefix>): Expr
    requires Usable(ps)
  {
    match e
    case Col(c) => Col(StripColumn(c, ps))
    case Lit(_) => e
    case Binary(l, op, r) => Binary(StripExpr(l, ps), op, StripExpr(r, ps))
    case Call(f, args) => Call(f, StripExprs(args, ps))
    case Alias(inner, rel, n) => Alias(StripExpr(inner, ps), rel, n)
    case Subquery(_) => e
  }

  function StripExprs(es: seq<Expr>, ps: seq<FlatNamePrefix>): (out: seq<Expr>)
    requires Usable(ps)
    ensures |out| == |es|
    ensures forall i :: 0 <= i < |es| ==> out[i] == StripExpr(es[i], ps)
  {
    if es == [] then [] else [StripExpr(es[0], ps)] + StripExprs(es[1..], ps)
  }

  /**
    Bottom-up: children first, then the node itself is rebuilt with reduced references, its
    expressions are mapped, and its schema is recomputed from the settled children.  A scan
    is the exception: recomputing leaves it alone, so its schema only changes when it is built anew.
   */
  function Strip(p: Plan, ps: seq<FlatNamePrefix>): (out: Plan)
    requires Usable(ps) && ScansBuildable(p)
    ensures ScansBuildable(out)
    decreases p
  {
    match p
    case Scan(t, source, projection, filters, fetch, schema) =>
      var rebuilt := if HasCatalog(t) then NewScan(Reduced(t), source, projection, filters, fetch) else p;
      RecomputeSchema(Scan(rebuilt.table, source, projection, StripExprs(filters, ps), fetch, rebuilt.schema))
    case SubqueryAlias(input, alias, schema) =>
      RecomputeSchema(SubqueryAlias(Strip(input, ps), Reduced(alias), schema))
    case Projection(exprs, input, schema) =>
      RecomputeSchema(Projection(StripExprs(exprs, ps), Strip(input, ps), schema))
    case Filter(e, input) =>
      RecomputeSchema(Filter(StripExpr(e, ps), Strip(input, ps)))
    case Aggregate(groups, aggs, input, schema) =>
      RecomputeSchema(Aggregate(StripExprs(groups, ps), StripExprs(aggs, ps), Strip(input, ps), schema))
    case Join(left, right, lk, rk, schema) =>
      RecomputeSchema(Join(Strip(left, ps), Strip(right, ps), StripExprs(lk, ps), StripExprs(rk, ps), schema))
  }

  /** First occurrences, in order, of the prefixes of the three-part scans. */
  function AddPrefixes(ps: seq<FlatNamePrefix>, scans: seq<Plan>): (out: seq<FlatNamePrefix>)
    requires Usable(ps)
    requires forall i :: 0 <= i < |scans| ==> scans[i].Scan?
    ensures Usable(out)
    decreases |scans|
  {
    if scans == [] then ps else AddPrefixes(AddPrefix(ps, scans[0].table), scans[1..])
  }

  function AddPrefix(ps: seq<FlatNamePrefix>, t: TableRef): (out: seq<FlatNamePrefix>)
    requires Usable(ps)
    ensures Usable(out)
  {
    if HasCatalog(t) && !Covers(ps, PrefixOf(t).from) then ps + [PrefixOf(t)] else ps
  }

  function Prefixes(p: Plan): (ps: seq<FlatNamePrefix>)
    ensures Usable(ps)
  { AddPrefixes([], ScanNodes(p)) }

  function StripPlan(p: Plan): Plan
    requires ScansBuildable(p)
  { Strip(p, Prefixes(p)) }

  predicate Covers(prefixes: seq<FlatNamePrefix>, from: string) {
    exists i :: 0 <= i < |prefixes| && prefixes[i].from == from
  }

  function Paths(ps: seq<FlatNamePrefix>): seq<string> { seq(|ps|, i requires 0 <= i < |ps| => ps[i].from) }

  /** Adding a table's prefix keeps what was covered and covers that table, without repetition. */
  lemma AddPrefixCovers(ps: seq<FlatNamePrefix>, t: TableRef)
    requires Usable(ps) && Distinct(Paths(ps))
    ensures Distinct(Paths(AddPrefix(ps, t)))
    ensures HasCatalog(t) ==> Covers(AddPrefix(ps, t), PrefixOf(t).from)
    ensures forall from :: Covers(ps, from) ==> Covers(AddPrefix(ps, t), from)
  {
    var out := AddPrefix(ps, t);
    if |out| > |ps| {
      assert Paths(out) == Paths(ps) + [PrefixOf(t).from];
      forall i | 0 <= i < |ps| ensures Paths(ps)[i] != PrefixOf(t).from { assert ps[i].from != PrefixOf(t).from; }
      assert out[|ps|] == PrefixOf(t);
    }
    forall from | Covers(ps, from) ensures Covers(out, from) {
      var i :| 0 <= i < |ps| && ps[i].from == from;
      assert out[i] == ps[i];
    }
  }

  /** The first `k` scans have their prefixes. */
  ghost predicate CoversScans(ps: seq<FlatNamePrefix>, scans: seq<Plan>, k: nat)
    requires k <= |scans| && forall i :: 0 <= i < |scans| ==> scans[i].Scan?
  {
    forall m :: 0 <= m < k && HasCatalog(scans[m].table) ==> Covers(ps, PrefixOf(scans[m].table).from)
  }

  lemma CoversNext(ps: seq<FlatNamePrefix>, scans: seq<Plan>, k: nat)
    requires Usable(ps) && Distinct(Paths(ps)) && k < |scans|
    requires forall i :: 0 <= i < |scans| ==> scans[i].Scan?
    requires CoversScans(ps, scans, k)
    ensures var next := AddPrefix(ps, scans[k].table);
            && Distinct(Paths(next)) && CoversScans(next, scans, k + 1)
            && AddPrefixes(ps, scans[k..]) == AddPrefixes(next, scans[k + 1..])
  {
    AddPrefixCovers(ps, scans[k].table);
    assert scans[k..][0] == scans[k] && scans[k..][1..] == scans[k + 1..];
  }

  method CollectFlatNamePrefixes(p: Plan) returns (prefixes: seq<FlatNamePrefix>)
    ensures prefixes == Prefixes(p) && Distinct(Paths(prefixes))
    ensures forall k :: 0 <= k < |ScanNodes(p)| && HasCatalog(ScanNodes(p)[k].table) ==>
              Covers(prefixes, PrefixOf(ScanNodes(p)[k].table).from)
  {
    var scans := ScanNodes(p);
    prefixes := [];
    assert scans[0..] == scans;
    for k := 0 to |scans|
      invariant Usable(prefixes) && Distinct(Paths(prefixes))
      invariant AddPrefixes(prefixes, scans[k..]) == Prefixes(p)
      invariant CoversScans(prefixes, scans, k)
    {
      CoversNext(prefixes, scans, k);
      var reduced := ReduceRef(scans[k].table);
      if reduced.Some? {
        var prefix := PrefixOf(scans[k].table);
        if !Covers(prefixes, prefix.from) { prefixes := prefixes + [prefix]; }
      }
    }
  }

  // ----- Rewriting commutes with rendering ----------------------------------------------

  /** A plain name embeds no prefix, and a qualifier is the only place one occurs. */
  ghost predicate ColumnRenderClean(c: Column, ps: seq<FlatNamePrefix>) {
    && (IsExpressionName(c.name) || NoneOccurs(c.name, ps))
    && (c.relation.Some? ==> QualifierOnly(c.relation.value, HeadWord(c.name), ps))
  }

  /** Prefixes occur in the rendering of `e` only where a qualifier was rendered. */
  ghost predicate RenderClean(e: Expr, ps: seq<FlatNamePrefix>) {
    match e
    case Col(c) => ColumnRenderClean(c, ps)
    case Lit(t) => NoneOccurs(t, ps)
    case Binary(l, op, r) => RenderClean(l, ps) && NoneOccurs(op, ps) && RenderClean(r, ps)
    case Call(f, args) => NoneOccurs(f, ps) && forall i :: 0 <= i < |args| ==> RenderClean(args[i], ps)
    case Alias(_, _, n) => NoneOccurs(n, ps)
    case Subquery(_) => true
  }

  /** Every prefix carries the trailing dot of a qualifier. */
  ghost predicate Dotted(ps: seq<FlatNamePrefix>) {
    forall i :: 0 <= i < |ps| ==> '.' in ps[i].from
  }

  lemma {:induction false} OccursInSuffix(a: string, b: string, sub: string)
    requires Occurs(b, sub)
    ensures Occurs(a + b, sub)
  {
    if a == [] {
      assert a + b == b;
    } else {
      OccursInSuffix(a[1..], b, sub);
      assert (a + b)[1..] == a[1..] + b;
    }
  }

  lemma HeadWordClean(r: TableRef, word: string, ps: seq<FlatNamePrefix>)
    requires QualifierOnly(r, word, ps)
    ensures NoneOccurs(word, ps)
  {
    if HasCatalog(r) {
      var k :| 0 <= k < |ps| && MatchesFirst(r, word, ps, k);
      SuffixClean(ShowRef(r) + ".", word, ps[..k]);
      SuffixClean(ShowRef(Reduced(r)) + ".", word, ps[k + 1..]);
      CleanAround(word, ps, k);
    } else {
      SuffixClean(ShowRef(r) + ".", word, ps);
    }
  }

  lemma CleanAround(word: string, ps: seq<FlatNamePrefix>, k: nat)
    requires k < |ps| && NoneOccurs(word, ps[..k]) && !Occurs(word, ps[k].from) && NoneOccurs(word, ps[k + 1..])
    ensures NoneOccurs(word, ps)
  {
    forall i | 0 <= i < |ps| ensures !Occurs(word, ps[i].from) {
      if i < k { assert ps[..k][i] == ps[i]; } else if i > k { assert ps[k + 1..][i - k - 1] == ps[i]; }
    }
  }

  lemma SuffixClean(a: string, b: string, ps: seq<FlatNamePrefix>)
    requires NoneOccurs(a + b, ps)
    ensures NoneOccurs(b, ps)
  {
    forall i | 0 <= i < |ps| ensures !Occurs(b, ps[i].from) {
      if Occurs(b, ps[i].from) { OccursInSuffix(a, b, ps[i].from); }
    }
  }

  lemma RewriteSeam(q: string, q': string, h: string, d: char, t: string, ps: seq<FlatNamePrefix>)
    requires Usable(ps) && DelimiterFree(ps) && IsDelimiter(d)
    requires RewriteAll(q + h, ps) == q' + h && RewriteAll(h, ps) == h
    ensures RewriteAll(q + (h + [d] + t), ps) == q' + RewriteAll(h + [d] + t, ps)
  {
    RewriteAcross(h, d, t, ps);
    RewriteAcross(q + h, d, t, ps);
    Reassociate(q, h, [d], t);
    Reassociate(q', h, [d], RewriteAll(t, ps));
  }

  lemma RewriteQualifiedName(r: TableRef, n: string, ps: seq<FlatNamePrefix>)
    requires Usable(ps) && DelimiterFree(ps) && QualifierOnly(r, HeadWord(n), ps)
    ensures RewriteAll(ShowRef(r) + "." + n, ps) == ShowRef(Reduced(r)) + "." + RewriteAll(n, ps)
  {
    var h := HeadWord(n);
    HeadWordEnds(n);
    HeadWordClean(r, h, ps);
    RewriteQualified(r, h, ps);
    RewriteAbsent(h, ps);
    if |h| == |n| {
      assert h == n;
    } else {
      var d, t := n[|h|], n[|h| + 1..];
      RewriteSeam(ShowRef(r) + ".", ShowRef(Reduced(r)) + ".", h, d, t, ps);
      SplitAt(n, h, d, t);
    }
  }

  lemma SplitAt(n: string, h: string, d: char, t: string)
    requires h <= n && |h| < |n| && d == n[|h|] && t == n[|h| + 1..]
    ensures n == h + [d] + t
  {}

  lemma FlatNameRewrite(c: Column, ps: seq<FlatNamePrefix>)
    requires Usable(ps) && DelimiterFree(ps) && ColumnRenderClean(c, ps)
    ensures RewriteAll(FlatName(c), ps) == FlatName(StripColumn(c, ps))
  {
    if !IsExpressionName(c.name) { RewriteAbsent(c.name, ps); }
    if c.relation.Some? { RewriteQualifiedName(c.relation.value, c.name, ps); }
  }

  lemma RewriteBinary(l: string, op: string, r: string, ps: seq<FlatNamePrefix>)
    requires Usable(ps) && DelimiterFree(ps) && NoneOccurs(op, ps)
    ensures RewriteAll(l + " " + op + " " + r, ps) == RewriteAll(l, ps) + " " + op + " " + RewriteAll(r, ps)
  {
    RewriteAbsent(op, ps);
    RewriteAcross(l + " " + op, ' ', r, ps);
    RewriteAcross(l, ' ', op, ps);
  }

  lemma RewriteCall(f: string, args: string, ps: seq<FlatNamePrefix>)
    requires Usable(ps) && DelimiterFree(ps) && NoneOccurs(f, ps)
    ensures RewriteAll(f + "(" + args + ")", ps) == f + "(" + RewriteAll(args, ps) + ")"
  {
    RewriteAbsent(f, ps);
    RewriteAbsentEmpty(ps);
    RewriteAcross(f, '(', args, ps);
    RewriteAcross(f + "(" + args, ')', "", ps);
    assert f + "(" + args + ")" == f + "(" + args + [')'] + "";
  }

  /** The text of a rewritten expression is the rewritten text, at any depth and for any prefixes. */
  lemma {:induction false} RenderRewrites(e: Expr, ps: seq<FlatNamePrefix>)
    requires Usable(ps) && DelimiterFree(ps) && Dotted(ps) && RenderClean(e, ps)
    ensures RewriteAll(Render(e), ps) == Render(StripExpr(e, ps))
    decreases e
  {
    match e
    case Col(c) => FlatNameRewrite(c, ps);
    case Lit(t) => RewriteAbsent(t, ps);
    case Binary(l, op, r) =>
      RenderRewrites(l, ps);
      RenderRewrites(r, ps);
      RewriteBinary(Render(l), op, Render(r), ps);
    case Call(f, args) =>
      RenderArgsRewrites(args, ps);
      RewriteCall(f, RenderArgs(args), ps);
    case Alias(_, _, n) => RewriteAbsent(n, ps);
    case Subquery(_) => RewriteSubqueryText(ps);
  }

  lemma RewriteSubqueryText(ps: seq<FlatNamePrefix>)
    requires Usable(ps) && Dotted(ps)
    ensures RewriteAll("(<subquery>)", ps) == "(<subquery>)"
  {
    forall i | 0 <= i < |ps| ensures !Occurs("(<subquery>)", ps[i].from) {
      MissingCharNoOccurrence("(<subquery>)", ps[i].from, '.');
    }
    RewriteAbsent("(<subquery>)", ps);
  }

  lemma RewriteAbsentEmpty(ps: seq<FlatNamePrefix>)
    requires Usable(ps)
    ensures RewriteAll("", ps) == ""
  {
    RewriteAbsent("", ps);
  }

  lemma {:induction false} RenderArgsRewrites(args: seq<Expr>, ps: seq<FlatNamePrefix>)
    requires Usable(ps) && DelimiterFree(ps) && Dotted(ps)
    requires forall i :: 0 <= i < |args| ==> RenderClean(args[i], ps)
    ensures RewriteAll(RenderArgs(args), ps) == RenderArgs(StripExprs(args, ps))
    decreases args
  {
    if args == [] {
      RewriteAbsentEmpty(ps);
    } else {
      RenderRewrites(args[0], ps);
      RenderArgsRewrites(args[1..], ps);
      assert StripExprs(args, ps)[1..] == StripExprs(args[1..], ps);
      if |args| > 1 {
        RewriteAcross(Render(args[0]), ',', RenderArgs(args[1..]), ps);
      }
    }
  }
}

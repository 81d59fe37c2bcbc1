/** Where the substring rewrite stops being a rename. */
module StripLimits {
  import opened Options
  import opened FlatNames
  import opened Plans
  import opened Stripping
  import opened PlanMeaning
  import opened StripPass

  /** Dropping a catalog makes the text shorter. */
  ghost predicate Shortening(ps: seq<FlatNamePrefix>) {
    forall i :: 0 <= i < |ps| ==> |ps[i].to| < |ps[i].from|
  }

  lemma {:induction false} ReplaceShrinks(s: string, from: string, to: string)
    requires from != [] && |to| < |from|
    ensures |ReplaceAll(s, from, to)| <= |s|
    ensures Occurs(s, from) ==> |ReplaceAll(s, from, to)| < |s|
    decreases |s|
  {
    if from <= s {
      ReplaceShrinks(s[|from|..], from, to);
    } else if s != [] {
      ReplaceShrinks(s[1..], from, to);
    }
  }

  /** A rewrite changes a name exactly when some prefix occurs in it. */
  lemma {:induction false} RewriteChangesIff(s: string, ps: seq<FlatNamePrefix>)
    requires Usable(ps) && Shortening(ps)
    ensures |RewriteAll(s, ps)| <= |s|
    ensures RewriteAll(s, ps) == s <==> NoneOccurs(s, ps)
    decreases |ps|
  {
    if NoneOccurs(s, ps) { RewriteAbsent(s, ps); }
    if ps != [] {
      var s' := ReplaceAll(s, ps[0].from, ps[0].to);
      ReplaceShrinks(s, ps[0].from, ps[0].to);
      RewriteChangesIff(s', ps[1..]);
      if RewriteAll(s, ps) == s {
        assert !Occurs(s, ps[0].from);
        ReplaceAbsent(s, ps[0].from, ps[0].to);
        forall i | 0 <= i < |ps| ensures !Occurs(s, ps[i].from) {
          if i > 0 { assert ps[1..][i - 1] == ps[i]; }
        }
      }
    }
  }

  /**
    The guard that protects a user column named like a table path, `name`, is what breaks a
    function over it: the flattened name is rewritten, the column inside is not.  The two
    agree exactly when no scanned prefix occurs in the column's name.
   */
  lemma PlainColumnInCallIff(f: string, name: string, ps: seq<FlatNamePrefix>)
    requires Usable(ps) && DelimiterFree(ps) && Shortening(ps)
    requires NoneOccurs(f, ps) && !IsExpressionName(name)
    ensures var e := Call(f, [Col(Column(None, name))]);
            RewriteAll(Render(e), ps) == Render(StripExpr(e, ps)) <==> NoneOccurs(name, ps)
  {
    var e := Call(f, [Col(Column(None, name))]);
    assert StripExpr(e, ps) == e;
    assert RenderArgs(e.args) == name;
    RewriteCall(f, name, ps);
    RewriteChangesIff(name, ps);
    if RewriteAll(Render(e), ps) == Render(e) {
      EqualCores(f + "(", RewriteAll(name, ps), name, ")");
    }
  }

  lemma EqualCores(a: string, b: string, c: string, d: string)
    requires a + b + d == a + c + d
    ensures b == c
  {
    var x := a + b + d;
    assert |b| == |c|;
    assert b == x[|a|..|a| + |b|];
    assert c == (a + c + d)[|a|..|a| + |c|];
  }

  // ----- A projection over an aggregate -------------------------------------------------

  /** A projection that names the field an aggregate computes. */
  function OverAggregate(below: Plan, call: Expr): Plan {
    var agg := RecomputeSchema(Aggregate([], [call], below, []));
    RecomputeSchema(Projection([Col(Column(None, Render(call)))], agg, []))
  }

  lemma OverAggregateScans(below: Plan, call: Expr)
    ensures ScanNodes(OverAggregate(below, call)) == ScanNodes(below)
  {
    var p := OverAggregate(below, call);
    assert ScanNodes(p) == ScanNodes(p.input);
  }

  lemma ResolveSingle(c: Column, f: Field)
    ensures Resolve(c, [f]) == if Matches(c, f) then Some(0) else None
  {
    assert [f][1..] == [];
  }

  lemma OnePosition(e: Expr, schema: seq<Field>)
    ensures PositionsOf([e], schema) == Positions(e, schema)
  {
    assert [e][1..] == [];
  }

  lemma OneArgument(f: string, c: Column, schema: seq<Field>)
    ensures Positions(Call(f, [Col(c)]), schema) == [Resolve(c, schema)]
  {
    OnePosition(Col(c), schema);
  }

  /** The columns of such a plan: those below, those of the call, and the name of its field. */
  lemma OverAggregatePositions(p: Plan, below: Plan, call: Expr, top: string)
    requires p.Projection? && p.exprs == [Col(Column(None, top))]
    requires p.input.Aggregate? && call.Call?
    requires p.input == RecomputeSchema(Aggregate([], [call], below, p.input.schema))
    ensures PlanPositions(p) ==
            PlanPositions(below) + Positions(call, SchemaOf(below)) + [if top == Render(call) then Some(0) else None]
  {
    var agg := p.input;
    assert SchemaOf(agg) == [Field(None, Render(call))];
    ResolveSingle(Column(None, top), SchemaOf(agg)[0]);
    OnePosition(call, SchemaOf(below));
    OnePosition(Col(Column(None, top)), SchemaOf(agg));
    assert PlanPositions(agg) == PlanPositions(below) + Positions(call, SchemaOf(below));
  }

  lemma OverAggregateResolves(below: Plan, call: Expr)
    requires WellFormed(below) && WellResolved(below) && call.Call? && None !in Positions(call, SchemaOf(below))
    ensures var p := OverAggregate(below, call); WellFormed(p) && WellResolved(p) && ScansBuildable(p)
  {
    var p := OverAggregate(below, call);
    WellFormedScans(below);
    OverAggregatePositions(p, below, call, Render(call));
  }

  /** Such a plan can be built over any plan that can. */
  lemma OverAggregateBuilds(below: Plan, call: Expr)
    requires Builds(below) && call.Call? && None !in Positions(call, SchemaOf(below))
    ensures Builds(OverAggregate(below, call))
  {
    var p := OverAggregate(below, call);
    OnePosition(call, SchemaOf(below));
    OneFieldFinds(Render(call), Render(call));
    assert SchemaOf(p.input) == [Field(None, Render(call))] && SchemaOf(p) == [Field(None, Render(call))];
  }

  lemma OneFieldFinds(top: string, name: string)
    ensures Finds([Col(Column(None, top))], [Field(None, name)]) <==> top == name
    ensures DistinctFields([Field(None, name)]) && DistinctFields([Field(None, top)])
  {
    OnePosition(Col(Column(None, top)), [Field(None, name)]);
    ResolveSingle(Column(None, top), Field(None, name));
  }

  lemma OverAggregateStripped(below: Plan, call: Expr, ps: seq<FlatNamePrefix>)
    requires Usable(ps) && ScansBuildable(below) && call.Call?
    ensures var p := OverAggregate(below, call); var call' := StripExpr(call, ps);
            && ScansBuildable(p)
            && var p' := Strip(p, ps);
               && p'.Projection? && p'.exprs == [Col(Column(None, ReducedName(Render(call), ps)))]
               && p'.input.Aggregate?
               && p'.input == RecomputeSchema(Aggregate([], [call'], Strip(below, ps), p'.input.schema))
  {
    var p := OverAggregate(below, call);
    assert StripExprs([call], ps) == [StripExpr(call, ps)];
    assert StripExprs(p.exprs, ps) == [StripExpr(p.exprs[0], ps)];
    assert Strip(p.input, ps) ==
           RecomputeSchema(Aggregate([], [StripExpr(call, ps)], Strip(below, ps), p.input.schema));
  }

  /**
    For every plan below and every call: after stripping, the projection still finds the
    field of the aggregate if and only if rewriting the call's text gives the text of the
    rewritten call.
   */
  lemma OverAggregateResolvesIff(below: Plan, call: Expr, ps: seq<FlatNamePrefix>)
    requires Usable(ps) && ScansBuildable(below) && call.Call?
    ensures var p := OverAggregate(below, call); var below' := Strip(below, ps);
            && ScansBuildable(p)
            && (WellResolved(Strip(p, ps)) <==>
                && WellResolved(below') && None !in Positions(StripExpr(call, ps), SchemaOf(below'))
                && RewriteAll(Render(call), ps) == Render(StripExpr(call, ps)))
  {
    OverAggregateStripped(below, call, ps);
    var p' := Strip(OverAggregate(below, call), ps);
    OverAggregatePositions(p', Strip(below, ps), StripExpr(call, ps), ReducedName(Render(call), ps));
    assert Render(call)[|call.fn|] == '(';
  }

  /** The same condition decides whether the pass succeeds. */
  lemma OverAggregateSucceedsIff(below: Plan, call: Expr, ps: seq<FlatNamePrefix>)
    requires Usable(ps) && ScansBuildable(below) && call.Call?
    ensures var p := OverAggregate(below, call); var below' := Strip(below, ps);
            && ScansBuildable(p)
            && (Succeeds(p, ps) <==>
                && Succeeds(below, ps) && None !in Positions(StripExpr(call, ps), SchemaOf(below'))
                && RewriteAll(Render(call), ps) == Render(StripExpr(call, ps)))
  {
    OverAggregateStripped(below, call, ps);
    var p := OverAggregate(below, call);
    var p', call' := Strip(p, ps), StripExpr(call, ps);
    assert Render(call)[|call.fn|] == '(';
    var top := RewriteAll(Render(call), ps);
    assert SchemaOf(p'.input) == [Field(None, Render(call'))] && SchemaOf(p') == [Field(None, top)];
    OneFieldFinds(top, Render(call'));
    OnePosition(call', SchemaOf(Strip(below, ps)));
    assert p'.input == Strip(p.input, ps);
  }

  lemma StripCall(f: string, c: Column, ps: seq<FlatNamePrefix>)
    requires Usable(ps)
    ensures StripExpr(Call(f, [Col(c)]), ps) == Call(f, [Col(StripColumn(c, ps))])
    ensures Render(Call(f, [Col(c)])) == f + "(" + FlatName(c) + ")"
    ensures Render(StripExpr(Call(f, [Col(c)]), ps)) == f + "(" + FlatName(StripColumn(c, ps)) + ")"
  {
    var c' := StripColumn(c, ps);
    assert StripExprs([Col(c)], ps) == [Col(c')];
    assert RenderArgs([Col(c)]) == FlatName(c) && RenderArgs([Col(c')]) == FlatName(c');
  }

  // ----- A function over a plainly named column -----------------------------------------

  function ScanOf(t: TableRef, data: nat, name: string): Plan {
    NewScan(t, Source(data, [name], NativeProvider(data)), None, [], None)
  }

  /** A projection of `f(name)` over the aggregate that computes it, over a scan of `t`. */
  function CallOverColumnPlan(t: TableRef, f: string, name: string): Plan {
    OverAggregate(ScanOf(t, 0, name), Call(f, [Col(Column(None, name))]))
  }

  lemma StrippedScanOf(t: TableRef, data: nat, name: string, ps: seq<FlatNamePrefix>)
    requires Usable(ps)
    ensures var scan := ScanOf(t, data, name);
            && WellFormed(scan) && WellResolved(scan) && ScansBuildable(scan)
            && SchemaOf(scan) == [Field(Some(t), name)]
            && Strip(scan, ps) == ScanOf(Reduced(t), data, name)
            && Builds(scan) && Succeeds(scan, ps)
  {
    assert StripExprs([], ps) == [];
  }

  /**
    Such a plan always resolves; after stripping it still does, and the pass succeeds at
    all, exactly when the scanned table's prefix does not occur in the flattened name of
    the call.
   */
  lemma CallOverColumnKeepsFieldIff(t: TableRef, f: string, name: string)
    requires HasCatalog(t) && !IsExpressionName(name)
    ensures var p := CallOverColumnPlan(t, f, name);
            && WellFormed(p) && WellResolved(p) && Builds(p) && ScansBuildable(p)
            && (WellResolved(StripPlan(p)) <==> !Occurs(f + "(" + name + ")", PrefixOf(t).from))
            && (TryStrip(p).Some? <==> !Occurs(f + "(" + name + ")", PrefixOf(t).from))
  {
    var scan, ps, col := ScanOf(t, 0, name), [PrefixOf(t)], Column(None, name);
    var call := Call(f, [Col(col)]);
    StrippedScanOf(t, 0, name, ps);
    StrippedScanOf(Reduced(t), 0, name, ps);
    OneArgument(f, col, [Field(Some(t), name)]);
    OneArgument(f, col, [Field(Some(Reduced(t)), name)]);
    ResolveSingle(col, Field(Some(t), name));
    ResolveSingle(col, Field(Some(Reduced(t)), name));
    OverAggregateResolves(scan, call);
    OverAggregateBuilds(scan, call);
    OnlyPrefix(t, f, name);
    StripCall(f, col, ps);
    OverAggregateResolvesIff(scan, call, ps);
    OverAggregateSucceedsIff(scan, call, ps);
    RewriteChangesIff(f + "(" + name + ")", ps);
    assert NoneOccurs(f + "(" + name + ")", ps) <==> !Occurs(f + "(" + name + ")", ps[0].from);
  }

  lemma OnlyPrefix(t: TableRef, f: string, name: string)
    requires HasCatalog(t)
    ensures Prefixes(CallOverColumnPlan(t, f, name)) == [PrefixOf(t)]
  {
    var scan := ScanOf(t, 0, name);
    OverAggregateScans(scan, Call(f, [Col(Column(None, name))]));
    FirstPrefix(scan);
  }

  lemma FirstPrefix(scan: Plan)
    requires scan.Scan? && HasCatalog(scan.table)
    ensures AddPrefix([], scan.table) == [PrefixOf(scan.table)]
    ensures AddPrefixes([], [scan]) == [PrefixOf(scan.table)]
  {
    var none: seq<FlatNamePrefix> := [];
    assert !Covers(none, PrefixOf(scan.table).from);
    assert none + [PrefixOf(scan.table)] == [PrefixOf(scan.table)];
    assert [scan][1..] == [];
  }

  /**
    A path with a delimiter in it matches across the seam of a rendered call: the prefix
    occurs neither in the function's name nor in the column's, and the field is lost.
   */
  lemma DelimiterInPathLosesField(c: string, s: string, u: string, w: string)
    requires !IsExpressionName("." + w)
    ensures var t, f := Full(c, s, u + "("), c + "." + s + "." + u;
            var p := CallOverColumnPlan(t, f, "." + w);
            && !Occurs(f, PrefixOf(t).from) && !Occurs("." + w, PrefixOf(t).from)
            && WellFormed(p) && WellResolved(p) && Builds(p) && ScansBuildable(p)
            && !WellResolved(StripPlan(p)) && TryStrip(p).None?
  {
    var t, f := Full(c, s, u + "("), c + "." + s + "." + u;
    var from := PrefixOf(t).from;
    AcrossSeam(c, s, u, w);
    CallOverColumnKeepsFieldIff(t, f, "." + w);
    MissingCharNoOccurrence("." + w, from, '(');
    LongerNoOccurrence(f, from);
  }

  /** The path is the function's name, the parenthesis, and the dot the column's name starts with. */
  lemma AcrossSeam(c: string, s: string, u: string, w: string)
    ensures var f, from := c + "." + s + "." + u, PrefixOf(Full(c, s, u + "(")).from;
            && from == f + "(" + "." && '(' in from && |f| < |from|
            && Occurs(f + "(" + ("." + w) + ")", from)
  {
    var f, from := c + "." + s + "." + u, PrefixOf(Full(c, s, u + "(")).from;
    assert from == f + "(" + ".";
    assert from[|f|] == '(';
    assert f + "(" + ("." + w) + ")" == from + (w + ")");
  }

  lemma {:induction false} LongerNoOccurrence(s: string, sub: string)
    requires |s| < |sub|
    ensures !Occurs(s, sub)
  {
    if s != [] { LongerNoOccurrence(s[1..], sub); }
  }

  // ----- A join of two tables -----------------------------------------------------------

  /** Column `x` of `a` beside column `y` of `b`. */
  function JoinOfTwo(a: TableRef, x: string, b: TableRef, y: string): Plan {
    RecomputeSchema(Join(ScanOf(a, 0, x), ScanOf(b, 1, y), [], [], []))
  }

  lemma ResolvePair(c: Column, f: Field, g: Field)
    ensures Resolve(c, [f, g]) == if Matches(c, f) then Some(0) else if Matches(c, g) then Some(1) else None
  {
    assert [f, g][1..] == [g];
    ResolveSingle(c, g);
  }

  lemma JoinOfTwoStripped(a: TableRef, x: string, b: TableRef, y: string, ps: seq<FlatNamePrefix>)
    requires Usable(ps) && !IsExpressionName(y)
    ensures var p := JoinOfTwo(a, x, b, y);
            && ScansBuildable(p) && Strip(p, ps) == JoinOfTwo(Reduced(a), x, Reduced(b), y)
            && WellResolved(Strip(p, ps))
            && Resolve(StripColumn(Column(Some(b), y), ps), SchemaOf(Strip(p, ps))).Some?
            && (Succeeds(p, ps) <==> x != y || Reduced(a) != Reduced(b))
  {
    StrippedJoinOfTwo(a, x, b, y, ps);
    JoinOfTwoResolves(Reduced(a), x, Reduced(b), y);
  }

  lemma StrippedJoinOfTwo(a: TableRef, x: string, b: TableRef, y: string, ps: seq<FlatNamePrefix>)
    requires Usable(ps)
    ensures var p := JoinOfTwo(a, x, b, y);
            && ScansBuildable(p) && Strip(p, ps) == JoinOfTwo(Reduced(a), x, Reduced(b), y)
            && (Succeeds(p, ps) <==> x != y || Reduced(a) != Reduced(b))
  {
    StrippedScanOf(a, 0, x, ps);
    StrippedScanOf(b, 1, y, ps);
    assert StripExprs([], ps) == [];
    JoinOfTwoShape(Reduced(a), x, Reduced(b), y);
    PairDistinctIff(Reduced(a), x, Reduced(b), y);
  }

  lemma PairDistinctIff(a: TableRef, x: string, b: TableRef, y: string)
    ensures DistinctFields([Field(Some(a), x), Field(Some(b), y)]) <==> x != y || a != b
  {
    var fields := [Field(Some(a), x), Field(Some(b), y)];
    assert fields[0] != fields[1] <==> x != y || a != b;
  }

  lemma JoinOfTwoResolves(a: TableRef, x: string, b: TableRef, y: string)
    ensures var p := JoinOfTwo(a, x, b, y);
            && WellFormed(p) && WellResolved(p) && ScansBuildable(p)
            && (Builds(p) <==> x != y || a != b)
            && SchemaOf(p) == [Field(Some(a), x), Field(Some(b), y)]
            && Resolve(Column(Some(b), y), SchemaOf(p)) == Some(if x == y && ResolvedEq(b, a) then 0 else 1)
  {
    JoinOfTwoShape(a, x, b, y);
    JoinOfTwoBuilds(a, x, b, y);
    ResolvePair(Column(Some(b), y), Field(Some(a), x), Field(Some(b), y));
  }

  lemma JoinOfTwoShape(a: TableRef, x: string, b: TableRef, y: string)
    ensures var p := JoinOfTwo(a, x, b, y);
            && WellFormed(p) && WellResolved(p) && ScansBuildable(p)
            && SchemaOf(p) == [Field(Some(a), x), Field(Some(b), y)]
  {
    StrippedScanOf(a, 0, x, []);
    StrippedScanOf(b, 1, y, []);
  }

  lemma JoinOfTwoBuilds(a: TableRef, x: string, b: TableRef, y: string)
    ensures Builds(JoinOfTwo(a, x, b, y)) <==> x != y || a != b
  {
    StrippedScanOf(a, 0, x, []);
    StrippedScanOf(b, 1, y, []);
    JoinOfTwoShape(a, x, b, y);
    PairDistinctIff(a, x, b, y);
  }

  lemma JoinPrefixes(a: TableRef, x: string, b: TableRef, y: string)
    requires HasCatalog(a) && HasCatalog(b) && PrefixOf(a).from != PrefixOf(b).from
    ensures AddPrefixes([], [ScanOf(a, 0, x), ScanOf(b, 1, y)]) == [PrefixOf(a), PrefixOf(b)]
  {
    var l, r := ScanOf(a, 0, x), ScanOf(b, 1, y);
    FirstPrefix(l);
    var first := [PrefixOf(a)];
    assert first[0].from != PrefixOf(b).from;
    assert AddPrefix(first, b) == first + [PrefixOf(b)];
    assert [l, r][1..] == [r] && [r][1..] == [];
    assert AddPrefixes(first, [r]) == first + [PrefixOf(b)];
  }

  lemma JoinScans(a: TableRef, x: string, b: TableRef, y: string)
    ensures ScanNodes(JoinOfTwo(a, x, b, y)) == [ScanOf(a, 0, x), ScanOf(b, 1, y)]
  {
    assert ScanNodes(ScanOf(a, 0, x)) == [ScanOf(a, 0, x)];
    assert ScanNodes(ScanOf(b, 1, y)) == [ScanOf(b, 1, y)];
  }

  lemma CallOverJoinPrefixes(a: TableRef, x: string, b: TableRef, y: string, call: Expr)
    requires HasCatalog(a) && HasCatalog(b) && PrefixOf(a).from != PrefixOf(b).from
    ensures Prefixes(OverAggregate(JoinOfTwo(a, x, b, y), call)) == [PrefixOf(a), PrefixOf(b)]
  {
    OverAggregateScans(JoinOfTwo(a, x, b, y), call);
    JoinScans(a, x, b, y);
    JoinPrefixes(a, x, b, y);
  }

  // ----- Merging two tables -------------------------------------------------------------

  /** The column `name` of `b`, read from the join of `a` and `b`, which both have it. */
  function ColumnOfJoin(a: TableRef, b: TableRef, name: string): Plan {
    RecomputeSchema(Projection([Col(Column(Some(b), name))], JoinOfTwo(a, name, b, name), []))
  }

  lemma {:induction false} KeepAll(rows: seq<Row>, schema: seq<Field>, m: Meaning)
    ensures Keep(rows, [], schema, m) == rows
  {
    if rows != [] { KeepAll(rows[1..], schema, m); }
  }

  lemma {:induction false} MapNothing(rows: seq<Row>, schema: seq<Field>, other: seq<Field>, m: Meaning)
    ensures MapRows(rows, [], schema, m) == MapRows(rows, [], other, m)
  {
    if rows != [] { MapNothing(rows[1..], schema, other, m); }
  }

  /** The rows of the join do not depend on the names. */
  lemma JoinOfTwoRows(a: TableRef, b: TableRef, a': TableRef, b': TableRef, name: string, db: Database, m: Meaning)
    ensures Eval(JoinOfTwo(a, name, b, name), db, m) == Eval(JoinOfTwo(a', name, b', name), db, m)
  {
    KeepAll(db(0), SourceSchema(a, ScanOf(a, 0, name).source), m);
    KeepAll(db(0), SourceSchema(a', ScanOf(a, 0, name).source), m);
    KeepAll(db(1), SourceSchema(b, ScanOf(b, 1, name).source), m);
    KeepAll(db(1), SourceSchema(b', ScanOf(b, 1, name).source), m);
    MapNothing(db(0), SchemaOf(ScanOf(a, 0, name)), SchemaOf(ScanOf(a', 0, name)), m);
    MapNothing(db(1), SchemaOf(ScanOf(b, 1, name)), SchemaOf(ScanOf(b', 1, name)), m);
  }

  lemma {:induction false} MapSamePosition(rows: seq<Row>, c: Column, schema: seq<Field>, c': Column,
                                           schema': seq<Field>, m: Meaning)
    requires Resolve(c, schema) == Resolve(c', schema')
    ensures MapRows(rows, [Col(c)], schema, m) == MapRows(rows, [Col(c')], schema', m)
  {
    if rows != [] {
      MapSamePosition(rows[1..], c, schema, c', schema', m);
      assert [Col(c)][1..] == [] && [Col(c')][1..] == [];
      assert EvalRow([Col(c)], schema, rows[0], m) == [EvalExpr(Col(c), schema, rows[0], m)];
      assert EvalRow([Col(c')], schema', rows[0], m) == [EvalExpr(Col(c'), schema', rows[0], m)];
    }
  }

  lemma ColumnOfJoinStripped(a: TableRef, b: TableRef, name: string, ps: seq<FlatNamePrefix>)
    requires Usable(ps) && !IsExpressionName(name)
    ensures var p := ColumnOfJoin(a, b, name);
            && ScansBuildable(p) && Strip(p, ps) == ColumnOfJoin(Reduced(a), Reduced(b), name)
            && (Succeeds(p, ps) <==> Reduced(a) != Reduced(b))
  {
    StrippedJoinOfTwo(a, name, b, name, ps);
    var p := ColumnOfJoin(a, b, name);
    assert StripExprs(p.exprs, ps) == [Col(Column(Some(Reduced(b)), name))];
    ColumnOfJoinBuilds(Reduced(a), Reduced(b), name);
  }

  lemma ColumnOfJoinBuilds(a: TableRef, b: TableRef, name: string)
    ensures var p := ColumnOfJoin(a, b, name);
            WellFormed(p) && WellResolved(p) && ScansBuildable(p) && NodeBuilds(p) && (Builds(p) <==> a != b)
  {
    JoinOfTwoResolves(a, name, b, name);
    OnePosition(Col(Column(Some(b), name)), SchemaOf(JoinOfTwo(a, name, b, name)));
    assert SchemaOf(ColumnOfJoin(a, b, name)) == [Field(Some(b), name)];
  }

  const OneRowEach: Database := n => [[Int(n)]]

  lemma OneRowJoin(a: TableRef, b: TableRef, name: string, m: Meaning)
    ensures Eval(JoinOfTwo(a, name, b, name), OneRowEach, m) == [[Int(0), Int(1)]]
  {
    var l, r := ScanOf(a, 0, name), ScanOf(b, 1, name);
    KeepAll([[Int(0)]], SourceSchema(a, l.source), m);
    KeepAll([[Int(1)]], SourceSchema(b, r.source), m);
    assert Eval(l, OneRowEach, m) == [[Int(0)]] && Eval(r, OneRowEach, m) == [[Int(1)]];
    NoKeys([Int(0)], SchemaOf(l), m);
    NoKeys([Int(1)], SchemaOf(r), m);
    PairOfRows([Int(0)], [Int(1)]);
    assert [Int(0)] + [Int(1)] == [Int(0), Int(1)];
  }

  lemma NoKeys(row: Row, schema: seq<Field>, m: Meaning)
    ensures MapRows([row], [], schema, m) == [[]]
  {
    assert [row][1..] == [];
  }

  lemma PairOfRows(left: Row, right: Row)
    ensures JoinRows([left], [right], [[]], [[]]) == [left + right]
  {
    var keys: seq<Row> := [[]];
    assert [left][1..] == [] && [right][1..] == [] && keys[1..] == [];
    assert Members([right], keys, []) == [right];
    assert JoinRows([], [right], [], keys) == [];
  }

  /** The value read from the one joined row is the number of the table it comes from. */
  lemma ColumnOfOneRowJoin(a: TableRef, b: TableRef, name: string, m: Meaning)
    ensures Eval(ColumnOfJoin(a, b, name), OneRowEach, m) == [[Int(if ResolvedEq(b, a) then 0 else 1)]]
  {
    OneRowJoin(a, b, name, m);
    JoinOfTwoResolves(a, name, b, name);
    ReadOneRow([Int(0), Int(1)], Column(Some(b), name), SchemaOf(JoinOfTwo(a, name, b, name)), m);
  }

  lemma ReadOneRow(row: Row, c: Column, schema: seq<Field>, m: Meaning)
    ensures MapRows([row], [Col(c)], schema, m) == [[EvalExpr(Col(c), schema, row, m)]]
  {
    assert [row][1..] == [] && [Col(c)][1..] == [];
    assert EvalRow([Col(c)], schema, row, m) == [EvalExpr(Col(c), schema, row, m)];
  }

  /** References that start apart agree after reduction only by becoming equal. */
  lemma MergedIsEqual(a: TableRef, b: TableRef)
    requires !ResolvedEq(b, a)
    ensures ResolvedEq(Reduced(b), Reduced(a)) <==> Reduced(a) == Reduced(b)
  {}

  /**
    Two different tables with a column of one name: reading it from their join gives the
    rows of the second after stripping, over every database, if and only if reduction keeps
    the two references apart; and that is exactly when the pass succeeds.
   */
  lemma MergedJoinKeepsRowsIff(a: TableRef, b: TableRef, name: string, m: Meaning)
    requires !ResolvedEq(b, a) && !IsExpressionName(name)
    ensures var p := ColumnOfJoin(a, b, name);
            && WellFormed(p) && WellResolved(p) && Builds(p) && ScansBuildable(p)
            && (TryStrip(p).Some? <==> !ResolvedEq(Reduced(b), Reduced(a)))
            && ((forall db :: Eval(StripPlan(p), db, m) == Eval(p, db, m)) <==> !ResolvedEq(Reduced(b), Reduced(a)))
  {
    var p := ColumnOfJoin(a, b, name);
    ColumnOfJoinBuilds(a, b, name);
    ColumnOfJoinStripped(a, b, name, Prefixes(p));
    MergedIsEqual(a, b);
    if ResolvedEq(Reduced(b), Reduced(a)) {
      ColumnOfOneRowJoin(a, b, name, m);
      ColumnOfOneRowJoin(Reduced(a), Reduced(b), name, m);
      assert Eval(StripPlan(p), OneRowEach, m) != Eval(p, OneRowEach, m);
    } else {
      forall db ensures Eval(StripPlan(p), db, m) == Eval(p, db, m) {
        ApartKeepsRows(a, b, name, db, m);
      }
    }
  }

  lemma ApartKeepsRows(a: TableRef, b: TableRef, name: string, db: Database, m: Meaning)
    requires !ResolvedEq(b, a) && !ResolvedEq(Reduced(b), Reduced(a))
    ensures Eval(ColumnOfJoin(Reduced(a), Reduced(b), name), db, m) == Eval(ColumnOfJoin(a, b, name), db, m)
  {
    JoinOfTwoResolves(a, name, b, name);
    JoinOfTwoResolves(Reduced(a), name, Reduced(b), name);
    JoinOfTwoRows(a, b, Reduced(a), Reduced(b), name, db, m);
    MapSamePosition(Eval(JoinOfTwo(a, name, b, name), db, m),
                    Column(Some(b), name), SchemaOf(JoinOfTwo(a, name, b, name)),
                    Column(Some(Reduced(b)), name), SchemaOf(JoinOfTwo(Reduced(a), name, Reduced(b), name)), m);
  }
}

/**
  The order of the scans decides whether a qualifier is rewritten.

  Every scanned path is replaced as a substring.  The path of catalog `pg` also matches
  inside a qualifier of catalog `xpg` over the same schema and table; whichever of the two
  was scanned first is replaced first.  Parts of references contain no dot here.
 */
module StripOrder {
  import opened Options
  import opened FlatNames
  import opened Plans
  import opened Stripping
  import opened PlanMeaning
  import opened StripMeaning
  import opened StripPass
  import opened StripLimits

  predicate DotFree(s: string) { '.' !in s }

  predicate Plain(r: TableRef) { r.Full? && DotFree(r.catalog) && DotFree(r.schema) && DotFree(r.table) }

  predicate AllPlain(refs: seq<TableRef>) { forall i :: 0 <= i < |refs| ==> Plain(refs[i]) }

  predicate IsSuffix(a: string, b: string) { |a| <= |b| && b[|b| - |a|..] == a }

  /** The path of `q` matches inside the qualifier of `r`. */
  predicate MatchesIn(q: TableRef, r: TableRef) {
    q.Full? && r.Full? && q.schema == r.schema && q.table == r.table && IsSuffix(q.catalog, r.catalog)
  }

  /** It does so although `q` is another table: its catalog is a proper suffix. */
  predicate Captures(q: TableRef, r: TableRef) { MatchesIn(q, r) && q.catalog != r.catalog }

  // ----- Counting dots ------------------------------------------------------------------

  function Dots(s: string): nat { if s == [] then 0 else (if s[0] == '.' then 1 else 0) + Dots(s[1..]) }

  lemma {:induction false} DotsConcat(a: string, b: string)
    ensures Dots(a + b) == Dots(a) + Dots(b)
  {
    if a == [] {
      assert a + b == b;
    } else {
      assert (a + b)[1..] == a[1..] + b;
      DotsConcat(a[1..], b);
    }
  }

  lemma {:induction false} NoDots(s: string)
    requires DotFree(s)
    ensures Dots(s) == 0
  {
    if s != [] { NoDots(s[1..]); }
  }

  /** A pattern with more dots than the text does not occur in it. */
  lemma {:induction false} FewDotsNoMatch(s: string, sub: string)
    requires Dots(s) < Dots(sub)
    ensures !Occurs(s, sub)
  {
    if sub <= s {
      assert s == sub + s[|sub|..];
      DotsConcat(sub, s[|sub|..]);
    } else if s != [] {
      FewDotsNoMatch(s[1..], sub);
    }
  }

  /** `a.b.w`, with dot-free parts. */
  function Two(a: string, b: string, w: string): string { a + "." + (b + "." + w) }

  function Three(c: string, s: string, t: string, w: string): string { c + "." + Two(s, t, w) }

  lemma TwoDots(a: string, b: string, w: string)
    requires DotFree(a) && DotFree(b) && DotFree(w)
    ensures Dots(Two(a, b, w)) == 2
  {
    NoDots(a);
    NoDots(b);
    NoDots(w);
    DotsConcat(a + ".", b + "." + w);
    DotsConcat(a, ".");
    DotsConcat(b + ".", w);
    DotsConcat(b, ".");
  }

  lemma ThreeDots(c: string, s: string, t: string)
    requires DotFree(c) && DotFree(s) && DotFree(t)
    ensures Dots(Three(c, s, t, "")) == 3
  {
    TwoDots(s, t, "");
    NoDots(c);
    DotsConcat(c + ".", Two(s, t, ""));
    DotsConcat(c, ".");
  }

  // ----- Where a path matches -----------------------------------------------------------

  /** Two texts that agree up to a dot agree on what precedes it. */
  lemma SplitAtDot(a: string, x: string, b: string, y: string)
    requires DotFree(a) && DotFree(b)
    ensures a + "." + x <= b + "." + y <==> a == b && x <= y
  {
    var l, r := a + "." + x, b + "." + y;
    assert l[|a|] == '.' && r[|b|] == '.';
    assert l[..|a|] == a && r[..|b|] == b && l[|a| + 1..] == x && r[|b| + 1..] == y;
    if l <= r {
      assert forall k :: 0 <= k < |l| ==> r[k] == l[k];
      assert forall k :: 0 <= k < |b| ==> r[k] == b[k] != '.';
      assert forall k :: 0 <= k < |a| ==> l[k] == a[k] != '.';
      assert |a| == |b|;
      assert r[..|a|] == l[..|a|];
      assert x == l[|a| + 1..] && x <= r[|a| + 1..];
    }
    if a == b && x <= y {
      assert y == x + y[|x|..];
      assert r == l + y[|x|..];
    }
  }

  lemma PathAtStart(q: TableRef, r: TableRef, w: string)
    requires Plain(q) && Plain(r)
    ensures Three(q.catalog, q.schema, q.table, "") <= Three(r.catalog, r.schema, r.table, w) <==> q == r
  {
    SplitAtDot(q.catalog, Two(q.schema, q.table, ""), r.catalog, Two(r.schema, r.table, w));
    SplitAtDot(q.schema, q.table + "." + "", r.schema, r.table + "." + w);
    SplitAtDot(q.table, "", r.table, w);
  }

  /** What replacing the path of `q` does to a column of `r`. */
  function Replaced(q: TableRef, r: TableRef, w: string): string
    requires q.Full? && r.Full?
  {
    if MatchesIn(q, r) then r.catalog[..|r.catalog| - |q.catalog|] + Two(r.schema, r.table, w)
    else Three(r.catalog, r.schema, r.table, w)
  }

  lemma SuffixStep(a: string, b: string)
    requires b != []
    ensures IsSuffix(a, b) <==> a == b || IsSuffix(a, b[1..])
    ensures IsSuffix(a, b[1..]) ==> b[..|b| - |a|] == [b[0]] + b[1..][..|b| - 1 - |a|]
  {
    assert b[0..] == b;
    if IsSuffix(a, b) && a != b { assert b[|b| - |a|..] == b[1..][|b| - 1 - |a|..]; }
    if IsSuffix(a, b[1..]) { assert b[|b| - |a|..] == b[1..][|b| - 1 - |a|..]; }
  }

  lemma {:induction false} ReplacePath(q: TableRef, r: TableRef, w: string)
    requires Plain(q) && Plain(r) && DotFree(w)
    ensures ReplaceAll(Three(r.catalog, r.schema, r.table, w), Three(q.catalog, q.schema, q.table, ""),
                       Two(q.schema, q.table, "")) == Replaced(q, r, w)
    decreases |r.catalog|
  {
    PathAtStart(q, r, w);
    if q == r {
      ReplaceOwn(r, w);
    } else if r.catalog == [] {
      ReplaceNothing(q, r, w);
    } else {
      var shorter := Full(r.catalog[1..], r.schema, r.table);
      assert Three(r.catalog, r.schema, r.table, w)[1..] == Three(shorter.catalog, r.schema, r.table, w);
      ReplacePath(q, shorter, w);
      ReplacedStep(q, r, w);
    }
  }

  lemma ReplaceOwn(r: TableRef, w: string)
    requires Plain(r) && DotFree(w)
    ensures ReplaceAll(Three(r.catalog, r.schema, r.table, w), Three(r.catalog, r.schema, r.table, ""),
                       Two(r.schema, r.table, "")) == Replaced(r, r, w)
  {
    var from, to := Three(r.catalog, r.schema, r.table, ""), Two(r.schema, r.table, "");
    ThreeDots(r.catalog, r.schema, r.table);
    NoDots(w);
    FewDotsNoMatch(w, from);
    ReplaceAbsent(w, from, to);
    assert Three(r.catalog, r.schema, r.table, w) == from + w;
    assert (from + w)[|from|..] == w;
    assert to + w == Two(r.schema, r.table, w);
    assert r.catalog[0..] == r.catalog;
  }

  lemma ReplaceNothing(q: TableRef, r: TableRef, w: string)
    requires Plain(q) && Plain(r) && DotFree(w) && r.catalog == [] && q != r
    ensures ReplaceAll(Three(r.catalog, r.schema, r.table, w), Three(q.catalog, q.schema, q.table, ""),
                       Two(q.schema, q.table, "")) == Replaced(q, r, w)
  {
    var text, from := Three(r.catalog, r.schema, r.table, w), Three(q.catalog, q.schema, q.table, "");
    var rest := Two(r.schema, r.table, w);
    PathAtStart(q, r, w);
    ThreeDots(q.catalog, q.schema, q.table);
    assert text == ['.'] + rest && text[1..] == rest;
    TwoDots(r.schema, r.table, w);
    FewDotsNoMatch(rest, from);
    ReplaceAbsent(rest, from, Two(q.schema, q.table, ""));
  }

  lemma ReplacedStep(q: TableRef, r: TableRef, w: string)
    requires q.Full? && r.Full? && r.catalog != [] && q != r
    ensures Replaced(q, r, w) == [r.catalog[0]] + Replaced(q, Full(r.catalog[1..], r.schema, r.table), w)
  {
    SuffixStep(q.catalog, r.catalog);
    assert r.catalog == [r.catalog[0]] + r.catalog[1..];
    if MatchesIn(q, r) {
      var k := |r.catalog| - |q.catalog|;
      assert r.catalog[..k] == [r.catalog[0]] + r.catalog[1..][..k - 1];
    }
  }

  // ----- A list of paths ----------------------------------------------------------------

  function PrefixesOf(refs: seq<TableRef>): (ps: seq<FlatNamePrefix>)
    ensures Usable(ps)
  { seq(|refs|, i requires 0 <= i < |refs| => PrefixOf(refs[i])) }

  lemma ShownPlain(r: TableRef, w: string)
    requires r.Full?
    ensures ShowRef(r) + "." + w == Three(r.catalog, r.schema, r.table, w)
    ensures ShowRef(Reduced(r)) + "." + w == Two(r.schema, r.table, w)
    ensures PrefixOf(r) == FlatNamePrefix(Three(r.catalog, r.schema, r.table, ""), Two(r.schema, r.table, ""))
  {
    assert ShowRef(r) + "." + w == r.catalog + "." + (r.schema + "." + (r.table + "." + w));
    assert ShowRef(Reduced(r)) + "." + w == r.schema + "." + (r.table + "." + w);
    assert ShowRef(r) + "." == r.catalog + "." + (r.schema + "." + (r.table + "." + ""));
    assert ShowRef(Reduced(r)) + "." == r.schema + "." + (r.table + "." + "");
  }

  /** Once reduced, a text has too few dots for any path. */
  lemma ReducedIsLeftAlone(a: string, b: string, w: string, refs: seq<TableRef>)
    requires DotFree(a) && DotFree(b) && DotFree(w) && AllPlain(refs)
    ensures RewriteAll(Two(a, b, w), PrefixesOf(refs)) == Two(a, b, w)
  {
    var ps := PrefixesOf(refs);
    forall i | 0 <= i < |ps| ensures !Occurs(Two(a, b, w), ps[i].from) {
      ShownPlain(refs[i], "");
      TwoDots(a, b, w);
      ThreeDots(refs[i].catalog, refs[i].schema, refs[i].table);
      FewDotsNoMatch(Two(a, b, w), ps[i].from);
    }
    RewriteAbsent(Two(a, b, w), ps);
  }

  function FirstIndex(refs: seq<TableRef>, r: TableRef): (i: nat)
    requires r in refs
    ensures i < |refs| && refs[i] == r && forall j :: 0 <= j < i ==> refs[j] != r
  {
    if refs[0] == r then 0
    else
      assert refs == [refs[0]] + refs[1..];
      1 + FirstIndex(refs[1..], r)
  }

  /** No table scanned before `r` captures it. */
  predicate FirstToMatch(refs: seq<TableRef>, r: TableRef)
    requires r in refs
  {
    forall j :: 0 <= j < FirstIndex(refs, r) ==> !Captures(refs[j], r)
  }

  lemma OneRewrite(refs: seq<TableRef>, r: TableRef, w: string)
    requires refs != [] && AllPlain(refs) && Plain(r) && DotFree(w)
    ensures RewriteAll(ShowRef(r) + "." + w, PrefixesOf(refs)) ==
            RewriteAll(Replaced(refs[0], r, w), PrefixesOf(refs[1..]))
  {
    RewriteHead(ShowRef(r) + "." + w, refs);
    ShownPlain(r, w);
    ShownPlain(refs[0], "");
    ReplacePath(refs[0], r, w);
  }

  lemma RewriteHead(s: string, refs: seq<TableRef>)
    requires refs != []
    ensures var p := PrefixOf(refs[0]);
            RewriteAll(s, PrefixesOf(refs)) == RewriteAll(ReplaceAll(s, p.from, p.to), PrefixesOf(refs[1..]))
  {
    assert PrefixesOf(refs)[1..] == PrefixesOf(refs[1..]);
  }

  /**
    A qualified column of a scanned table is rewritten to its reduced form if and only if no
    table scanned before its own has the same schema and table and a catalog that is a
    proper suffix of its catalog.
   */
  lemma {:induction false} QualifierRewrittenIff(refs: seq<TableRef>, r: TableRef, w: string)
    requires AllPlain(refs) && r in refs && DotFree(w)
    ensures RewriteAll(ShowRef(r) + "." + w, PrefixesOf(refs)) == ShowRef(Reduced(r)) + "." + w <==>
            FirstToMatch(refs, r)
    decreases |refs|
  {
    assert Plain(r);
    if MatchesIn(refs[0], r) {
      FirstMatchDecides(refs, r, w);
    } else {
      assert refs == [refs[0]] + refs[1..];
      assert refs[0] != r by { assert r.catalog[0..] == r.catalog; }
      OneRewrite(refs, r, w);
      ShownPlain(r, w);
      QualifierRewrittenIff(refs[1..], r, w);
      ShiftFirst(refs, r);
    }
  }

  /** What a match of `q` leaves of the catalog of `r`. */
  function Kept(q: TableRef, r: TableRef): string
    requires MatchesIn(q, r)
  { r.catalog[..|r.catalog| - |q.catalog|] }

  lemma LongerFirst(k: string, a: string, b: string, w: string)
    ensures k + Two(a, b, w) == Two(k + a, b, w)
  {}

  /** The first path that matches is the last that changes anything. */
  lemma FirstMatchLeaves(refs: seq<TableRef>, r: TableRef, w: string)
    requires refs != [] && AllPlain(refs) && Plain(r) && DotFree(w) && MatchesIn(refs[0], r)
    ensures var left := Partial(Kept(refs[0], r) + r.schema, r.table);
            RewriteAll(ShowRef(r) + "." + w, PrefixesOf(refs)) == ShowRef(left) + "." + w
  {
    OneRewrite(refs, r, w);
    var schema := Kept(refs[0], r) + r.schema;
    LongerFirst(Kept(refs[0], r), r.schema, r.table, w);
    ReducedIsLeftAlone(schema, r.table, w, refs[1..]);
    ShownPlain(Full("", schema, r.table), w);
  }

  lemma FirstMatchDecides(refs: seq<TableRef>, r: TableRef, w: string)
    requires AllPlain(refs) && r in refs && DotFree(w) && MatchesIn(refs[0], r)
    ensures RewriteAll(ShowRef(r) + "." + w, PrefixesOf(refs)) == ShowRef(Reduced(r)) + "." + w <==> refs[0] == r
    ensures FirstToMatch(refs, r) <==> refs[0] == r
  {
    assert Plain(r);
    FirstMatchLeaves(refs, r, w);
    var kept := Kept(refs[0], r);
    assert r.catalog[0..] == r.catalog;
    assert kept == [] <==> refs[0] == r;
    assert |ShowRef(Partial(kept + r.schema, r.table))| == |kept| + |ShowRef(Reduced(r))|;
    if kept == [] { assert kept + r.schema == r.schema; }
    if refs[0] != r { assert Captures(refs[0], r); }
  }

  lemma ShiftFirst(refs: seq<TableRef>, r: TableRef)
    requires refs != [] && refs[0] != r && r in refs[1..] && !Captures(refs[0], r)
    ensures r in refs && (FirstToMatch(refs, r) <==> FirstToMatch(refs[1..], r))
  {
    assert refs == [refs[0]] + refs[1..];
    var k := FirstIndex(refs[1..], r);
    assert FirstIndex(refs, r) == k + 1;
    forall j | 0 <= j < k ensures refs[1..][j] == refs[j + 1] {}
    if FirstToMatch(refs, r) {
      forall j | 0 <= j < k ensures !Captures(refs[1..][j], r) { assert refs[1..][j] == refs[j + 1]; }
    }
  }

  /** Two tables of which one captures the other reduce to one reference: no plan that mentions both is merge-free. */
  lemma CaptureMerges(q: TableRef, r: TableRef, u: Universe, ps: seq<FlatNamePrefix>)
    requires Captures(q, r) && q in u.refs && r in u.refs && Usable(ps)
    ensures Reduced(q) == Reduced(r) && !MergeFree(u, ps)
  {
    assert ResolvedEq(Reduced(q), Reduced(r)) && !ResolvedEq(q, r);
  }

  // ----- A plan over both tables --------------------------------------------------------

  /** `f(b.y)` computed over a join of `a` and `b`, and projected. */
  function CallOverJoinPlan(a: TableRef, x: string, b: TableRef, y: string, f: string): Plan {
    OverAggregate(JoinOfTwo(a, x, b, y), Call(f, [Col(Column(Some(b), y))]))
  }

  lemma TwoPrefixes(a: TableRef, x: string, b: TableRef, y: string, f: string)
    requires Plain(a) && Plain(b) && a != b
    ensures Prefixes(CallOverJoinPlan(a, x, b, y, f)) == PrefixesOf([a, b])
  {
    DifferentPaths(a, b);
    CallOverJoinPrefixes(a, x, b, y, Call(f, [Col(Column(Some(b), y))]));
    PrefixesOfTwo(a, b);
  }

  lemma PrefixesOfTwo(a: TableRef, b: TableRef)
    ensures PrefixesOf([a, b]) == [PrefixOf(a), PrefixOf(b)]
  {}

  lemma DifferentPaths(a: TableRef, b: TableRef)
    requires Plain(a) && Plain(b) && a != b
    ensures PrefixOf(a).from != PrefixOf(b).from
  {
    ShownPlain(a, "");
    ShownPlain(b, "");
    PathAtStart(a, b, "");
  }

  /**
    Such a plan over columns of different names can always be built and resolves.  After
    stripping it still does, and the pass succeeds at all, exactly when the first table does
    not capture the second: with the scans the other way round it does.
   */
  lemma CapturedPlanResolvesIff(a: TableRef, x: string, b: TableRef, y: string, f: string)
    requires Plain(a) && Plain(b) && a != b && x != y && DotFree(y) && !IsExpressionName(y)
    requires DelimiterFree(PrefixesOf([a, b])) && NoneOccurs(f, PrefixesOf([a, b]))
    ensures var p := CallOverJoinPlan(a, x, b, y, f);
            && WellFormed(p) && WellResolved(p) && Builds(p) && ScansBuildable(p)
            && (WellResolved(StripPlan(p)) <==> !Captures(a, b))
            && (TryStrip(p).Some? <==> !Captures(a, b))
  {
    var below, col := JoinOfTwo(a, x, b, y), Column(Some(b), y);
    JoinOfTwoResolves(a, x, b, y);
    OneArgument(f, col, SchemaOf(below));
    OverAggregateResolves(below, Call(f, [Col(col)]));
    OverAggregateBuilds(below, Call(f, [Col(col)]));
    TwoPrefixes(a, x, b, y, f);
    StrippedJoinCallIff(a, x, b, y, f);
    SecondIsCaptured(a, b, y);
  }

  lemma StrippedJoinCallIff(a: TableRef, x: string, b: TableRef, y: string, f: string)
    requires Plain(a) && Plain(b) && a != b && x != y && !IsExpressionName(y)
    requires DelimiterFree(PrefixesOf([a, b])) && NoneOccurs(f, PrefixesOf([a, b]))
    ensures var p, ps := CallOverJoinPlan(a, x, b, y, f), PrefixesOf([a, b]);
            var kept := RewriteAll(ShowRef(b) + "." + y, ps) == ShowRef(Reduced(b)) + "." + y;
            ScansBuildable(p) && (WellResolved(Strip(p, ps)) <==> kept) && (Succeeds(p, ps) <==> kept)
  {
    var ps := PrefixesOf([a, b]);
    var below, col := JoinOfTwo(a, x, b, y), Column(Some(b), y);
    JoinOfTwoStripped(a, x, b, y, ps);
    OneArgument(f, StripColumn(col, ps), SchemaOf(Strip(below, ps)));
    StripCall(f, col, ps);
    OverAggregateResolvesIff(below, Call(f, [Col(col)]), ps);
    OverAggregateSucceedsIff(below, Call(f, [Col(col)]), ps);
    RewriteCall(f, FlatName(col), ps);
    SameCore(f, RewriteAll(FlatName(col), ps), FlatName(StripColumn(col, ps)));
  }

  lemma SecondIsCaptured(a: TableRef, b: TableRef, name: string)
    requires Plain(a) && Plain(b) && a != b && DotFree(name)
    ensures RewriteAll(ShowRef(b) + "." + name, PrefixesOf([a, b])) == ShowRef(Reduced(b)) + "." + name <==>
            !Captures(a, b)
  {
    QualifierRewrittenIff([a, b], b, name);
    assert FirstIndex([a, b], b) == 1;
  }

  lemma SameCore(f: string, x: string, y: string)
    ensures f + "(" + x + ")" == f + "(" + y + ")" <==> x == y
  {
    if f + "(" + x + ")" == f + "(" + y + ")" { EqualCores(f + "(", x, y, ")"); }
  }
}

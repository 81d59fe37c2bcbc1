/**
  Table references and the flattened expression names that embed them.

  A federated plan carries `catalog.schema.table` references in two places: as structured
  references, and as text inside names the engine flattened from an expression.  This module
  models the reduction of both to `schema.table`: `ReduceRef` on references and
  `ReduceFlatName`, a chain of substring replacements, on names.
 */
module FlatNames {
  import opened Options

  datatype TableRef =
    | Bare(table: string)
    | Partial(schema: string, table: string)
    | Full(catalog: string, schema: string, table: string)

  /** Dotted and unquoted, the form the engine bakes into flattened names. */
  function ShowRef(r: TableRef): string {
    match r
    case Bare(t) => t
    case Partial(s, t) => s + "." + t
    case Full(c, s, t) => c + "." + s + "." + t
  }

  /** None when there is no catalog to drop. */
  function ReduceRef(r: TableRef): (out: Option<TableRef>)
    ensures out.Some? <==> HasCatalog(r)
    ensures out.Some? ==> !HasCatalog(out.value)
  {
    match r
    case Full(_, s, t) => Some(Partial(s, t))
    case _ => None
  }

  predicate HasCatalog(r: TableRef) { r.Full? }

  function Reduced(r: TableRef): TableRef { ReduceRef(r).GetOr(r) }

  function ReducedOpt(r: Option<TableRef>): Option<TableRef> {
    if r.None? then None else Some(Reduced(r.value))
  }

  /** Two references agree when they agree on every part both of them have. */
  predicate ResolvedEq(q: TableRef, f: TableRef) {
    && q.table == f.table
    && (q.Bare? || f.Bare? || q.schema == f.schema)
    && (!q.Full? || !f.Full? || q.catalog == f.catalog)
  }

  // ----- Text ---------------------------------------------------------------------------

  /** `sub` is a substring of `s`. */
  predicate Occurs(s: string, sub: string) {
    sub <= s || (s != [] && Occurs(s[1..], sub))
  }

  /** Left-to-right replacement of the non-overlapping occurrences of `from`. */
  function ReplaceAll(s: string, from: string, to: string): string
    requires from != []
  {
    if from <= s then to + ReplaceAll(s[|from|..], from, to)
    else if s == [] then []
    else [s[0]] + ReplaceAll(s[1..], from, to)
  }

  lemma {:induction false} ReplaceAbsent(s: string, from: string, to: string)
    requires from != [] && !Occurs(s, from)
    ensures ReplaceAll(s, from, to) == s
  {
    if s != [] { ReplaceAbsent(s[1..], from, to); }
  }

  lemma PrefixAcross(a: string, d: char, b: string, from: string)
    requires d !in from
    ensures from <= a + [d] + b <==> from <= a
  {
    var s := a + [d] + b;
    assert s[|a|] == d && s[..|a|] == a;
    assert from <= s ==> |from| <= |a|;
  }

  /** A character the pattern does not contain splits the replacement in two. */
  lemma {:induction false} ReplaceAcross(a: string, d: char, b: string, from: string, to: string)
    requires from != [] && d !in from
    ensures ReplaceAll(a + [d] + b, from, to) == ReplaceAll(a, from, to) + [d] + ReplaceAll(b, from, to)
    decreases |a|
  {
    var s := a + [d] + b;
    PrefixAcross(a, d, b, from);
    var rb := ReplaceAll(b, from, to);
    if from <= s {
      var rest := a[|from|..];
      ReplaceAcross(rest, d, b, from, to);
      assert s[|from|..] == rest + [d] + b;
      Reassociate(to, ReplaceAll(rest, from, to), [d], rb);
    } else if a == [] {
      assert s == [d] + b;
      assert s[1..] == b;
      Reassociate([], [], [d], rb);
    } else {
      ReplaceAcross(a[1..], d, b, from, to);
      assert s[0] == a[0] && s[1..] == a[1..] + [d] + b;
      Reassociate([a[0]], ReplaceAll(a[1..], from, to), [d], rb);
    }
  }

  lemma Reassociate(a: string, b: string, c: string, d: string)
    ensures a + (b + c + d) == (a + b) + c + d
  {}

  /** A pattern with a character the text lacks does not occur in it. */
  lemma {:induction false} MissingCharNoOccurrence(s: string, sub: string, c: char)
    requires c in sub && c !in s
    ensures !Occurs(s, sub)
  {
    var i :| 0 <= i < |sub| && sub[i] == c;
    assert i < |s| ==> s[i] != sub[i];
    if s != [] { MissingCharNoOccurrence(s[1..], sub, c); }
  }

  // ----- Prefix reductions --------------------------------------------------------------

  /** `catalog.schema.table.` to `schema.table.`, both with the trailing dot. */
  datatype FlatNamePrefix = FlatNamePrefix(from: string, to: string)

  function PrefixOf(r: TableRef): (p: FlatNamePrefix)
    ensures p.from != [] && '.' in p.from
  {
    assert (ShowRef(r) + ".")[|ShowRef(r)|] == '.';
    FlatNamePrefix(ShowRef(r) + ".", ShowRef(Reduced(r)) + ".")
  }

  ghost predicate Usable(ps: seq<FlatNamePrefix>) {
    forall i :: 0 <= i < |ps| ==> ps[i].from != []
  }

  /** Every prefix in turn, each on the result of the one before. */
  function RewriteAll(s: string, ps: seq<FlatNamePrefix>): string
    requires Usable(ps)
    decreases |ps|
  {
    if ps == [] then s else RewriteAll(ReplaceAll(s, ps[0].from, ps[0].to), ps[1..])
  }

  predicate NoneOccurs(s: string, ps: seq<FlatNamePrefix>) {
    forall i :: 0 <= i < |ps| ==> !Occurs(s, ps[i].from)
  }

  lemma {:induction false} RewriteAbsent(s: string, ps: seq<FlatNamePrefix>)
    requires Usable(ps) && NoneOccurs(s, ps)
    ensures RewriteAll(s, ps) == s
  {
    if ps != [] {
      ReplaceAbsent(s, ps[0].from, ps[0].to);
      RewriteAbsent(s, ps[1..]);
    }
  }

  predicate IsWhitespace(c: char) {
    var n := c as int;
    || 0x09 <= n <= 0x0D || n == 0x20 || n == 0x85 || n == 0xA0 || n == 0x1680
    || 0x2000 <= n <= 0x200A || n == 0x2028 || n == 0x2029 || n == 0x202F || n == 0x205F || n == 0x3000
  }

  /** The guard that tells a flattened expression name from a plain identifier path. */
  predicate IsExpressionName(name: string) {
    '(' in name || exists i :: 0 <= i < |name| && IsWhitespace(name[i])
  }

  /** The 25 code points of the Unicode property White_Space. */
  const WhiteSpace: set<int> :=
    {9, 10, 11, 12, 13, 32, 133, 160, 5760, 8192, 8193, 8194, 8195, 8196, 8197, 8198, 8199, 8200, 8201, 8202,
     8232, 8233, 8239, 8287, 12288}

  /** Only a name with a parenthesis or white space in it is ever rewritten. */
  lemma ExpressionNameIff(name: string)
    ensures IsExpressionName(name) <==>
            exists i :: 0 <= i < |name| && (name[i] == '(' || name[i] as int in WhiteSpace)
  {
    forall c: char ensures IsWhitespace(c) <==> c as int in WhiteSpace {}
  }

  /** The name a column or field carries after the pass. */
  function ReducedName(name: string, ps: seq<FlatNamePrefix>): string
    requires Usable(ps)
  {
    if IsExpressionName(name) then RewriteAll(name, ps) else name
  }

  /** The loop of the source: `Some` exactly when the guard holds and some prefix matched on the way. */
  method ReduceFlatName(name: string, ps: seq<FlatNamePrefix>) returns (out: Option<string>)
    requires Usable(ps)
    ensures out.GetOr(name) == ReducedName(name, ps)
    ensures out.None? <==> !IsExpressionName(name) || NoneOccurs(name, ps)
  {
    if !IsExpressionName(name) { return None; }
    out := None;
    var i := 0;
    while i < |ps|
      invariant 0 <= i <= |ps|
      invariant RewriteAll(out.GetOr(name), ps[i..]) == RewriteAll(name, ps)
      invariant out.None? <==> NoneOccurs(name, ps[..i])
    {
      var current := out.GetOr(name);
      assert ps[i..][1..] == ps[i + 1..];
      if Occurs(current, ps[i].from) {
        if out.None? {
          assert current == name && Occurs(name, ps[..i + 1][i].from);
        } else {
          NoneOccursPrefix(name, ps, i);
        }
        out := Some(ReplaceAll(current, ps[i].from, ps[i].to));
      } else {
        ReplaceAbsent(current, ps[i].from, ps[i].to);
        if out.Some? { NoneOccursPrefix(name, ps, i); }
      }
      i := i + 1;
    }
    assert ps[..i] == ps;
  }

  lemma NoneOccursPrefix(name: string, ps: seq<FlatNamePrefix>, i: nat)
    requires i < |ps| && !NoneOccurs(name, ps[..i])
    ensures !NoneOccurs(name, ps[..i + 1])
  {
    var k :| 0 <= k < i && Occurs(name, ps[..i][k].from);
    assert ps[..i + 1][k] == ps[..i][k];
  }

  // ----- Delimiters ---------------------------------------------------------------------

  /** The characters that separate the pieces of a rendered expression. */
  predicate IsDelimiter(c: char) { c == '(' || c == ')' || c == ',' || c == ' ' }

  /** No qualifier contains a delimiter. */
  ghost predicate DelimiterFree(ps: seq<FlatNamePrefix>) {
    forall i, d :: 0 <= i < |ps| && IsDelimiter(d) ==> d !in ps[i].from
  }

  lemma {:induction false} RewriteAcross(a: string, d: char, b: string, ps: seq<FlatNamePrefix>)
    requires Usable(ps) && DelimiterFree(ps) && IsDelimiter(d)
    ensures RewriteAll(a + [d] + b, ps) == RewriteAll(a, ps) + [d] + RewriteAll(b, ps)
    decreases |ps|
  {
    if ps != [] {
      ReplaceAcross(a, d, b, ps[0].from, ps[0].to);
      RewriteAcross(ReplaceAll(a, ps[0].from, ps[0].to), d, ReplaceAll(b, ps[0].from, ps[0].to), ps[1..]);
    }
  }

  /** The part of a name before its first delimiter. */
  function HeadWord(n: string): (h: string)
    ensures h <= n
  {
    if n == [] || IsDelimiter(n[0]) then [] else [n[0]] + HeadWord(n[1..])
  }

  lemma {:induction false} HeadWordEnds(n: string)
    ensures |HeadWord(n)| < |n| ==> IsDelimiter(n[|HeadWord(n)|])
  {
    if n != [] && !IsDelimiter(n[0]) { HeadWordEnds(n[1..]); }
  }

  // ----- One qualified column -----------------------------------------------------------

  /**
    A prefix occurs in `qualifier.word` only where the qualifier itself was rendered.  The
    qualifier of a three-part reference is one of the prefixes, no earlier one matches in
    the text, and no later one in the reduced text.
   */
  ghost predicate QualifierOnly(r: TableRef, word: string, ps: seq<FlatNamePrefix>) {
    var q := ShowRef(r) + ".";
    if HasCatalog(r) then !Occurs(word, q) && exists k :: 0 <= k < |ps| && MatchesFirst(r, word, ps, k)
    else NoneOccurs(q + word, ps)
  }

  predicate MatchesFirst(r: TableRef, word: string, ps: seq<FlatNamePrefix>, k: nat)
    requires k < |ps|
  {
    && ps[k] == PrefixOf(r)
    && NoneOccurs(ShowRef(r) + "." + word, ps[..k])
    && NoneOccurs(ShowRef(Reduced(r)) + "." + word, ps[k + 1..])
  }

  lemma {:induction false} RewriteQualified(r: TableRef, word: string, ps: seq<FlatNamePrefix>)
    requires Usable(ps) && QualifierOnly(r, word, ps)
    ensures RewriteAll(ShowRef(r) + "." + word, ps) == ShowRef(Reduced(r)) + "." + word
    decreases |ps|
  {
    var s := ShowRef(r) + "." + word;
    var s' := ShowRef(Reduced(r)) + "." + word;
    if !HasCatalog(r) {
      RewriteAbsent(s, ps);
    } else {
      var k :| 0 <= k < |ps| && MatchesFirst(r, word, ps, k);
      if k == 0 {
        assert ps[0].from <= s && s[|ps[0].from|..] == word;
        ReplaceAbsent(word, ps[0].from, ps[0].to);
        RewriteAbsent(s', ps[1..]);
      } else {
        assert ps[..k][0] == ps[0];
        ReplaceAbsent(s, ps[0].from, ps[0].to);
        assert ps[1..][..k - 1] == ps[..k][1..] && ps[1..][k..] == ps[k + 1..];
        assert MatchesFirst(r, word, ps[1..], k - 1);
        RewriteQualified(r, word, ps[1..]);
      }
    }
  }
}

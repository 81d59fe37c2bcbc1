/**
  The wire codec for federated plans: envelopes keyed by connector name, decoded on the
  other side into the stripped plan bound to that connector.

  Protobuf is taken as an injective pair: an envelope parses back to the payload it was
  made from, and bytes made by anyone else parse to whatever they happen to parse to.
 */
module FederationCodec {
  import opened Options
  import opened FlatNames
  import opened Plans
  import opened Stripping
  import opened StripPass

  datatype Error = Internal | NotImplemented | PlanError | SchemaError

  const CodecVersion: nat := 1
  const WarehouseKind := "warehouse"

  datatype ProviderPayload = ProviderPayload(connector: string, version: nat, kind: string)

  datatype ProviderBytes =
    | ProviderEnvelope(payload: ProviderPayload)
    | NativeBytes(id: nat, parsesAs: Option<ProviderPayload>)

  function ParseProvider(b: ProviderBytes): Option<ProviderPayload> {
    if b.ProviderEnvelope? then Some(b.payload) else b.parsesAs
  }

  datatype Executor = Executor(context: Option<string>)

  /** `native` lists the providers the wrapped codec serializes and what their bytes would parse as. */
  datatype Codec = Codec(
    registry: Option<map<string, Executor>>,
    warehouses: Option<set<string>>,
    native: map<nat, Option<ProviderPayload>>)

  /** A connector whose executor has this context. */
  ghost function FindName(registry: map<string, Executor>, context: string): (name: Option<string>)
    ensures name.Some? ==> name.value in registry && registry[name.value].context == Some(context)
    ensures name.None? ==> forall n :: n in registry ==> registry[n].context != Some(context)
  {
    if n :| n in registry && registry[n].context == Some(context) then Some(n) else None
  }

  // ----- Table providers ----------------------------------------------------------------

  predicate NamesWarehouse(c: Codec, t: TableRef) {
    c.warehouses.Some? && HasCatalog(t) && t.catalog in c.warehouses.value
  }

  ghost function EncodeProvider(c: Codec, t: TableRef, p: Provider): Result<ProviderBytes, Error> {
    if NamesWarehouse(c, t) then
      Ok(ProviderEnvelope(ProviderPayload(t.catalog, CodecVersion, WarehouseKind)))
    else if c.registry.Some? && p.SqlProvider? then
      if p.context.None? then Err(Internal)
      else
        var name := FindName(c.registry.value, p.context.value);
        if name.None? then Err(NotImplemented)
        else Ok(ProviderEnvelope(ProviderPayload(name.value, CodecVersion, "")))
    else if p.NativeProvider? && p.id in c.native then Ok(NativeBytes(p.id, c.native[p.id]))
    else Err(NotImplemented)
  }

  /** `Ok(None)` means the bytes are not a warehouse envelope and the next path is tried. */
  function DecodeWarehouse(warehouses: set<string>, b: ProviderBytes, t: TableRef): Result<Option<Provider>, Error> {
    var parsed := ParseProvider(b);
    if parsed.None? || parsed.value.version == 0 || parsed.value.kind != WarehouseKind then Ok(None)
    else if parsed.value.version != CodecVersion then Err(Internal)
    else if parsed.value.connector !in warehouses then Err(PlanError)
    else Ok(Some(WarehouseProvider(parsed.value.connector, if t.Bare? then "public" else t.schema, t.table)))
  }

  /** The remote source never sees the catalog. */
  function RemoteRef(t: TableRef): TableRef {
    if t.Bare? then Bare(t.table) else Partial(t.schema, t.table)
  }

  function DecodeSql(registry: map<string, Executor>, b: ProviderBytes, t: TableRef): Result<Option<Provider>, Error> {
    var parsed := ParseProvider(b);
    if parsed.None? || (parsed.value.connector == "" && parsed.value.version == 0) then Ok(None)
    else if parsed.value.version != CodecVersion then Err(Internal)
    else if parsed.value.connector !in registry then Err(PlanError)
    else Ok(Some(SqlProvider(registry[parsed.value.connector].context, RemoteRef(t))))
  }

  function DecodeProvider(c: Codec, b: ProviderBytes, t: TableRef): Result<Provider, Error> {
    var w := if c.warehouses.None? then Ok(None) else DecodeWarehouse(c.warehouses.value, b, t);
    if w.Err? then Err(w.error)
    else if w.value.Some? then Ok(w.value.value)
    else
      var s := if c.registry.None? then Ok(None) else DecodeSql(c.registry.value, b, t);
      if s.Err? then Err(s.error)
      else if s.value.Some? then Ok(s.value.value)
      else if b.NativeBytes? && b.id in c.native then Ok(NativeProvider(b.id))
      else Err(NotImplemented)
  }

  /** Native bytes that no envelope path mistakes for its own. */
  predicate NotMistaken(parsesAs: Option<ProviderPayload>) {
    parsesAs.None? || (parsesAs.value.connector == "" && parsesAs.value.version == 0)
  }

  ghost predicate NativeSafe(c: Codec) {
    forall id :: id in c.native ==> NotMistaken(c.native[id])
  }

  /** What comes out of the other side for a scan of `t` backed by `p`. */
  function Rebuilt(c: Codec, t: TableRef, p: Provider): Provider {
    if NamesWarehouse(c, t) then WarehouseProvider(t.catalog, t.schema, t.table)
    else if p.SqlProvider? then SqlProvider(p.context, RemoteRef(t))
    else p
  }

  /** With the same configuration on both sides, whatever encodes decodes, to the same source of data. */
  lemma ProviderRoundTrip(c: Codec, t: TableRef, p: Provider)
    requires NativeSafe(c)
    ensures EncodeProvider(c, t, p).Ok? ==>
              DecodeProvider(c, EncodeProvider(c, t, p).value, t) == Ok(Rebuilt(c, t, p))
  {
    assert "" != WarehouseKind;
  }

  /** A SQL envelope is never taken for a warehouse table, whatever the decoding side is configured with. */
  lemma SqlEnvelopeNeverWarehouse(c: Codec, dec: Codec, t: TableRef, t': TableRef, p: Provider)
    requires p.SqlProvider? && EncodeProvider(c, t, p).Ok? && !NamesWarehouse(c, t)
    ensures var d := DecodeProvider(dec, EncodeProvider(c, t, p).value, t'); d.Ok? ==> d.value.SqlProvider?
  {
    assert "" != WarehouseKind;
  }

  /**
    The SQL path does not look at the kind: a warehouse envelope is taken for a SQL source
    exactly when the decoding side has no warehouse registry and its connector registry has
    an entry under the warehouse's name.
   */
  lemma WarehouseEnvelopeTakenForSqlIff(dec: Codec, name: string, t: TableRef)
    ensures var d := DecodeProvider(dec, ProviderEnvelope(ProviderPayload(name, CodecVersion, WarehouseKind)), t);
            (d.Ok? && d.value.SqlProvider?)
            <==> dec.warehouses.None? && dec.registry.Some? && name in dec.registry.value
  {}

  // ----- Plans --------------------------------------------------------------------------

  /** The plan tree travels as it is; each scan's provider travels as bytes, in pre-order. */
  datatype WirePlan = WirePlan(tree: Plan, providers: seq<ProviderBytes>)

  datatype LogicalPayload = LogicalPayload(connector: string, inner: WirePlan, version: nat)

  datatype NodeBytes =
    | LogicalEnvelope(payload: LogicalPayload)
    | NativeNodeBytes(id: nat, parsesAs: Option<LogicalPayload>)

  function ParseNode(b: NodeBytes): Option<LogicalPayload> {
    if b.LogicalEnvelope? then Some(b.payload) else b.parsesAs
  }

  datatype ExtensionNode =
    | Federated(plan: Plan, connector: string)
    | NativeNode(id: nat)

  ghost function EncodeScans(c: Codec, scans: seq<Plan>): (r: Result<seq<ProviderBytes>, Error>)
    requires forall i :: 0 <= i < |scans| ==> scans[i].Scan?
    ensures r.Ok? ==> |r.value| == |scans|
  {
    if scans == [] then Ok([])
    else
      var first := EncodeProvider(c, scans[0].table, scans[0].source.provider);
      if first.Err? then Err(first.error)
      else
        var rest := EncodeScans(c, scans[1..]);
        if rest.Err? then rest else Ok([first.value] + rest.value)
  }

  /** The first federated scan that knows its context anchors the whole node. */
  function ContextOf(scans: seq<Plan>): Option<string>
    requires forall i :: 0 <= i < |scans| ==> scans[i].Scan?
  {
    if scans == [] then None
    else if scans[0].source.provider.SqlProvider? && scans[0].source.provider.context.Some?
    then scans[0].source.provider.context
    else ContextOf(scans[1..])
  }

  /** Replace the providers of a tree's scans, in pre-order. */
  function Fill(p: Plan, providers: seq<Provider>): (out: Plan)
    requires |providers| == |ScanNodes(p)|
    decreases p
  {
    match p
    case Scan(t, source, projection, filters, fetch, schema) =>
      Scan(t, Source(source.data, source.columns, providers[0]), projection, filters, fetch, schema)
    case SubqueryAlias(input, alias, schema) => SubqueryAlias(Fill(input, providers), alias, schema)
    case Projection(exprs, input, schema) => Projection(exprs, Fill(input, providers), schema)
    case Filter(e, input) => Filter(e, Fill(input, providers))
    case Aggregate(groups, aggs, input, schema) => Aggregate(groups, aggs, Fill(input, providers), schema)
    case Join(left, right, lk, rk, schema) =>
      var n := |ScanNodes(left)|;
      Join(Fill(left, providers[..n]), Fill(right, providers[n..]), lk, rk, schema)
  }

  function DecodeScans(c: Codec, scans: seq<Plan>, bytes: seq<ProviderBytes>): (r: Result<seq<Provider>, Error>)
    requires |bytes| == |scans| && forall i :: 0 <= i < |scans| ==> scans[i].Scan?
    ensures r.Ok? ==> |r.value| == |scans|
  {
    if scans == [] then Ok([])
    else
      var first := DecodeProvider(c, bytes[0], scans[0].table);
      if first.Err? then Err(first.error)
      else
        var rest := DecodeScans(c, scans[1..], bytes[1..]);
        if rest.Err? then rest else Ok([first.value] + rest.value)
  }

  function FillScans(scans: seq<Plan>, providers: seq<Provider>): (out: seq<Plan>)
    requires |providers| == |scans| && forall i :: 0 <= i < |scans| ==> scans[i].Scan?
    ensures |out| == |scans| && forall i :: 0 <= i < |out| ==> out[i].Scan?
    ensures forall i :: 0 <= i < |scans| ==>
              out[i].table == scans[i].table && out[i].source.provider == providers[i]
  {
    seq(|scans|, i requires 0 <= i < |scans| => FillScan(scans[i], providers[i]))
  }

  function FillScan(scan: Plan, provider: Provider): (out: Plan)
    requires scan.Scan?
    ensures out.Scan?
  {
    Scan(scan.table, Source(scan.source.data, scan.source.columns, provider),
         scan.projection, scan.filters, scan.fetch, scan.schema)
  }

  lemma {:induction false} FillKeepsShape(p: Plan, providers: seq<Provider>)
    requires |providers| == |ScanNodes(p)|
    ensures ScanNodes(Fill(p, providers)) == FillScans(ScanNodes(p), providers)
    ensures ScansBuildable(p) ==> ScansBuildable(Fill(p, providers))
    decreases p
  {
    match p
    case Scan(_, _, _, _, _, _) =>
    case SubqueryAlias(input, _, _) => FillKeepsShape(input, providers);
    case Projection(_, input, _) => FillKeepsShape(input, providers);
    case Filter(_, input) => FillKeepsShape(input, providers);
    case Aggregate(_, _, input, _) => FillKeepsShape(input, providers);
    case Join(left, right, _, _, _) =>
      var n := |ScanNodes(left)|;
      FillKeepsShape(left, providers[..n]);
      FillKeepsShape(right, providers[n..]);
      FillScansConcat(ScanNodes(left), ScanNodes(right), providers);
  }

  lemma FillScansConcat(a: seq<Plan>, b: seq<Plan>, providers: seq<Provider>)
    requires |providers| == |a| + |b|
    requires (forall i :: 0 <= i < |a| ==> a[i].Scan?) && (forall i :: 0 <= i < |b| ==> b[i].Scan?)
    ensures FillScans(a + b, providers) == FillScans(a, providers[..|a|]) + FillScans(b, providers[|a|..])
  {}

  ghost function EncodeNode(c: Codec, node: ExtensionNode): Result<NodeBytes, Error> {
    if c.registry.Some? && node.Federated? then
      var scans := ScanNodes(node.plan);
      var context := ContextOf(scans);
      if context.None? then Err(Internal)
      else
        var name := FindName(c.registry.value, context.value);
        if name.None? then Err(NotImplemented)
        else
          var providers := EncodeScans(c, scans);
          if providers.Err? then Err(providers.error)
          else Ok(LogicalEnvelope(LogicalPayload(name.value, WirePlan(node.plan, providers.value), CodecVersion)))
    else if node.NativeNode? then Ok(NativeNodeBytes(node.id, None))
    else Err(NotImplemented)
  }

  /**
    A payload whose provider count does not fit its tree, whose scans cannot be rebuilt or
    whose plan cannot be stripped does not decode.
   */
  function DecodeNode(c: Codec, b: NodeBytes): Result<ExtensionNode, Error> {
    var parsed := if c.registry.None? then None else ParseNode(b);
    if parsed.None? || (parsed.value.connector == "" && parsed.value.version == 0) then
      if b.NativeNodeBytes? then Ok(NativeNode(b.id)) else Err(NotImplemented)
    else if parsed.value.version != CodecVersion then Err(Internal)
    else if parsed.value.connector !in c.registry.value then Err(PlanError)
    else
      var tree, bytes := parsed.value.inner.tree, parsed.value.inner.providers;
      if |bytes| != |ScanNodes(tree)| || !ScansBuildable(tree) then Err(Internal)
      else
        var providers := DecodeScans(c, ScanNodes(tree), bytes);
        if providers.Err? then Err(providers.error)
        else
          FillKeepsShape(tree, providers.value);
          var stripped := TryStrip(Fill(tree, providers.value));
          if stripped.None? then Err(SchemaError) else Ok(Federated(stripped.value, parsed.value.connector))
  }

  // ----- What encodes and what decodes --------------------------------------------------

  /** Some connector has this context. */
  ghost predicate Registered(c: Codec, context: Option<string>) {
    && c.registry.Some? && context.Some?
    && exists name :: name in c.registry.value && c.registry.value[name].context == context
  }

  /** A warehouse name, a SQL source that some connector serves, or a provider the wrapped codec knows. */
  ghost predicate CanTravel(c: Codec, t: TableRef, p: Provider) {
    || (c.warehouses.Some? && t.Full? && t.catalog in c.warehouses.value)
    || (p.SqlProvider? && Registered(c, p.context))
    || (p.NativeProvider? && p.id in c.native)
  }

  lemma ProviderEncodesIff(c: Codec, t: TableRef, p: Provider)
    ensures EncodeProvider(c, t, p).Ok? <==> CanTravel(c, t, p)
    ensures EncodeProvider(c, t, p) == Err(Internal) <==>
            !CanTravel(c, t, p) && c.registry.Some? && p.SqlProvider? && p.context.None?
  {}

  lemma {:induction false} ScansEncodeIff(c: Codec, scans: seq<Plan>)
    requires forall i :: 0 <= i < |scans| ==> scans[i].Scan?
    ensures EncodeScans(c, scans).Ok? <==>
            forall i :: 0 <= i < |scans| ==> CanTravel(c, scans[i].table, scans[i].source.provider)
    decreases |scans|
  {
    if scans != [] {
      ProviderEncodesIff(c, scans[0].table, scans[0].source.provider);
      ScansEncodeIff(c, scans[1..]);
      assert forall i :: 0 < i < |scans| ==> scans[i] == scans[1..][i - 1];
    }
  }

  /** Scan `k` is the first SQL scan that knows its context. */
  predicate Anchors(scans: seq<Plan>, k: nat)
    requires k < |scans| && forall i :: 0 <= i < |scans| ==> scans[i].Scan?
  {
    && scans[k].source.provider.SqlProvider? && scans[k].source.provider.context.Some?
    && forall j :: 0 <= j < k && scans[j].source.provider.SqlProvider? ==> scans[j].source.provider.context.None?
  }

  lemma {:induction false} ContextIsTheAnchors(scans: seq<Plan>)
    requires forall i :: 0 <= i < |scans| ==> scans[i].Scan?
    ensures forall k :: 0 <= k < |scans| && Anchors(scans, k) ==> ContextOf(scans) == scans[k].source.provider.context
    ensures ContextOf(scans).None? <==> forall k :: 0 <= k < |scans| ==> !Anchors(scans, k)
    decreases |scans|
  {
    if scans != [] {
      var rest := scans[1..];
      ContextIsTheAnchors(rest);
      forall k | 0 <= k < |scans|
        ensures k > 0 && !Anchors(scans, 0) ==> (Anchors(scans, k) <==> Anchors(rest, k - 1))
      {
        if k > 0 && !Anchors(scans, 0) { ShiftAnchor(scans, k); }
      }
      if k :| 0 <= k < |rest| && Anchors(rest, k) {
        assert 0 <= k + 1 < |scans|;
        if !Anchors(scans, 0) { ShiftAnchor(scans, k + 1); }
      }
    }
  }

  lemma ShiftAnchor(scans: seq<Plan>, k: nat)
    requires 0 < k < |scans| && (forall i :: 0 <= i < |scans| ==> scans[i].Scan?) && !Anchors(scans, 0)
    ensures Anchors(scans, k) <==> Anchors(scans[1..], k - 1)
  {
    assert forall i :: 0 < i < |scans| ==> scans[i] == scans[1..][i - 1];
    if Anchors(scans[1..], k - 1) {
      forall j | 0 <= j < k && scans[j].source.provider.SqlProvider? ensures scans[j].source.provider.context.None? {
        if j > 0 { assert scans[j] == scans[1..][j - 1]; }
      }
    }
  }

  /**
    A federated node encodes if and only if there is a registry, its first SQL scan with a
    context has one that some connector carries, and every scan can travel; and it travels
    under that connector.
   */
  lemma NodeEncodesIff(c: Codec, plan: Plan, connector: string)
    ensures var scans := ScanNodes(plan);
            EncodeNode(c, Federated(plan, connector)).Ok? <==>
            && c.registry.Some?
            && (exists k :: 0 <= k < |scans| && Anchors(scans, k) && Registered(c, scans[k].source.provider.context))
            && (forall i :: 0 <= i < |scans| ==> CanTravel(c, scans[i].table, scans[i].source.provider))
    ensures var scans, r := ScanNodes(plan), EncodeNode(c, Federated(plan, connector));
            && (c.registry.None? ==> r == Err(NotImplemented))
            && (c.registry.Some? && (forall k :: 0 <= k < |scans| ==> !Anchors(scans, k)) ==> r == Err(Internal))
            && (forall k :: 0 <= k < |scans| && Anchors(scans, k) ==>
                  c.registry.Some? && !Registered(c, scans[k].source.provider.context) ==> r == Err(NotImplemented))
  {
    var scans := ScanNodes(plan);
    AnchorRegistered(c, scans);
    ScansEncodeIff(c, scans);
    NodeEncodes(c, plan, connector);
  }

  /** What encoding a federated node comes down to. */
  lemma NodeEncodes(c: Codec, plan: Plan, connector: string)
    ensures var scans, r := ScanNodes(plan), EncodeNode(c, Federated(plan, connector));
            && (r.Ok? <==> Registered(c, ContextOf(scans)) && EncodeScans(c, scans).Ok?)
            && (c.registry.None? ==> r == Err(NotImplemented))
            && (c.registry.Some? && ContextOf(scans).None? ==> r == Err(Internal))
            && (c.registry.Some? && ContextOf(scans).Some? && !Registered(c, ContextOf(scans)) ==>
                  r == Err(NotImplemented))
  {}

  lemma AnchorRegistered(c: Codec, scans: seq<Plan>)
    requires forall i :: 0 <= i < |scans| ==> scans[i].Scan?
    ensures ContextOf(scans).None? <==> forall k :: 0 <= k < |scans| ==> !Anchors(scans, k)
    ensures forall k :: 0 <= k < |scans| && Anchors(scans, k) ==> ContextOf(scans) == scans[k].source.provider.context
    ensures Registered(c, ContextOf(scans)) <==>
            exists k :: 0 <= k < |scans| && Anchors(scans, k) && Registered(c, scans[k].source.provider.context)
  {
    ContextIsTheAnchors(scans);
    if ContextOf(scans).Some? {
      var k :| 0 <= k < |scans| && Anchors(scans, k);
      assert ContextOf(scans) == scans[k].source.provider.context;
    }
  }

  /**
    An envelope decodes if and only if it has this codec's version and names a warehouse of
    the decoding side, when it is of that kind and there are warehouses, or a connector.
   */
  lemma EnvelopeDecodesIff(c: Codec, payload: ProviderPayload, t: TableRef)
    ensures DecodeProvider(c, ProviderEnvelope(payload), t).Ok? <==>
            && payload.version == 1
            && if c.warehouses.Some? && payload.kind == "warehouse" then payload.connector in c.warehouses.value
               else c.registry.Some? && payload.connector in c.registry.value
    ensures var d := DecodeProvider(c, ProviderEnvelope(payload), t);
            d.Ok? ==>
              if c.warehouses.Some? && payload.kind == "warehouse"
              then d.value == WarehouseProvider(payload.connector, if t.Bare? then "public" else t.schema, t.table)
              else d.value == SqlProvider(c.registry.value[payload.connector].context, Reduced(t))
  {}

  lemma {:induction false} ScansDecodeIff(c: Codec, scans: seq<Plan>, bytes: seq<ProviderBytes>)
    requires |bytes| == |scans| && forall i :: 0 <= i < |scans| ==> scans[i].Scan?
    ensures DecodeScans(c, scans, bytes).Ok? <==>
            forall i :: 0 <= i < |scans| ==> DecodeProvider(c, bytes[i], scans[i].table).Ok?
    ensures DecodeScans(c, scans, bytes).Ok? ==>
            forall i :: 0 <= i < |scans| ==>
              DecodeProvider(c, bytes[i], scans[i].table) == Ok(DecodeScans(c, scans, bytes).value[i])
    decreases |scans|
  {
    if scans != [] {
      ScansDecodeIff(c, scans[1..], bytes[1..]);
      assert forall i :: 0 < i < |scans| ==> scans[i] == scans[1..][i - 1] && bytes[i] == bytes[1..][i - 1];
    }
  }

  /**
    Whatever arrives as a node envelope: it decodes if and only if it has this codec's
    version, names a connector, brings one decodable provider for each scan, and can be
    stripped; and then it is bound to that connector.
   */
  lemma NodeDecodesIff(c: Codec, payload: LogicalPayload)
    ensures var d, scans := DecodeNode(c, LogicalEnvelope(payload)), ScanNodes(payload.inner.tree);
            var bytes := payload.inner.providers;
            && (d.Ok? <==>
                && c.registry.Some? && payload.version == 1 && payload.connector in c.registry.value
                && |bytes| == |scans| && ScansBuildable(payload.inner.tree)
                && (forall i :: 0 <= i < |scans| ==> DecodeProvider(c, bytes[i], scans[i].table).Ok?)
                && exists providers: seq<Provider> :: Provided(c, scans, bytes, providers)
                     && ScansBuildable(Fill(payload.inner.tree, providers))
                     && TryStrip(Fill(payload.inner.tree, providers)).Some?)
            && (d.Ok? ==> d.value.Federated? && d.value.connector == payload.connector)
  {
    var tree, bytes := payload.inner.tree, payload.inner.providers;
    var scans := ScanNodes(tree);
    if |bytes| == |scans| {
      ScansDecodeIff(c, scans, bytes);
      var decoded := DecodeScans(c, scans, bytes);
      if decoded.Ok? && ScansBuildable(tree) {
        FillKeepsShape(tree, decoded.value);
        assert Provided(c, scans, bytes, decoded.value);
        forall providers | Provided(c, scans, bytes, providers) ensures providers == decoded.value {
          forall i | 0 <= i < |scans| ensures providers[i] == decoded.value[i] {}
        }
      }
    }
  }

  /** The providers the bytes stand for, scan by scan. */
  ghost predicate Provided(c: Codec, scans: seq<Plan>, bytes: seq<ProviderBytes>, providers: seq<Provider>) {
    && |providers| == |bytes| == |scans|
    && forall i :: 0 <= i < |scans| ==>
         scans[i].Scan? && DecodeProvider(c, bytes[i], scans[i].table) == Ok(providers[i])
  }

  /**
    Bytes of the wrapped codec come back as its node if and only if no envelope is read into
    them: there is no registry, they do not parse, or they parse as an empty payload.
   */
  lemma NativeNodeDecodesIff(c: Codec, id: nat, parsesAs: Option<LogicalPayload>)
    ensures DecodeNode(c, NativeNodeBytes(id, parsesAs)) == Ok(NativeNode(id)) <==>
            || c.registry.None? || parsesAs.None?
            || (parsesAs.value.connector == "" && parsesAs.value.version == 0)
    ensures EncodeNode(c, NativeNode(id)).Ok?
            && DecodeNode(c, EncodeNode(c, NativeNode(id)).value) == Ok(NativeNode(id))
  {}

  // ----- Round trip ---------------------------------------------------------------------

  function RebuiltProviders(c: Codec, scans: seq<Plan>): (out: seq<Provider>)
    requires forall i :: 0 <= i < |scans| ==> scans[i].Scan?
    ensures |out| == |scans|
    ensures forall i :: 0 <= i < |scans| ==> out[i] == Rebuilt(c, scans[i].table, scans[i].source.provider)
  {
    seq(|scans|, i requires 0 <= i < |scans| => Rebuilt(c, scans[i].table, scans[i].source.provider))
  }

  lemma {:induction false} ScansRoundTrip(c: Codec, scans: seq<Plan>)
    requires NativeSafe(c) && forall i :: 0 <= i < |scans| ==> scans[i].Scan?
    requires EncodeScans(c, scans).Ok?
    ensures DecodeScans(c, scans, EncodeScans(c, scans).value) == Ok(RebuiltProviders(c, scans))
    decreases |scans|
  {
    if scans != [] {
      ProviderRoundTrip(c, scans[0].table, scans[0].source.provider);
      ScansRoundTrip(c, scans[1..]);
      assert EncodeScans(c, scans).value[1..] == EncodeScans(c, scans[1..]).value;
      assert RebuiltProviders(c, scans) == [RebuiltProviders(c, scans)[0]] + RebuiltProviders(c, scans[1..]);
    }
  }

  ghost predicate ContextsDistinct(registry: map<string, Executor>) {
    forall a, b ::
      (a in registry && b in registry && registry[a].context.Some? && registry[a].context == registry[b].context)
      ==> a == b
  }

  /** Scan by scan, only the name is reduced. */
  predicate Renamed(scans: seq<Plan>, after: seq<Plan>) {
    && |after| == |scans|
    && forall i :: 0 <= i < |scans| ==>
         && scans[i].Scan? && after[i].Scan?
         && after[i].table == Reduced(scans[i].table) && after[i].source == scans[i].source
  }

  lemma RenamedConcat(a: seq<Plan>, a': seq<Plan>, b: seq<Plan>, b': seq<Plan>)
    requires Renamed(a, a') && Renamed(b, b')
    ensures Renamed(a + b, a' + b')
  {}

  /** Scan `i` of a stripped plan is scan `i` of the plan with its name reduced and its provider kept. */
  lemma {:induction false} StrippedScans(p: Plan, ps: seq<FlatNamePrefix>)
    requires Usable(ps) && ScansBuildable(p)
    ensures Renamed(ScanNodes(p), ScanNodes(Strip(p, ps)))
    decreases p
  {
    match p
    case Scan(_, _, _, _, _, _) =>
    case SubqueryAlias(input, _, _) => StrippedScans(input, ps);
    case Projection(_, input, _) => StrippedScans(input, ps);
    case Filter(_, input) => StrippedScans(input, ps);
    case Aggregate(_, _, input, _) => StrippedScans(input, ps);
    case Join(left, right, _, _, _) =>
      StrippedScans(left, ps);
      StrippedScans(right, ps);
      assert ScanNodes(Strip(p, ps)) == ScanNodes(Strip(left, ps)) + ScanNodes(Strip(right, ps));
      RenamedConcat(ScanNodes(left), ScanNodes(Strip(left, ps)), ScanNodes(right), ScanNodes(Strip(right, ps)));
  }

  /**
    Encode then decode under one configuration: decoding succeeds exactly when the pass does,
    and gives the stripped inner plan, bound to the one connector that has the first
    federated scan's context, with every SQL scan's remote reference equal to its stripped
    table name.
   */
  lemma NodeRoundTrip(c: Codec, plan: Plan, connector: string)
    requires NativeSafe(c) && c.registry.Some? && ContextsDistinct(c.registry.value) && ScansBuildable(plan)
    requires EncodeNode(c, Federated(plan, connector)).Ok?
    ensures var decoded := DecodeNode(c, EncodeNode(c, Federated(plan, connector)).value);
            var filled := Fill(plan, RebuiltProviders(c, ScanNodes(plan)));
            && ScansBuildable(filled) && ContextOf(ScanNodes(plan)).Some?
            && (TryStrip(filled).None? ==> decoded == Err(SchemaError))
            && (TryStrip(filled).Some? ==>
                  && decoded.Ok? && decoded.value.Federated? && decoded.value.plan == StripPlan(filled)
                  && decoded.value.connector in c.registry.value
                  && (forall name :: name in c.registry.value
                        && c.registry.value[name].context == ContextOf(ScanNodes(plan))
                        <==> name == decoded.value.connector)
                  && (forall i :: 0 <= i < |ScanNodes(decoded.value.plan)| ==>
                        var s := ScanNodes(decoded.value.plan)[i];
                        s.source.provider.SqlProvider? ==> s.source.provider.remote == s.table)
                  && |ScanNodes(decoded.value.plan)| == |ScanNodes(plan)|)
  {
    ScansRoundTrip(c, ScanNodes(plan));
    FilledScans(c, plan);
  }

  /** Every SQL scan of the rebuilt and stripped plan refers to its own stripped name. */
  lemma FilledScans(c: Codec, plan: Plan)
    requires ScansBuildable(plan)
    ensures var filled := Fill(plan, RebuiltProviders(c, ScanNodes(plan)));
            && ScansBuildable(filled)
            && |ScanNodes(StripPlan(filled))| == |ScanNodes(plan)|
            && (forall i :: 0 <= i < |ScanNodes(StripPlan(filled))| ==>
                  var s := ScanNodes(StripPlan(filled))[i];
                  s.source.provider.SqlProvider? ==> s.source.provider.remote == s.table)
  {
    var rebuilt := RebuiltProviders(c, ScanNodes(plan));
    FillKeepsShape(plan, rebuilt);
    var filled := Fill(plan, rebuilt);
    StrippedScans(filled, Prefixes(filled));
  }

  /** A scan of a federated source whose catalog names a warehouse is shipped as a warehouse table. */
  lemma WarehouseCatalogCapturesSql(c: Codec, t: TableRef, p: Provider)
    requires p.SqlProvider? && NativeSafe(c)
    requires EncodeProvider(c, t, p).Ok?
    ensures DecodeProvider(c, EncodeProvider(c, t, p).value, t).Ok?
    ensures DecodeProvider(c, EncodeProvider(c, t, p).value, t).value.SqlProvider? <==> !NamesWarehouse(c, t)
  {
    ProviderRoundTrip(c, t, p);
  }
}

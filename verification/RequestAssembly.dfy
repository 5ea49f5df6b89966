/** Assembly of the outgoing request headers, and what every built request looks like. */
module RequestAssembly {
  import opened Prelude
  import opened Headers
  import opened Request
  import F = Forwarded
  import R = Response

  // ---- Decimal text of a length ----

  function Digit(n: nat): char
    requires n < 10
  {
    (n + 48) as char
  }

  function Decimal(n: nat): (s: string)
    ensures s != "" && R.AllDigits(s) && R.DecimalValue(s) == n
  {
    if n < 10 then
      var s := [Digit(n)];
      assert s[..0] == "";
      s
    else
      var s := Decimal(n / 10) + [Digit(n % 10)];
      assert s[..|s| - 1] == Decimal(n / 10);
      s
  }

  // ---- Assembly ----

  datatype Shape = Shape(includeLength: bool, includeHost: bool, addTe: bool)

  function Optional(present: bool, name: string, value: string): seq<Header> {
    if present then [Header(name, value)] else []
  }

  predicate Contains(hs: seq<Header>, name: string) { exists h <- hs :: h.name == name }

  function ChainHeader(v: F.Value, f: Family): seq<Header> {
    if v.Present? then [Header(FamilyName(f), v.text)] else []
  }

  function ChainHeaders(chains: PerFamily<F.Value>): seq<Header> {
    ChainHeader(chains.forwarded, Forwarded) + ChainHeader(chains.xFor, XForwardedFor)
    + ChainHeader(chains.xProto, XForwardedProto) + ChainHeader(chains.xHost, XForwardedHost)
  }

  function LengthHeader(c: Context, shape: Shape): seq<Header> {
    if shape.includeLength && c.contentLength.Some? && c.contentLength.value > 0
    then [Header("content-length", Decimal(c.contentLength.value))] else []
  }

  /** Request id and trace context, unless the request already carries them. */
  function TraceHeaders(c: Context, before: seq<Header>): seq<Header> {
    Optional(!Contains(before, "x-request-id"), "x-request-id", Decimal(c.requestId))
    + (if c.traceparent.Some? && !Contains(before, "traceparent")
       then [Header("traceparent", c.traceparent.value)] else [])
  }

  datatype BuildError = InvalidMethod | InvalidHeader | InvalidUri | BuilderFailed

  datatype Built = Sent(headers: seq<Header>) | Refused(error: BuildError)

  /** Whether the builder's own trace context cannot be written. */
  predicate BadTrace(c: Context) { c.traceparent.Some? && !R.Readable(c.traceparent.value) }

  /**
    apply_request_header_assembly and the final build. A host the builder cannot take makes it
    fail at the end, and until then it answers as if it held no header.
   */
  function Assemble(c: Context, r: Resolved, shape: Shape): Built {
    var framed := r.passthrough + Optional(shape.includeHost, "host", r.host) + LengthHeader(c, shape);
    if shape.includeHost && !R.Readable(r.host) then Refused(if BadTrace(c) then BuildError.InvalidHeader else BuilderFailed)
    else if BadTrace(c) && !Contains(framed, "traceparent") then Refused(BuildError.InvalidHeader)
    else Sent(framed + TraceHeaders(c, framed) + ChainHeaders(r.chains) + Optional(shape.addTe, "te", "trailers"))
  }

  // ---- Values sent under one name ----

  function ValuesOf(hs: seq<Header>, name: string): seq<string> {
    if hs == [] then []
    else
      var last := hs[|hs| - 1];
      ValuesOf(hs[..|hs| - 1], name) + (if last.name == name then [last.value] else [])
  }

  lemma {:induction false} ValuesConcat(a: seq<Header>, b: seq<Header>, name: string)
    ensures ValuesOf(a + b, name) == ValuesOf(a, name) + ValuesOf(b, name)
    decreases |b|
  {
    if b == [] {
      assert a + b == a;
    } else {
      var init := b[..|b| - 1];
      ValuesConcat(a, init, name);
      assert (a + b)[..|a + b| - 1] == a + init;
    }
  }

  lemma ValuesOne(h: Header, name: string)
    ensures ValuesOf([h], name) == if h.name == name then [h.value] else []
  {
    assert [h][..0] == [];
  }

  lemma {:induction false} ValuesNone(hs: seq<Header>, name: string)
    requires forall h <- hs :: h.name != name
    ensures ValuesOf(hs, name) == []
  {
    if hs == [] {
    } else {
      assert hs[|hs| - 1] in hs;
      forall h | h in hs[..|hs| - 1] ensures h in hs {
      }
      ValuesNone(hs[..|hs| - 1], name);
    }
  }

  // ---- What passes through ----

  lemma {:induction false} KeptIsSomeFate(fates: seq<Fate>, h: Header)
    requires h in KeptOf(fates)
    ensures Kept(h) in fates
  {
    if fates == [] {
    } else {
      var n := |fates| - 1;
      assert fates == fates[..n] + [fates[n]];
      if fates[n] != Kept(h) {
        KeptIsSomeFate(fates[..n], h);
      }
    }
  }

  /** A header that passes the inbound filter is none the filter must drop. */
  lemma InboundKeptClean(c: Context, upgrade: bool, h: Header)
    requires h in KeptOf(Fates(c, InboundTokens(c.headers), upgrade))
    ensures h.name != "host" && !StripRequest(h.name, InboundTokens(c.headers), upgrade)
  {
    hide InboundTokens, StripRequest;
    var fates := Fates(c, InboundTokens(c.headers), upgrade);
    KeptIsSomeFate(fates, h);
    var i :| 0 <= i < |fates| && fates[i] == Kept(h);
    assert FateOf(c.headers[i], c.mutations, InboundTokens(c.headers), upgrade) == Kept(h);
  }

  lemma MutationKeptClean(c: Context, upgrade: bool, h: Header)
    requires h in KeptOf(MutationFates(c, upgrade))
    ensures h.name != "host" && !StripProxy(h.name, upgrade)
  {
    hide StripProxy;
    var fates := MutationFates(c, upgrade);
    KeptIsSomeFate(fates, h);
    var i :| 0 <= i < |fates| && fates[i] == Kept(h);
    assert MutationFate(c.mutations[i], upgrade) == Kept(h);
  }

  /** Names that nothing inbound and no mutation may carry through. */
  predicate Reserved(name: string, upgrade: bool) { name == "host" || StripProxy(name, upgrade) }

  lemma StripGrows(name: string, tokens: set<string>, upgrade: bool)
    requires StripProxy(name, upgrade)
    ensures StripRequest(name, tokens, upgrade)
  {
  }

  lemma PassthroughReserved(c: Context, upgrade: bool, r: Resolved, name: string)
    requires ResolvedBy(c, upgrade, r) && Reserved(name, upgrade)
    ensures ValuesOf(r.passthrough, name) == []
  {
    hide StripProxy, StripRequest, InboundTokens, FamilyValues, ChainCarries, HostOf;
    forall h | h in r.passthrough ensures h.name != name {
      if h in KeptOf(Fates(c, InboundTokens(c.headers), upgrade)) {
        InboundKeptClean(c, upgrade, h);
        if StripProxy(h.name, upgrade) {
          StripGrows(h.name, InboundTokens(c.headers), upgrade);
        }
      } else {
        MutationKeptClean(c, upgrade, h);
      }
    }
    ValuesNone(r.passthrough, name);
  }

  // ---- What is added ----

  function OneIf(present: bool, value: string): seq<string> { if present then [value] else [] }

  lemma ValuesOptional(present: bool, own: string, value: string, name: string)
    ensures ValuesOf(Optional(present, own, value), name) == OneIf(present && own == name, value)
  {
    ValuesOne(Header(own, value), name);
  }

  lemma ValuesChains(chains: PerFamily<F.Value>, name: string)
    ensures FamilyOf(name).None? ==> ValuesOf(ChainHeaders(chains), name) == []
    ensures FamilyOf(name).Some? ==>
              var v := chains.Get(FamilyOf(name).value);
              ValuesOf(ChainHeaders(chains), name) == if v.Present? then [v.text] else []
  {
    var a, b := ChainHeader(chains.forwarded, Forwarded), ChainHeader(chains.xFor, XForwardedFor);
    var d, e := ChainHeader(chains.xProto, XForwardedProto), ChainHeader(chains.xHost, XForwardedHost);
    hide ValuesOf, ChainHeader, FamilyOf;
    ValuesConcat(a + b + d, e, name);
    ValuesConcat(a + b, d, name);
    ValuesConcat(a, b, name);
    ValuesChain(chains.forwarded, Forwarded, name);
    ValuesChain(chains.xFor, XForwardedFor, name);
    ValuesChain(chains.xProto, XForwardedProto, name);
    ValuesChain(chains.xHost, XForwardedHost, name);
  }

  lemma ValuesChain(v: F.Value, f: Family, name: string)
    ensures ValuesOf(ChainHeader(v, f), name)
            == if v.Present? && FamilyOf(name) == Some(f) then [v.text] else []
  {
    if v.Present? {
      ValuesOne(Header(FamilyName(f), v.text), name);
      assert FamilyOf(name) == Some(f) <==> FamilyName(f) == name;
    }
  }

  lemma ValuesTrace(c: Context, before: seq<Header>, name: string)
    requires name != "x-request-id" && name != "traceparent"
    ensures ValuesOf(TraceHeaders(c, before), name) == []
  {
    forall h | h in TraceHeaders(c, before) ensures h.name != name {
    }
    ValuesNone(TraceHeaders(c, before), name);
  }

  function Framed(c: Context, r: Resolved, shape: Shape): seq<Header> {
    r.passthrough + Optional(shape.includeHost, "host", r.host) + LengthHeader(c, shape)
  }

  /** Under each name the request carries what passes through, and then what the proxy adds. */
  lemma AssembledValues(c: Context, r: Resolved, shape: Shape, out: seq<Header>, name: string)
    requires Assemble(c, r, shape) == Sent(out)
    ensures ValuesOf(out, name)
            == ValuesOf(Framed(c, r, shape), name)
               + ValuesOf(TraceHeaders(c, Framed(c, r, shape)), name)
               + ValuesOf(ChainHeaders(r.chains), name)
               + OneIf(shape.addTe && "te" == name, "trailers")
    ensures ValuesOf(Framed(c, r, shape), name)
            == ValuesOf(r.passthrough, name)
               + OneIf(shape.includeHost && "host" == name, r.host)
               + ValuesOf(LengthHeader(c, shape), name)
  {
    hide ValuesOf, ChainHeaders, LengthHeader, TraceHeaders, Optional, BadTrace, Contains;
    var host, te := Optional(shape.includeHost, "host", r.host), Optional(shape.addTe, "te", "trailers");
    var framed := Framed(c, r, shape);
    FramedValues(r.passthrough, host, LengthHeader(c, shape), name);
    TailValues(framed, TraceHeaders(c, framed), ChainHeaders(r.chains), te, name);
    ValuesOptional(shape.includeHost, "host", r.host, name);
    ValuesOptional(shape.addTe, "te", "trailers", name);
  }

  /** Under a reserved name the request carries only what the proxy itself adds. */
  lemma ReservedValues(c: Context, upgrade: bool, r: Resolved, shape: Shape, out: seq<Header>, name: string)
    requires ResolvedBy(c, upgrade, r) && Reserved(name, upgrade) && name != "x-request-id" && name != "traceparent"
    requires Assemble(c, r, shape) == Sent(out)
    ensures ValuesOf(out, name)
            == OneIf(shape.includeHost && "host" == name, r.host)
               + ValuesOf(LengthHeader(c, shape), name)
               + ValuesOf(ChainHeaders(r.chains), name)
               + OneIf(shape.addTe && "te" == name, "trailers")
  {
    PassthroughReserved(c, upgrade, r, name);
    hide ValuesOf, Reserved, ResolvedBy, ChainHeaders, LengthHeader, TraceHeaders, Assemble, Framed, OneIf;
    AssembledValues(c, r, shape, out, name);
    ValuesTrace(c, Framed(c, r, shape), name);
    OnlyAdded(OneIf(shape.includeHost && "host" == name, r.host), ValuesOf(LengthHeader(c, shape), name),
              ValuesOf(ChainHeaders(r.chains), name), OneIf(shape.addTe && "te" == name, "trailers"));
  }

  lemma OnlyAdded(host: seq<string>, length: seq<string>, chains: seq<string>, te: seq<string>)
    ensures ([] + host + length) + [] + chains + te == host + length + chains + te
  {
    assert [] + host == host && host + length + [] == host + length;
  }

  lemma FramedValues(pass: seq<Header>, host: seq<Header>, length: seq<Header>, name: string)
    ensures ValuesOf(pass + host + length, name) == ValuesOf(pass, name) + ValuesOf(host, name) + ValuesOf(length, name)
  {
    hide ValuesOf;
    ValuesConcat(pass + host, length, name);
    ValuesConcat(pass, host, name);
  }

  lemma TailValues(framed: seq<Header>, trace: seq<Header>, chains: seq<Header>, te: seq<Header>, name: string)
    ensures ValuesOf(framed + trace + chains + te, name)
            == ValuesOf(framed, name) + ValuesOf(trace, name) + ValuesOf(chains, name) + ValuesOf(te, name)
  {
    hide ValuesOf;
    ValuesConcat(framed + trace + chains, te, name);
    ValuesConcat(framed + trace, chains, name);
    ValuesConcat(framed, trace, name);
  }

  lemma ValuesLength(c: Context, shape: Shape, name: string)
    ensures ValuesOf(LengthHeader(c, shape), name)
            == if shape.includeLength && c.contentLength.Some? && c.contentLength.value > 0 && name == "content-length"
               then [Decimal(c.contentLength.value)] else []
  {
    if LengthHeader(c, shape) != [] {
      ValuesOne(LengthHeader(c, shape)[0], name);
    }
  }

  // ---- The HTTP/1 request ----

  function H1Shape(upgrade: bool): Shape { Shape(true, true, !upgrade) }

  /** The values an HTTP/1 request carries under one reserved name. */
  function H1Reserved(c: Context, upgrade: bool, r: Resolved, name: string): seq<string> {
    if name == "host" then [r.host]
    else if name == "content-length" then
      if c.contentLength.Some? && c.contentLength.value > 0 then [Decimal(c.contentLength.value)] else []
    else if FamilyOf(name).Some? then
      var v := r.chains.Get(FamilyOf(name).value);
      if v.Present? then [v.text] else []
    else if name == "te" && !upgrade then ["trailers"]
    else []
  }

  /**
    Exactly one Host; at most one Content-Length, with the known length; at most one of each
    forwarding header; no hop-by-hop header but the proxy's own TE, or Connection and Upgrade in
    upgrade mode. No inbound header or mutation contributes to any of these.
   */
  lemma H1ReservedNames(c: Context, upgrade: bool, r: Resolved, out: seq<Header>, name: string)
    requires ResolvedBy(c, upgrade, r) && Assemble(c, r, H1Shape(upgrade)) == Sent(out) && Reserved(name, upgrade)
    ensures ValuesOf(out, name) == H1Reserved(c, upgrade, r, name)
  {
    NotTraceName(name, upgrade);
    NamesDistinct(name);
    hide ValuesOf, Reserved, ResolvedBy, Assemble, ChainHeaders, LengthHeader, FamilyOf;
    ReservedValues(c, upgrade, r, H1Shape(upgrade), out, name);
    ValuesLength(c, H1Shape(upgrade), name);
    ValuesChains(r.chains, name);
  }

  lemma NamesDistinct(name: string)
    ensures FamilyOf(name).Some? ==> name != "host" && name != "content-length" && name != "te"
    ensures name == "host" ==> name != "content-length" && name != "te"
    ensures name == "content-length" ==> name != "te"
  {
  }

  lemma NotTraceName(name: string, upgrade: bool)
    requires Reserved(name, upgrade)
    ensures name != "x-request-id" && name != "traceparent"
  {
  }

  /** The kept inbound headers come first, in their order, then the mutations. */
  lemma PassthroughLeads(c: Context, r: Resolved, shape: Shape, out: seq<Header>)
    requires Assemble(c, r, shape) == Sent(out)
    ensures r.passthrough <= out
  {
  }

  /** A kept header stands behind exactly the kept headers before it. */
  lemma {:induction false} KeptAt(fates: seq<Fate>, i: nat)
    requires i < |fates| && fates[i].Kept?
    ensures |KeptOf(fates[..i])| < |KeptOf(fates)| && KeptOf(fates)[|KeptOf(fates[..i])|] == fates[i].header
  {
    var n := |fates| - 1;
    if i < n {
      KeptAt(fates[..n], i);
      assert fates[..n][..i] == fates[..i];
    }
  }

  lemma {:induction false} KeptGrows(fates: seq<Fate>, i: nat, j: nat)
    requires i < j <= |fates| && fates[i].Kept?
    ensures |KeptOf(fates[..i])| < |KeptOf(fates[..j])|
  {
    assert fates[..j][..j - 1] == fates[..j - 1];
    if i < j - 1 {
      KeptGrows(fates, i, j - 1);
    }
  }

  /** A header the proxy has no reason to touch. */
  ghost predicate Ordinary(h: Inbound, c: Context, upgrade: bool) {
    && h.name != "" && (forall x <- h.name :: NameChar(x)) && F.Legal(h.value)
    && !Mutated(h.name, c.mutations) && Lower(h.name) != "host"
    && !StripRequest(Lower(h.name), InboundTokens(c.headers), upgrade)
  }

  /**
    Every ordinary inbound header is sent with its value, and any two in the order they came.
   */
  lemma OrdinaryHeadersSent(c: Context, upgrade: bool, r: Resolved, shape: Shape, out: seq<Header>, i: nat, j: nat)
    requires ResolvedBy(c, upgrade, r) && Assemble(c, r, shape) == Sent(out) && i <= j < |c.headers|
    requires Ordinary(c.headers[i], c, upgrade) && Ordinary(c.headers[j], c, upgrade)
    ensures exists p, q :: 0 <= p <= q < |out| && (i < j ==> p < q)
              && out[p] == Header(Lower(c.headers[i].name), c.headers[i].value)
              && out[q] == Header(Lower(c.headers[j].name), c.headers[j].value)
  {
    hide FateOf, Ordinary, InboundTokens, Assemble, KeptOf, ResolvedBy;
    var fates := Fates(c, InboundTokens(c.headers), upgrade);
    OrdinaryKept(c.headers[i], c, upgrade);
    OrdinaryKept(c.headers[j], c, upgrade);
    KeptAt(fates, i);
    KeptAt(fates, j);
    if i < j {
      KeptGrows(fates, i, j);
    }
    PassthroughLeads(c, r, shape, out);
    PassthroughIs(c, upgrade, r);
    InPrefix(out, r.passthrough, KeptOf(fates), |KeptOf(fates[..i])|);
    InPrefix(out, r.passthrough, KeptOf(fates), |KeptOf(fates[..j])|);
  }

  lemma PassthroughIs(c: Context, upgrade: bool, r: Resolved)
    requires ResolvedBy(c, upgrade, r)
    ensures KeptOf(Fates(c, InboundTokens(c.headers), upgrade)) <= r.passthrough
  {
  }

  lemma InPrefix(out: seq<Header>, pass: seq<Header>, kept: seq<Header>, p: nat)
    requires kept <= pass <= out && p < |kept|
    ensures out[p] == kept[p]
  {
  }

  lemma ColonIsNoNameChar()
    ensures !NameChar(':')
  {
  }

  lemma FamilyIsStripped(name: string, tokens: set<string>, upgrade: bool)
    requires FamilyOf(name).Some?
    ensures StripRequest(name, tokens, upgrade)
  {
  }

  lemma OrdinaryKept(h: Inbound, c: Context, upgrade: bool)
    requires Ordinary(h, c, upgrade)
    ensures FateOf(h, c.mutations, InboundTokens(c.headers), upgrade) == Kept(Header(Lower(h.name), h.value))
  {
    hide Lower, InboundTokens, Mutated, NameChar, StripRequest, FamilyOf, F.Legal;
    ColonIsNoNameChar();
    assert h.name[0] in h.name;
    if FamilyOf(Lower(h.name)).Some? {
      FamilyIsStripped(Lower(h.name), InboundTokens(c.headers), upgrade);
    }
  }

  /**
    An auth header the proxy sets is sent whatever the client lists in Connection: only its own
    name decides.
   */
  lemma MutationSent(c: Context, upgrade: bool, r: Resolved, shape: Shape, out: seq<Header>, i: nat)
    requires ResolvedBy(c, upgrade, r) && Assemble(c, r, shape) == Sent(out)
    requires i < |c.mutations| && MutationFate(c.mutations[i], upgrade).Kept?
    ensures MutationFate(c.mutations[i], upgrade).header in out
  {
    KeptAt(MutationFates(c, upgrade), i);
    PassthroughLeads(c, r, shape, out);
    assert MutationFate(c.mutations[i], upgrade).header in r.passthrough;
    assert r.passthrough == out[..|r.passthrough|];
  }
}

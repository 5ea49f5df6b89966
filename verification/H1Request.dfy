/**
  The HTTP/1 request as the upstream sees it, name by name (crates/bridge/src/h3_to_h1.rs): which
  values of which party are sent under each header name, and when no request is built.
 */
module H1Request {
  import opened Prelude
  import opened Headers
  import opened Request
  import opened RequestAssembly
  import F = Forwarded
  import R = Response

  // ---- What each party asks for under one name ----

  /** The client's values under a lower-case name, in order. */
  function SentAs(hs: seq<Inbound>, name: string): seq<string> {
    if hs == [] then []
    else
      var last := hs[|hs| - 1];
      SentAs(hs[..|hs| - 1], name) + OneIf(Lower(last.name) == name, last.value)
  }

  /** The values the auth mutations set under a lower-case name, in order. */
  function SetAs(ms: seq<Mutation>, name: string): seq<string> {
    if ms == [] then []
    else
      var last := ms[|ms| - 1];
      SetAs(ms[..|ms| - 1], name)
        + (if last.value.Some? && Lower(last.name) == name then [last.value.value] else [])
  }

  /**
    A name under which nothing of the client's is sent: one that some mutation names, if only to
    remove it, or one that the client lists in Connection, but for Connection and Upgrade themselves
    in upgrade mode.
   */
  ghost predicate Withheld(c: Context, upgrade: bool, name: string) {
    Mutated(name, c.mutations) || (name in InboundTokens(c.headers) && !(upgrade && IsUpgradeName(name)))
  }

  ghost function OwnValues(c: Context, upgrade: bool, name: string): seq<string> {
    (if Withheld(c, upgrade, name) then [] else SentAs(c.headers, name)) + SetAs(c.mutations, name)
  }

  /** A header name in the form in which it is sent. */
  predicate LegalName(name: string) { NameOf(name) == Some(name) }

  // ---- Inbound headers ----

  lemma SameMutated(a: string, b: string, ms: seq<Mutation>)
    requires Lower(a) == Lower(b)
    ensures Mutated(a, ms) <==> Mutated(b, ms)
  {
    hide Lower;
  }

  lemma LowerKeepsColon(s: string)
    requires s != ""
    ensures Lower(s) != "" && (s[0] == ':' <==> Lower(s)[0] == ':')
  {
  }

  lemma LegalIsLower(name: string)
    requires LegalName(name)
    ensures Lower(name) == name && name != "" && name[0] != ':'
  {
    hide Lower;
    ColonIsNoNameChar();
    assert name[0] in name;
  }

  lemma OpenNameNotFamily(name: string, upgrade: bool)
    requires !Reserved(name, upgrade)
    ensures FamilyOf(name).None? && name != "host"
  {
  }

  /** Under an open name only the client's own Connection tokens make the filter drop a header. */
  lemma StripOpen(name: string, tokens: set<string>, upgrade: bool)
    requires !Reserved(name, upgrade)
    ensures StripRequest(name, tokens, upgrade) <==> name in tokens && !(upgrade && IsUpgradeName(name))
  {
  }

  lemma KeptAsNamed(h: Inbound, ms: seq<Mutation>, tokens: set<string>, upgrade: bool)
    ensures var f := FateOf(h, ms, tokens, upgrade); f.Kept? ==> f.header == Header(Lower(h.name), h.value)
  {
    hide Lower, Mutated, NameChar, FamilyOf, F.Legal, StripRequest;
  }

  lemma FateOfNamed(h: Inbound, ms: seq<Mutation>, tokens: set<string>, upgrade: bool)
    requires LegalName(Lower(h.name)) && !Reserved(Lower(h.name), upgrade)
    requires !FateOf(h, ms, tokens, upgrade).Invalid?
    ensures FateOf(h, ms, tokens, upgrade).Kept?
            <==> !Mutated(h.name, ms) && !StripRequest(Lower(h.name), tokens, upgrade)
  {
    LegalIsLower(Lower(h.name));
    OpenNameNotFamily(Lower(h.name), upgrade);
    LowerKeepsColon(h.name);
    hide Lower, Mutated, NameChar, FamilyOf, F.Legal, StripRequest, Reserved, LegalName;
  }

  /** A header that is not refused is kept under `name` exactly when it has that name and is not withheld. */
  lemma KeptUnder(h: Inbound, c: Context, upgrade: bool, name: string)
    requires LegalName(name) && !Reserved(name, upgrade)
    requires !FateOf(h, c.mutations, InboundTokens(c.headers), upgrade).Invalid?
    ensures var f := FateOf(h, c.mutations, InboundTokens(c.headers), upgrade);
            && (f.Kept? && f.header.name == name <==> Lower(h.name) == name && !Withheld(c, upgrade, name))
            && (f.Kept? ==> f.header.value == h.value)
  {
    hide FateOf, Lower, InboundTokens, Mutated, LegalName, Reserved, StripRequest;
    var tokens := InboundTokens(c.headers);
    KeptAsNamed(h, c.mutations, tokens, upgrade);
    if Lower(h.name) == name {
      LegalIsLower(name);
      SameMutated(h.name, name, c.mutations);
      FateOfNamed(h, c.mutations, tokens, upgrade);
      StripOpen(name, tokens, upgrade);
    }
  }

  lemma {:induction false} KeptValues(c: Context, upgrade: bool, name: string, k: nat)
    requires LegalName(name) && !Reserved(name, upgrade) && k <= |c.headers|
    requires !AnyInvalid(Fates(c, InboundTokens(c.headers), upgrade))
    ensures ValuesOf(KeptOf(Fates(c, InboundTokens(c.headers), upgrade)[..k]), name)
            == if Withheld(c, upgrade, name) then [] else SentAs(c.headers[..k], name)
  {
    hide FateOf, Withheld, InboundTokens, Reserved, LegalName, Lower;
    var fates := Fates(c, InboundTokens(c.headers), upgrade);
    if k == 0 {
    } else {
      KeptValues(c, upgrade, name, k - 1);
      assert fates[k - 1] in fates;
      KeptUnder(c.headers[k - 1], c, upgrade, name);
      assert fates[..k][..k - 1] == fates[..k - 1] && c.headers[..k][..k - 1] == c.headers[..k - 1];
      KeptOneMore(fates, k, name);
    }
  }

  lemma KeptOneMore(fates: seq<Fate>, k: nat, name: string)
    requires 0 < k <= |fates|
    ensures var f := fates[k - 1];
            ValuesOf(KeptOf(fates[..k]), name)
            == ValuesOf(KeptOf(fates[..k - 1]), name)
               + (if f.Kept? && f.header.name == name then [f.header.value] else [])
  {
    assert fates[..k][..k - 1] == fates[..k - 1];
    var before := KeptOf(fates[..k - 1]);
    if fates[k - 1].Kept? {
      ValuesConcat(before, [fates[k - 1].header], name);
      ValuesOne(fates[k - 1].header, name);
    } else {
      assert before + [] == before;
    }
  }

  // ---- Mutations ----

  lemma SetUnder(m: Mutation, upgrade: bool, name: string)
    requires !Reserved(name, upgrade) && !MutationFate(m, upgrade).Invalid?
    ensures var f := MutationFate(m, upgrade);
            && (f.Kept? && f.header.name == name <==> m.value.Some? && Lower(m.name) == name)
            && (f.Kept? ==> f.header.value == m.value.value)
  {
    hide Lower, NameChar, F.Legal;
  }

  lemma {:induction false} SetValues(c: Context, upgrade: bool, name: string, k: nat)
    requires !Reserved(name, upgrade) && k <= |c.mutations| && !AnyInvalid(MutationFates(c, upgrade))
    ensures ValuesOf(KeptOf(MutationFates(c, upgrade)[..k]), name) == SetAs(c.mutations[..k], name)
  {
    hide MutationFate, Reserved, Lower;
    var fates := MutationFates(c, upgrade);
    if k == 0 {
    } else {
      SetValues(c, upgrade, name, k - 1);
      assert fates[k - 1] in fates;
      SetUnder(c.mutations[k - 1], upgrade, name);
      assert c.mutations[..k][..k - 1] == c.mutations[..k - 1];
      KeptOneMore(fates, k, name);
    }
  }

  /** What passes through under an open name is the client's values unless withheld, then the mutations'. */
  lemma PassthroughValues(c: Context, upgrade: bool, r: Resolved, name: string)
    requires Acceptable(c, upgrade) && ResolvedBy(c, upgrade, r) && LegalName(name) && !Reserved(name, upgrade)
    ensures ValuesOf(r.passthrough, name) == OwnValues(c, upgrade, name)
  {
    hide FateOf, MutationFate, InboundTokens, Reserved, LegalName, ValuesOf, KeptOf, SentAs, SetAs, Withheld;
    var fates, sets := Fates(c, InboundTokens(c.headers), upgrade), MutationFates(c, upgrade);
    KeptValues(c, upgrade, name, |c.headers|);
    SetValues(c, upgrade, name, |c.mutations|);
    assert fates[..|c.headers|] == fates && c.headers[..|c.headers|] == c.headers;
    assert sets[..|c.mutations|] == sets && c.mutations[..|c.mutations|] == c.mutations;
    ValuesConcat(KeptOf(fates), KeptOf(sets), name);
  }

  // ---- The whole request, name by name ----

  /** The request id and trace context fill in where nothing was sent. */
  function OrDefault(c: Context, name: string, own: seq<string>): seq<string> {
    if own != [] then own
    else if name == "x-request-id" then [Decimal(c.requestId)]
    else if name == "traceparent" && c.traceparent.Some? then [c.traceparent.value]
    else []
  }

  lemma {:induction false} ContainsIffValues(hs: seq<Header>, name: string)
    ensures Contains(hs, name) <==> ValuesOf(hs, name) != []
  {
    if hs == [] {
    } else {
      var n := |hs| - 1;
      ContainsIffValues(hs[..n], name);
      assert hs == hs[..n] + [hs[n]];
    }
  }

  lemma TraceValues(c: Context, before: seq<Header>, name: string)
    ensures ValuesOf(TraceHeaders(c, before), name)
            == OneIf(!Contains(before, "x-request-id") && name == "x-request-id", Decimal(c.requestId))
               + (if c.traceparent.Some? && !Contains(before, "traceparent") && name == "traceparent"
                  then [c.traceparent.value] else [])
  {
    hide ValuesOf, Contains, Decimal;
    var id := Optional(!Contains(before, "x-request-id"), "x-request-id", Decimal(c.requestId));
    var trace := if c.traceparent.Some? && !Contains(before, "traceparent")
                 then [Header("traceparent", c.traceparent.value)] else [];
    ValuesConcat(id, trace, name);
    ValuesOptional(!Contains(before, "x-request-id"), "x-request-id", Decimal(c.requestId), name);
    if trace == [] {
      ValuesNone([], name);
    } else {
      ValuesOne(trace[0], name);
    }
  }

  lemma ValuesDefaulted(c: Context, before: seq<Header>, name: string)
    ensures ValuesOf(before, name) + ValuesOf(TraceHeaders(c, before), name)
            == OrDefault(c, name, ValuesOf(before, name))
  {
    hide ValuesOf, Contains, Decimal, TraceHeaders;
    ContainsIffValues(before, name);
    TraceValues(c, before, name);
  }

  lemma OpenNameNotAdded(name: string, upgrade: bool)
    requires !Reserved(name, upgrade)
    ensures name != "host" && name != "content-length" && name != "te" && FamilyOf(name).None?
  {
  }

  /** Under an open name the request carries what passes through, or else the default. */
  lemma OpenValues(c: Context, upgrade: bool, r: Resolved, shape: Shape, out: seq<Header>, name: string)
    requires Assemble(c, r, shape) == Sent(out) && !Reserved(name, upgrade)
    ensures ValuesOf(out, name) == OrDefault(c, name, ValuesOf(r.passthrough, name))
  {
    OpenNameNotAdded(name, upgrade);
    hide ValuesOf, Reserved, Assemble, ChainHeaders, LengthHeader, TraceHeaders, FamilyOf, Framed, OrDefault;
    AssembledValues(c, r, shape, out, name);
    ValuesLength(c, shape, name);
    ValuesChains(r.chains, name);
    var own := ValuesOf(r.passthrough, name);
    assert own + [] + [] == own;
    ValuesDefaulted(c, Framed(c, r, shape), name);
    NothingBehind(ValuesOf(Framed(c, r, shape), name) + ValuesOf(TraceHeaders(c, Framed(c, r, shape)), name));
  }

  lemma NothingBehind(values: seq<string>)
    ensures values + [] + [] == values
  {
  }

  /**
    What the upstream sees under every name that the proxy does not reserve: the client's values in
    their order, unless the name is withheld from the client, then the mutations' values, and the
    proxy's request id or trace context where there is neither.
   */
  lemma OpenNames(c: Context, upgrade: bool, r: Resolved, shape: Shape, out: seq<Header>, name: string)
    requires Acceptable(c, upgrade) && ResolvedBy(c, upgrade, r) && Assemble(c, r, shape) == Sent(out)
    requires LegalName(name) && !Reserved(name, upgrade)
    ensures ValuesOf(out, name) == OrDefault(c, name, OwnValues(c, upgrade, name))
  {
    hide Acceptable, ResolvedBy, Assemble, LegalName, Reserved, OwnValues, OrDefault, ValuesOf;
    PassthroughValues(c, upgrade, r, name);
    OpenValues(c, upgrade, r, shape, out, name);
  }

  /**
    A client cannot get a header through that it lists in Connection, nor one that an auth mutation
    names, if only to remove it: what is sent under such a name comes from the proxy alone.
   */
  lemma NamedHeadersGone(c: Context, upgrade: bool, r: Resolved, shape: Shape, out: seq<Header>, name: string)
    requires Acceptable(c, upgrade) && ResolvedBy(c, upgrade, r) && Assemble(c, r, shape) == Sent(out)
    requires LegalName(name) && !Reserved(name, upgrade) && Withheld(c, upgrade, name)
    ensures ValuesOf(out, name) == OrDefault(c, name, SetAs(c.mutations, name))
  {
    hide Acceptable, ResolvedBy, Assemble, LegalName, Reserved, OrDefault, ValuesOf, SetAs;
    OpenNames(c, upgrade, r, shape, out, name);
    assert [] + SetAs(c.mutations, name) == SetAs(c.mutations, name);
  }

  // ---- Names in another form ----

  lemma LowerLegal(raw: string)
    requires NameOf(raw).Some?
    ensures LegalName(Lower(raw))
  {
    var low := Lower(raw);
    forall i | 0 <= i < |low| ensures NameChar(low[i]) && LowerChar(low[i]) == low[i] {
      assert raw[i] in raw;
    }
    assert Lower(low) == low;
  }

  lemma PassedLegal(c: Context, upgrade: bool, r: Resolved, h: Header)
    requires ResolvedBy(c, upgrade, r) && h in r.passthrough
    ensures LegalName(h.name)
  {
    hide InboundTokens, FamilyValues, ChainCarries, HostOf, Lower, NameChar, Mutated, StripRequest, FamilyOf, F.Legal, LegalName;
    var fates, sets := Fates(c, InboundTokens(c.headers), upgrade), MutationFates(c, upgrade);
    if h in KeptOf(fates) {
      KeptIsSomeFate(fates, h);
      var i :| 0 <= i < |fates| && fates[i] == Kept(h);
      assert FateOf(c.headers[i], c.mutations, InboundTokens(c.headers), upgrade) == Kept(h);
      LowerLegal(c.headers[i].name);
    } else {
      KeptIsSomeFate(sets, h);
      var i :| 0 <= i < |sets| && sets[i] == Kept(h);
      assert MutationFate(c.mutations[i], upgrade) == Kept(h);
      LowerLegal(c.mutations[i].name);
    }
  }

  lemma PlainLegal(s: string)
    requires s != "" && forall i :: 0 <= i < |s| ==> 'a' <= s[i] <= 'z' || s[i] == '-'
    ensures LegalName(s)
  {
    forall x | x in s ensures NameChar(x) {
    }
    assert Lower(s) == s;
  }

  lemma TraceNamesLegal()
    ensures LegalName("x-request-id") && LegalName("traceparent")
  {
    hide LegalName;
    PlainLegal("x-request-id");
    PlainLegal("traceparent");
  }

  lemma IllegalNames(c: Context, upgrade: bool, r: Resolved, shape: Shape, out: seq<Header>, name: string)
    requires ResolvedBy(c, upgrade, r) && Assemble(c, r, shape) == Sent(out)
    requires !LegalName(name) && !Reserved(name, upgrade)
    ensures ValuesOf(out, name) == []
  {
    TraceNamesLegal();
    hide ResolvedBy, Assemble, LegalName, Reserved, ValuesOf;
    forall h | h in r.passthrough ensures h.name != name {
      PassedLegal(c, upgrade, r, h);
    }
    ValuesNone(r.passthrough, name);
    OpenValues(c, upgrade, r, shape, out, name);
  }

  // ---- Reserved names, spelled out ----

  /** The proxy keeps these names to itself, Connection and Upgrade apart in upgrade mode. */
  lemma ReservedSpelled(name: string, upgrade: bool)
    ensures Reserved(name, upgrade)
            <==> || name in {"host", "content-length", "forwarded", "x-forwarded-for", "x-forwarded-proto",
                             "x-forwarded-host", "te", "proxy-authenticate", "proxy-authorization", "trailer",
                             "transfer-encoding", "keep-alive", "proxy-connection"}
                 || (!upgrade && (name == "connection" || name == "upgrade"))
  {
  }

  function Emitted(v: F.Value): seq<string> { if v.Present? then [v.text] else [] }

  /** The values of an HTTP/1 request under any name whatever. */
  ghost function H1Values(c: Context, upgrade: bool, r: Resolved, name: string): seq<string> {
    if name == "host" then [r.host]
    else if name == "content-length" then
      if c.contentLength.Some? && c.contentLength.value > 0 then [Decimal(c.contentLength.value)] else []
    else if name == "forwarded" then Emitted(r.chains.forwarded)
    else if name == "x-forwarded-for" then Emitted(r.chains.xFor)
    else if name == "x-forwarded-proto" then Emitted(r.chains.xProto)
    else if name == "x-forwarded-host" then Emitted(r.chains.xHost)
    else if name == "te" then if upgrade then [] else ["trailers"]
    else if name in {"proxy-authenticate", "proxy-authorization", "trailer", "transfer-encoding",
                     "keep-alive", "proxy-connection"} then []
    else if !upgrade && (name == "connection" || name == "upgrade") then []
    else if LegalName(name) then OrDefault(c, name, OwnValues(c, upgrade, name))
    else []
  }

  lemma ReservedAsSpelled(c: Context, upgrade: bool, r: Resolved, name: string)
    requires Reserved(name, upgrade)
    ensures H1Reserved(c, upgrade, r, name) == H1Values(c, upgrade, r, name)
  {
    ReservedSpelled(name, upgrade);
    hide Reserved, LegalName, OrDefault, OwnValues, Decimal;
  }

  lemma OpenAsSpelled(c: Context, upgrade: bool, r: Resolved, name: string)
    requires !Reserved(name, upgrade)
    ensures H1Values(c, upgrade, r, name) == if LegalName(name) then OrDefault(c, name, OwnValues(c, upgrade, name)) else []
  {
    ReservedSpelled(name, upgrade);
    hide Reserved, LegalName, OrDefault, OwnValues, Decimal;
  }

  lemma EveryName(c: Context, upgrade: bool, r: Resolved, out: seq<Header>, name: string)
    requires Acceptable(c, upgrade) && ResolvedBy(c, upgrade, r) && Assemble(c, r, H1Shape(upgrade)) == Sent(out)
    ensures ValuesOf(out, name) == H1Values(c, upgrade, r, name)
  {
    hide Acceptable, ResolvedBy, Assemble, LegalName, Reserved, ValuesOf, H1Reserved, H1Values, OrDefault, OwnValues, H1Shape;
    if Reserved(name, upgrade) {
      H1ReservedNames(c, upgrade, r, out, name);
      ReservedAsSpelled(c, upgrade, r, name);
    } else {
      OpenAsSpelled(c, upgrade, r, name);
      if LegalName(name) {
        OpenNames(c, upgrade, r, H1Shape(upgrade), out, name);
      } else {
        IllegalNames(c, upgrade, r, H1Shape(upgrade), out, name);
      }
    }
  }

  /**
    Nothing of the client's or the mutations' is sent under a hop-by-hop name, Connection and
    Upgrade apart in upgrade mode; only the proxy's own TE is.
   */
  lemma HopByHopDropped(c: Context, upgrade: bool, r: Resolved, out: seq<Header>, name: string)
    requires Acceptable(c, upgrade) && ResolvedBy(c, upgrade, r) && Assemble(c, r, H1Shape(upgrade)) == Sent(out)
    requires name in {"connection", "proxy-authenticate", "proxy-authorization", "te", "trailer",
                      "transfer-encoding", "upgrade", "keep-alive", "proxy-connection"}
    requires upgrade ==> name != "connection" && name != "upgrade"
    ensures ValuesOf(out, name) == if name == "te" && !upgrade then ["trailers"] else []
  {
    hide Acceptable, ResolvedBy, Assemble, LegalName, ValuesOf, OrDefault, OwnValues, Decimal;
    EveryName(c, upgrade, r, out, name);
  }

  // ---- The builder ----

  /** legacy_websocket_upgrade_requested. */
  predicate UpgradeRequested(verb: string, hs: seq<Inbound>) {
    && Lower(verb) == "get"
    && (exists h <- hs :: SameName(h.name, "upgrade") && h.utf8 && Lower(h.value) == "websocket")
    && (exists h <- hs :: SameName(h.name, "connection") && h.utf8
          && exists part <- Split(h.value) :: Lower(Trim(part)) == "upgrade")
  }

  lemma UpgradeSpelled(verb: string, hs: seq<Inbound>)
    ensures UpgradeRequested(verb, hs)
            <==> && Lower(verb) == "get"
                 && (exists h <- hs :: SameName(h.name, "upgrade") && h.utf8 && Lower(h.value) == "websocket")
                 && (exists h <- hs :: SameName(h.name, "connection") && h.utf8
                       && exists part <- Split(h.value) :: Lower(Trim(part)) == "upgrade")
  {
    hide Lower, Split, Trim, SameName;
  }

  /** The method, and whether the HTTP library takes the method and the target as such. */
  datatype Target = Target(verb: string, methodValid: bool, uriValid: bool)

  /** The proxy's trace context can be written, or is not needed. */
  ghost predicate TraceSendable(c: Context, upgrade: bool) {
    BadTrace(c) ==> OwnValues(c, upgrade, "traceparent") != []
  }

  lemma SentIff(c: Context, upgrade: bool, r: Resolved)
    requires Acceptable(c, upgrade) && ResolvedBy(c, upgrade, r)
    ensures Assemble(c, r, H1Shape(upgrade)).Sent? <==> R.Readable(r.host) && TraceSendable(c, upgrade)
  {
    var shape := H1Shape(upgrade);
    var host := Optional(true, "host", r.host);
    NotReservedTrace(upgrade);
    TraceNamesLegal();
    hide ValuesOf, Acceptable, ResolvedBy, LegalName, Reserved, Contains, BadTrace, OwnValues, LengthHeader, Optional;
    PassthroughValues(c, upgrade, r, "traceparent");
    FramedValues(r.passthrough, host, LengthHeader(c, shape), "traceparent");
    ValuesOptional(true, "host", r.host, "traceparent");
    ValuesLength(c, shape, "traceparent");
    ContainsIffValues(r.passthrough + host + LengthHeader(c, shape), "traceparent");
    NothingBehind(OwnValues(c, upgrade, "traceparent"));
  }

  lemma RefusedAs(c: Context, upgrade: bool, r: Resolved)
    ensures var out := Assemble(c, r, H1Shape(upgrade));
            out.Refused? ==> out.error == if BadTrace(c) then BuildError.InvalidHeader else BuilderFailed
  {
    hide BadTrace, R.Readable, Contains;
  }

  lemma NotReservedTrace(upgrade: bool)
    ensures !Reserved("traceparent", upgrade)
  {
  }

  /**
    build_h1_request. The method is judged first, then the headers, then the target; after that a
    request is built exactly when the resolved host can be written and the trace context can be
    written or is not needed, and it holds under every name the values of H1Values.
   */
  method BuildH1(c: Context, target: Target) returns (out: Built)
    ensures !target.methodValid ==> out == Refused(InvalidMethod)
    ensures target.methodValid ==>
              var upgrade := && Lower(target.verb) == "get"
                             && (exists h <- c.headers :: SameName(h.name, "upgrade") && h.utf8 && Lower(h.value) == "websocket")
                             && (exists h <- c.headers :: SameName(h.name, "connection") && h.utf8
                                   && exists part <- Split(h.value) :: Lower(Trim(part)) == "upgrade");
              if !Acceptable(c, upgrade) then out == Refused(BuildError.InvalidHeader)
              else if !target.uriValid then out == Refused(InvalidUri)
              else exists r :: ResolvedBy(c, upgrade, r) && BuiltFrom(c, upgrade, r, out)
  {
    hide UpgradeRequested, Acceptable, ResolvedBy, ValuesOf, H1Values, TraceSendable, Lower, Split, Trim, SameName, Assemble, BadTrace, R.Readable;
    UpgradeSpelled(target.verb, c.headers);
    if !target.methodValid {
      return Refused(InvalidMethod);
    }
    var upgrade := UpgradeRequested(target.verb, c.headers);
    var resolved := ApplyPolicies(c, upgrade);
    if resolved.InvalidHeader? {
      return Refused(BuildError.InvalidHeader);
    }
    if !target.uriValid {
      return Refused(InvalidUri);
    }
    var r := resolved.value;
    out := Assemble(c, r, H1Shape(upgrade));
    SentIff(c, upgrade, r);
    RefusedAs(c, upgrade, r);
    if out.Sent? {
      forall name ensures ValuesOf(out.headers, name) == H1Values(c, upgrade, r, name) {
        EveryName(c, upgrade, r, out.headers, name);
      }
    }
  }

  ghost predicate BuiltFrom(c: Context, upgrade: bool, r: Resolved, out: Built) {
    && (out.Sent? <==> R.Readable(r.host) && TraceSendable(c, upgrade))
    && (out.Sent? ==> forall name :: ValuesOf(out.headers, name) == H1Values(c, upgrade, r, name))
    && (out.Refused? ==> out.error == if BadTrace(c) then BuildError.InvalidHeader else BuilderFailed)
  }
}

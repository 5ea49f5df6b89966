/**
  Upstream request headers (crates/bridge/src/request.rs, h3_to_h1.rs, h3_to_h2.rs, host.rs):
  the policy pass over the inbound headers and the assembly of the outgoing ones.
 */
module Request {
  import opened Prelude
  import opened Headers
  import F = Forwarded

  /** An HTTP/3 header as received; `utf8` says whether its value bytes decode as text. */
  datatype Inbound = Inbound(name: string, value: string, utf8: bool)

  /** An auth decision: set the header, or only remove it. */
  datatype Mutation = Mutation(name: string, value: Option<string>)

  datatype HostMode = PassThrough | Rewrite | Upstream

  datatype Context = Context(
    headers: seq<Inbound>,
    mutations: seq<Mutation>,
    authority: Option<string>,
    hostMode: HostMode,
    rewriteHost: Option<string>,
    endpointAuthority: string,
    forwardedMode: F.Mode,
    ip: F.ClientIp,
    contentLength: Option<nat>,
    requestId: nat,
    traceparent: Option<string>)

  // ---- Header names ----

  predicate NameChar(c: char) {
    'a' <= c <= 'z' || 'A' <= c <= 'Z' || '0' <= c <= '9' || c in "!#$%&'*+-.^_`|~"
  }

  /** `HeaderName::from_bytes`: a token, in lower case. */
  function NameOf(raw: string): Option<string> {
    if raw != "" && forall c <- raw :: NameChar(c) then Some(Lower(raw)) else None
  }

  predicate SameName(a: string, b: string) { Lower(a) == Lower(b) }

  function InboundTokens(hs: seq<Inbound>): set<string> {
    if hs == [] then {}
    else
      var last := hs[|hs| - 1];
      InboundTokens(hs[..|hs| - 1])
        + (if SameName(last.name, "connection") && last.utf8 then Tokens(Split(last.value)) else {})
  }

  /** connection_header_tokens. */
  method ConnectionHeaderTokens(hs: seq<Inbound>) returns (tokens: set<string>)
    ensures tokens == InboundTokens(hs)
  {
    hide SameName, Tokens, Split;
    tokens := {};
    for k := 0 to |hs|
      invariant tokens == InboundTokens(hs[..k])
    {
      assert hs[..k + 1][..k] == hs[..k];
      if SameName(hs[k].name, "connection") && hs[k].utf8 {
        tokens := AddTokens(hs[k].value, tokens);
      }
    }
    assert hs[..|hs|] == hs;
  }

  // ---- What becomes of one header ----

  /** The four forwarding headers. */
  datatype Family = Forwarded | XForwardedFor | XForwardedProto | XForwardedHost

  function FamilyName(f: Family): string {
    match f
    case Forwarded => "forwarded"
    case XForwardedFor => "x-forwarded-for"
    case XForwardedProto => "x-forwarded-proto"
    case XForwardedHost => "x-forwarded-host"
  }

  function FamilyOf(lowerName: string): Option<Family> {
    if lowerName == "forwarded" then Some(Forwarded)
    else if lowerName == "x-forwarded-for" then Some(XForwardedFor)
    else if lowerName == "x-forwarded-proto" then Some(XForwardedProto)
    else if lowerName == "x-forwarded-host" then Some(XForwardedHost)
    else None
  }

  datatype Fate = Dropped | Chained(family: Family) | HostSeen | Kept(header: Header) | Invalid

  predicate Mutated(name: string, mutations: seq<Mutation>) { exists m <- mutations :: SameName(m.name, name) }

  function FateOf(h: Inbound, mutations: seq<Mutation>, tokens: set<string>, upgrade: bool): Fate {
    if h.name != "" && h.name[0] == ':' then Dropped
    else if Mutated(h.name, mutations) then Dropped
    else if FamilyOf(Lower(h.name)).Some? then Chained(FamilyOf(Lower(h.name)).value)
    else if NameOf(h.name).None? then Invalid
    else
      var name := NameOf(h.name).value;
      if StripRequest(name, tokens, upgrade) then Dropped
      else if !F.Legal(h.value) then Invalid
      else if name == "host" then HostSeen
      else Kept(Header(name, h.value))
  }

  function MutationFate(m: Mutation, upgrade: bool): Fate {
    if m.value.None? then Dropped
    else if NameOf(m.name).None? then Invalid
    else
      var name := NameOf(m.name).value;
      if StripProxy(name, upgrade) || name == "host" then Dropped
      else if !F.Legal(m.value.value) then Invalid
      else Kept(Header(name, m.value.value))
  }

  /** The kept headers of a list of fates, in order. */
  function KeptOf(fates: seq<Fate>): seq<Header> {
    if fates == [] then []
    else
      var last := fates[|fates| - 1];
      KeptOf(fates[..|fates| - 1]) + (if last.Kept? then [last.header] else [])
  }

  function Fates(c: Context, tokens: set<string>, upgrade: bool): (r: seq<Fate>)
    ensures |r| == |c.headers|
  {
    seq(|c.headers|, i requires 0 <= i < |c.headers| => FateOf(c.headers[i], c.mutations, tokens, upgrade))
  }

  function MutationFates(c: Context, upgrade: bool): (r: seq<Fate>)
    ensures |r| == |c.mutations|
  {
    seq(|c.mutations|, i requires 0 <= i < |c.mutations| => MutationFate(c.mutations[i], upgrade))
  }

  predicate AnyInvalid(fates: seq<Fate>) { exists f <- fates :: f.Invalid? }

  /** Values of the inbound headers collected for one forwarding header. */
  function ChainOf(hs: seq<Inbound>, fates: seq<Fate>, family: Family): seq<string>
    requires |fates| == |hs|
  {
    if hs == [] then []
    else
      var n := |hs| - 1;
      ChainOf(hs[..n], fates[..n], family) + (if fates[n] == Chained(family) then [hs[n].value] else [])
  }

  function LastHost(hs: seq<Inbound>, fates: seq<Fate>): Option<Inbound>
    requires |fates| == |hs|
  {
    if hs == [] then None
    else
      var n := |hs| - 1;
      if fates[n].HostSeen? then Some(hs[n]) else LastHost(hs[..n], fates[..n])
  }

  // ---- Host ----

  predicate NotBlank(s: Option<string>) { s.Some? && Trim(s.value) != "" }

  /** resolve_upstream_host_value. */
  function ResolveHost(c: Context, hostHeader: Option<string>): Option<string> {
    match c.hostMode
    case PassThrough =>
      var wanted := if c.authority.Some? then c.authority else hostHeader;
      Some(if NotBlank(wanted) then wanted.value else c.endpointAuthority)
    case Rewrite => if NotBlank(c.rewriteHost) then c.rewriteHost else None
    case Upstream => Some(c.endpointAuthority)
  }

  // ---- The policy pass ----

  /** One value of type T for each forwarding header. */
  datatype PerFamily<T> = PerFamily(forwarded: T, xFor: T, xProto: T, xHost: T)
  {
    function Get(f: Family): T {
      match f
      case Forwarded => forwarded
      case XForwardedFor => xFor
      case XForwardedProto => xProto
      case XForwardedHost => xHost
    }
  }

  datatype Resolved = Resolved(passthrough: seq<Header>, host: string, chains: PerFamily<F.Value>)

  datatype Result<T> = Ok(value: T) | InvalidHeader

  ghost predicate AllLegal(values: seq<string>) { forall s <- values :: F.Legal(s) }

  ghost predicate ChainCarries(v: F.Value, used: seq<string>) {
    if used == [] then v.Absent? else v == F.Present(F.Joined(used))
  }

  function CurrentValue(c: Context, host: string, family: Family): string {
    match family
    case Forwarded => F.Element(c.ip, host)
    case XForwardedFor => c.ip.text
    case XForwardedProto => "https"
    case XForwardedHost => host
  }

  function FamilyValues(c: Context, fates: seq<Fate>, host: string, f: Family): seq<string>
    requires |fates| == |c.headers|
  {
    F.UsedValues(c.forwardedMode, ChainOf(c.headers, fates, f), CurrentValue(c, host, f))
  }

  function HostOf(c: Context, fates: seq<Fate>): Option<string>
    requires |fates| == |c.headers|
  {
    var header := LastHost(c.headers, fates);
    ResolveHost(c, if header.Some? && header.value.utf8 then Some(header.value.value) else None)
  }

  /** Every name and value that will be sent is legal, and there is a host to send. */
  ghost predicate Acceptable(c: Context, upgrade: bool) {
    var fates := Fates(c, InboundTokens(c.headers), upgrade);
    && !AnyInvalid(fates) && !AnyInvalid(MutationFates(c, upgrade))
    && HostOf(c, fates).Some?
    && forall f: Family :: AllLegal(FamilyValues(c, fates, HostOf(c, fates).value, f))
  }

  /** What a successful policy pass returns. */
  ghost predicate ResolvedBy(c: Context, upgrade: bool, r: Resolved) {
    var fates := Fates(c, InboundTokens(c.headers), upgrade);
    && r.passthrough == KeptOf(fates) + KeptOf(MutationFates(c, upgrade))
    && HostOf(c, fates) == Some(r.host)
    && forall f: Family :: ChainCarries(r.chains.Get(f), FamilyValues(c, fates, r.host, f))
  }

  /** What the loop over the inbound headers collects. */
  datatype Gather = Gather(pass: seq<Header>, host: Option<Inbound>, chains: PerFamily<seq<string>>)

  ghost predicate Gathered(hs: seq<Inbound>, fates: seq<Fate>, g: Gather)
    requires |fates| == |hs|
  {
    && g.pass == KeptOf(fates) && g.host == LastHost(hs, fates) && !AnyInvalid(fates)
    && forall f: Family :: g.chains.Get(f) == ChainOf(hs, fates, f)
  }

  function AddToChain(chains: PerFamily<seq<string>>, f: Family, value: string): PerFamily<seq<string>> {
    match f
    case Forwarded => chains.(forwarded := chains.forwarded + [value])
    case XForwardedFor => chains.(xFor := chains.xFor + [value])
    case XForwardedProto => chains.(xProto := chains.xProto + [value])
    case XForwardedHost => chains.(xHost := chains.xHost + [value])
  }

  lemma GatherNext(hs: seq<Inbound>, fates: seq<Fate>, k: nat, g: Gather)
    requires |fates| == |hs| && k < |hs| && Gathered(hs[..k], fates[..k], g) && !fates[k].Invalid?
    ensures Gathered(hs[..k + 1], fates[..k + 1],
              match fates[k]
              case Chained(f) => g.(chains := AddToChain(g.chains, f, hs[k].value))
              case HostSeen => g.(host := Some(hs[k]))
              case Kept(header) => g.(pass := g.pass + [header])
              case _ => g)
  {
    assert fates[..k + 1][..k] == fates[..k] && hs[..k + 1][..k] == hs[..k];
    assert fates[..k + 1] == fates[..k] + [fates[k]];
    assert KeptOf(fates[..k + 1]) == KeptOf(fates[..k]) + (if fates[k].Kept? then [fates[k].header] else []);
    forall f: Family
      ensures ChainOf(hs[..k + 1], fates[..k + 1], f)
              == g.chains.Get(f) + (if fates[k] == Chained(f) then [hs[k].value] else [])
    {
      assert g.chains.Get(f) == ChainOf(hs[..k], fates[..k], f);
    }
  }

  /** The loop over the inbound headers. */
  method GatherHeaders(c: Context, upgrade: bool) returns (ok: bool, g: Gather)
    ensures var fates := Fates(c, InboundTokens(c.headers), upgrade);
            if ok then Gathered(c.headers, fates, g) else AnyInvalid(fates)
  {
    hide FateOf, InboundTokens, Gathered;
    var tokens := ConnectionHeaderTokens(c.headers);
    ghost var fates := Fates(c, tokens, upgrade);
    g := Gather([], None, PerFamily([], [], [], []));
    GatherNothing(g);
    for k := 0 to |c.headers|
      invariant Gathered(c.headers[..k], fates[..k], g)
    {
      var h := c.headers[k];
      var fate := FateOf(h, c.mutations, tokens, upgrade);
      assert fates[k] == fate;
      if fate.Invalid? {
        assert fates[k] in fates;
        ok := false;
        return;
      }
      GatherNext(c.headers, fates, k, g);
      match fate {
        case Chained(family) =>
          g := g.(chains := AddToChain(g.chains, family, h.value));
        case HostSeen =>
          g := g.(host := Some(h));
        case Kept(header) =>
          g := g.(pass := g.pass + [header]);
        case Dropped =>
      }
    }
    assert fates[..|fates|] == fates && c.headers[..|fates|] == c.headers;
    ok := true;
  }

  lemma GatherNothing(g: Gather)
    requires g == Gather([], None, PerFamily([], [], [], []))
    ensures Gathered([], [], g)
  {
  }

  /** The loop over the auth mutations. */
  method GatherMutations(c: Context, upgrade: bool) returns (ok: bool, set_: seq<Header>)
    ensures var fates := MutationFates(c, upgrade);
            if ok then !AnyInvalid(fates) && set_ == KeptOf(fates) else AnyInvalid(fates)
  {
    ghost var fates := MutationFates(c, upgrade);
    set_ := [];
    for k := 0 to |c.mutations|
      invariant set_ == KeptOf(fates[..k]) && !AnyInvalid(fates[..k])
    {
      assert fates[..k + 1][..k] == fates[..k];
      assert fates[..k + 1] == fates[..k] + [fates[k]];
      var fate := MutationFate(c.mutations[k], upgrade);
      if fate.Invalid? {
        assert fates[k] in fates;
        ok := false;
        return;
      }
      if fate.Kept? {
        set_ := set_ + [fate.header];
      }
    }
    assert fates[..|fates|] == fates;
    ok := true;
  }

  method MergeFamily(c: Context, host: string, inbound: seq<string>, family: Family) returns (r: F.Value)
    ensures var used := F.UsedValues(c.forwardedMode, inbound, CurrentValue(c, host, family));
            if AllLegal(used) then ChainCarries(r, used) else r.InvalidHeader?
  {
    r := F.MergeForwardedChain(c.forwardedMode, inbound, CurrentValue(c, host, family));
  }

  /** build_forwarded_header_values. */
  method MergeFamilies(c: Context, host: string, inbound: PerFamily<seq<string>>) returns (r: Result<PerFamily<F.Value>>)
    ensures r.Ok? <==> forall f: Family :: AllLegal(F.UsedValues(c.forwardedMode, inbound.Get(f), CurrentValue(c, host, f)))
    ensures r.Ok? ==> forall f: Family ::
              ChainCarries(r.value.Get(f), F.UsedValues(c.forwardedMode, inbound.Get(f), CurrentValue(c, host, f)))
  {
    hide AllLegal, F.UsedValues, CurrentValue;
    var forwarded := MergeFamily(c, host, inbound.forwarded, Forwarded);
    var xFor := MergeFamily(c, host, inbound.xFor, XForwardedFor);
    var xProto := MergeFamily(c, host, inbound.xProto, XForwardedProto);
    var xHost := MergeFamily(c, host, inbound.xHost, XForwardedHost);
    assert inbound.Get(Forwarded) == inbound.forwarded && inbound.Get(XForwardedFor) == inbound.xFor;
    assert inbound.Get(XForwardedProto) == inbound.xProto && inbound.Get(XForwardedHost) == inbound.xHost;
    if forwarded.InvalidHeader? || xFor.InvalidHeader? || xProto.InvalidHeader? || xHost.InvalidHeader? {
      return InvalidHeader;
    }
    r := Ok(PerFamily(forwarded, xFor, xProto, xHost));
  }

  /** apply_request_header_policies. */
  method ApplyPolicies(c: Context, upgrade: bool) returns (r: Result<Resolved>)
    ensures r.Ok? <==> Acceptable(c, upgrade)
    ensures r.Ok? ==> ResolvedBy(c, upgrade, r.value)
  {
    hide AllLegal, F.UsedValues, ChainCarries, CurrentValue, KeptOf, LastHost, ChainOf, ResolveHost, InboundTokens, AnyInvalid;
    var ok, g := GatherHeaders(c, upgrade);
    if !ok {
      return InvalidHeader;
    }
    var okMutations, extra := GatherMutations(c, upgrade);
    if !okMutations {
      return InvalidHeader;
    }
    var text := if g.host.Some? && g.host.value.utf8 then Some(g.host.value.value) else None;
    var host := ResolveHost(c, text);
    if host.None? {
      return InvalidHeader;
    }
    var chains := MergeFamilies(c, host.value, g.chains);
    if chains.InvalidHeader? {
      ghost var fates := Fates(c, InboundTokens(c.headers), upgrade);
      ghost var f :| !AllLegal(F.UsedValues(c.forwardedMode, g.chains.Get(f), CurrentValue(c, host.value, f)));
      assert !AllLegal(FamilyValues(c, fates, host.value, f));
      return InvalidHeader;
    }
    r := Ok(Resolved(g.pass + extra, host.value, chains.value));
  }
}

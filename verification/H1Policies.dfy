/**
  Where the values of an HTTP/1 request come from (crates/bridge/src/request.rs, crates/bridge/src/host.rs,
  crates/bridge/src/forwarded.rs): Host and the forwarding headers in each mode, and what is refused.
 */
module H1Policies {
  import opened Prelude
  import opened Headers
  import opened Request
  import opened RequestAssembly
  import opened H1Request
  import F = Forwarded

  // ---- Connection tokens ----

  /** Some decodable Connection header of the client lists the token `t`. */
  ghost predicate Lists(hs: seq<Inbound>, t: string) {
    exists h <- hs :: Lower(h.name) == "connection" && h.utf8 && t in Tokens(Split(h.value))
  }

  lemma {:induction false} TokensAreListed(hs: seq<Inbound>, t: string)
    ensures t in InboundTokens(hs) <==> Lists(hs, t)
  {
    hide Tokens, Split, Lower, SameName;
    if hs == [] {
    } else {
      var n := |hs| - 1;
      TokensAreListed(hs[..n], t);
      IsConnection(hs[n].name);
      assert hs == hs[..n] + [hs[n]];
    }
  }

  lemma IsConnection(name: string)
    ensures SameName(name, "connection") <==> Lower(name) == "connection"
  {
    hide Lower;
    ConnectionLower();
  }

  lemma ConnectionLower()
    ensures Lower("connection") == "connection"
  {
    hide Lower;
    PlainLower("connection");
  }

  lemma PlainLower(s: string)
    requires forall i :: 0 <= i < |s| ==> 'a' <= s[i] <= 'z' || s[i] == '-'
    ensures Lower(s) == s
  {
    assert Lower(s) == s;
  }

  // ---- Host and forwarding headers ----

  /** The client's last header under a lower-case name. */
  function LastNamed(hs: seq<Inbound>, name: string): Option<Inbound> {
    if hs == [] then None
    else if Lower(hs[|hs| - 1].name) == name then Some(hs[|hs| - 1])
    else LastNamed(hs[..|hs| - 1], name)
  }

  lemma HostFilter(tokens: set<string>, upgrade: bool)
    ensures StripRequest("host", tokens, upgrade) <==> "host" in tokens
    ensures FamilyOf("host").None?
  {
  }

  lemma HostFate(h: Inbound, ms: seq<Mutation>, tokens: set<string>, upgrade: bool)
    requires !FateOf(h, ms, tokens, upgrade).Invalid? && Lower(h.name) == "host" && h.name != "" && h.name[0] != ':'
    ensures FateOf(h, ms, tokens, upgrade).HostSeen? <==> !Mutated(h.name, ms) && "host" !in tokens
  {
    HostFilter(tokens, upgrade);
    hide Lower, Mutated, NameChar, F.Legal, StripRequest, FamilyOf;
  }

  lemma OtherFate(h: Inbound, ms: seq<Mutation>, tokens: set<string>, upgrade: bool)
    requires Lower(h.name) != "host"
    ensures !FateOf(h, ms, tokens, upgrade).HostSeen?
  {
    hide Lower, Mutated, NameChar, F.Legal, StripRequest, FamilyOf;
  }

  lemma HostLower()
    ensures Lower("host") == "host"
  {
    hide Lower;
    PlainLower("host");
  }

  lemma HostSeenIff(h: Inbound, c: Context, upgrade: bool)
    requires !FateOf(h, c.mutations, InboundTokens(c.headers), upgrade).Invalid?
    ensures FateOf(h, c.mutations, InboundTokens(c.headers), upgrade).HostSeen?
            <==> Lower(h.name) == "host" && !Withheld(c, upgrade, "host")
  {
    var tokens := InboundTokens(c.headers);
    hide FateOf, InboundTokens, Mutated, Lower;
    HostLower();
    if Lower(h.name) == "host" {
      assert h.name != "";
      LowerKeepsColon(h.name);
      SameMutated(h.name, "host", c.mutations);
      HostFate(h, c.mutations, tokens, upgrade);
    } else {
      OtherFate(h, c.mutations, tokens, upgrade);
    }
  }

  lemma {:induction false} LastHostIs(c: Context, upgrade: bool, k: nat)
    requires k <= |c.headers| && !AnyInvalid(Fates(c, InboundTokens(c.headers), upgrade))
    ensures LastHost(c.headers[..k], Fates(c, InboundTokens(c.headers), upgrade)[..k])
            == if Withheld(c, upgrade, "host") then None else LastNamed(c.headers[..k], "host")
  {
    hide FateOf, Withheld, InboundTokens, Lower;
    var fates := Fates(c, InboundTokens(c.headers), upgrade);
    if k == 0 {
    } else {
      LastHostIs(c, upgrade, k - 1);
      assert fates[k - 1] in fates;
      HostSeenIff(c.headers[k - 1], c, upgrade);
      assert fates[..k][..k - 1] == fates[..k - 1] && c.headers[..k][..k - 1] == c.headers[..k - 1];
    }
  }

  /**
    Where the Host header comes from: the endpoint, the configured name, or what the client asked
    for, its authority before its last Host header; a blank wish falls back to the endpoint.
   */
  lemma HostSent(c: Context, upgrade: bool, r: Resolved, out: seq<Header>)
    requires Acceptable(c, upgrade) && ResolvedBy(c, upgrade, r) && Assemble(c, r, H1Shape(upgrade)) == Sent(out)
    ensures ValuesOf(out, "host") == [r.host]
    ensures c.hostMode == Upstream ==> r.host == c.endpointAuthority
    ensures c.hostMode == Rewrite ==> c.rewriteHost == Some(r.host) && Trim(r.host) != ""
    ensures c.hostMode == PassThrough && c.authority.Some? ==>
              r.host == if Trim(c.authority.value) != "" then c.authority.value else c.endpointAuthority
    ensures c.hostMode == PassThrough && c.authority.None? ==>
              var wish := HostWish(c, upgrade);
              r.host == if wish.Some? && Trim(wish.value) != "" then wish.value else c.endpointAuthority
  {
    hide Acceptable, ResolvedBy, Assemble, ValuesOf, H1Values, HostWish, Trim;
    HostSource(c, upgrade, r);
    EveryName(c, upgrade, r, out, "host");
    HostValue(c, upgrade, r);
  }

  lemma HostValue(c: Context, upgrade: bool, r: Resolved)
    ensures H1Values(c, upgrade, r, "host") == [r.host]
  {
    hide LegalName, OrDefault, OwnValues, Decimal;
  }

  /** What the client's last Host header asks for, unless that name is withheld from it or the header is undecodable. */
  ghost function HostWish(c: Context, upgrade: bool): Option<string> {
    var h := if Withheld(c, upgrade, "host") then None else LastNamed(c.headers, "host");
    if h.Some? && h.value.utf8 then Some(h.value.value) else None
  }

  lemma HostResolves(c: Context, wish: Option<string>, host: string)
    requires ResolveHost(c, wish) == Some(host)
    ensures c.hostMode == Upstream ==> host == c.endpointAuthority
    ensures c.hostMode == Rewrite ==> c.rewriteHost == Some(host) && Trim(host) != ""
    ensures c.hostMode == PassThrough && c.authority.Some? ==>
              host == if Trim(c.authority.value) != "" then c.authority.value else c.endpointAuthority
    ensures c.hostMode == PassThrough && c.authority.None? ==>
              host == if wish.Some? && Trim(wish.value) != "" then wish.value else c.endpointAuthority
  {
    hide Trim;
  }

  lemma HostSource(c: Context, upgrade: bool, r: Resolved)
    requires Acceptable(c, upgrade) && ResolvedBy(c, upgrade, r)
    ensures c.hostMode == Upstream ==> r.host == c.endpointAuthority
    ensures c.hostMode == Rewrite ==> c.rewriteHost == Some(r.host) && Trim(r.host) != ""
    ensures c.hostMode == PassThrough && c.authority.Some? ==>
              r.host == if Trim(c.authority.value) != "" then c.authority.value else c.endpointAuthority
    ensures c.hostMode == PassThrough && c.authority.None? ==>
              var wish := HostWish(c, upgrade);
              r.host == if wish.Some? && Trim(wish.value) != "" then wish.value else c.endpointAuthority
  {
    hide FateOf, MutationFate, InboundTokens, Withheld, LastNamed, LastHost, FamilyValues, AllLegal, ChainCarries, KeptOf, ResolveHost, Trim;
    LastHostIs(c, upgrade, |c.headers|);
    var fates := Fates(c, InboundTokens(c.headers), upgrade);
    assert fates[..|c.headers|] == fates && c.headers[..|c.headers|] == c.headers;
    HostResolves(c, HostWish(c, upgrade), r.host);
  }

  // ---- Forwarding headers ----

  lemma ChainedFate(h: Inbound, ms: seq<Mutation>, tokens: set<string>, upgrade: bool, f: Family)
    ensures FateOf(h, ms, tokens, upgrade) == Chained(f)
            <==> !(h.name != "" && h.name[0] == ':') && !Mutated(h.name, ms) && FamilyOf(Lower(h.name)) == Some(f)
  {
    hide Lower, Mutated, NameChar, F.Legal, StripRequest, FamilyOf;
  }

  lemma FamilyNamed(name: string, f: Family)
    ensures FamilyOf(name) == Some(f) <==> name == FamilyName(f)
    ensures FamilyName(f) != "" && FamilyName(f)[0] != ':'
  {
  }

  lemma FamilyLower(f: Family)
    ensures Lower(FamilyName(f)) == FamilyName(f)
  {
    hide Lower;
    match f
    case Forwarded => PlainLower("forwarded");
    case XForwardedFor => PlainLower("x-forwarded-for");
    case XForwardedProto => PlainLower("x-forwarded-proto");
    case XForwardedHost => PlainLower("x-forwarded-host");
  }

  lemma ChainedIff(h: Inbound, c: Context, upgrade: bool, f: Family)
    ensures FateOf(h, c.mutations, InboundTokens(c.headers), upgrade) == Chained(f)
            <==> Lower(h.name) == FamilyName(f) && !Mutated(FamilyName(f), c.mutations)
  {
    hide FateOf, InboundTokens, Mutated, Lower, FamilyOf, FamilyName;
    ChainedFate(h, c.mutations, InboundTokens(c.headers), upgrade, f);
    FamilyNamed(Lower(h.name), f);
    FamilyLower(f);
    if Lower(h.name) == FamilyName(f) {
      assert h.name != "";
      LowerKeepsColon(h.name);
      SameMutated(h.name, FamilyName(f), c.mutations);
    }
  }

  lemma {:induction false} ChainIs(c: Context, upgrade: bool, f: Family, k: nat)
    requires k <= |c.headers| && !AnyInvalid(Fates(c, InboundTokens(c.headers), upgrade))
    ensures ChainOf(c.headers[..k], Fates(c, InboundTokens(c.headers), upgrade)[..k], f)
            == if Mutated(FamilyName(f), c.mutations) then [] else SentAs(c.headers[..k], FamilyName(f))
  {
    hide FateOf, Mutated, InboundTokens, Lower, FamilyName;
    var fates := Fates(c, InboundTokens(c.headers), upgrade);
    if k == 0 {
    } else {
      ChainIs(c, upgrade, f, k - 1);
      assert fates[k - 1] in fates;
      ChainedIff(c.headers[k - 1], c, upgrade, f);
      assert fates[..k][..k - 1] == fates[..k - 1] && c.headers[..k][..k - 1] == c.headers[..k - 1];
    }
  }

  /** What the proxy itself says under a forwarding header. */
  function OwnForwarding(c: Context, host: string, name: string): string {
    if name == "x-forwarded-for" then c.ip.text
    else if name == "x-forwarded-proto" then "https"
    else if name == "x-forwarded-host" then host
    else F.Element(c.ip, host)
  }

  lemma ChainSent(c: Context, upgrade: bool, r: Resolved, f: Family)
    requires Acceptable(c, upgrade) && ResolvedBy(c, upgrade, r)
    ensures var inbound := if Mutated(FamilyName(f), c.mutations) then [] else SentAs(c.headers, FamilyName(f));
            var own := OwnForwarding(c, r.host, FamilyName(f));
            Emitted(r.chains.Get(f))
            == match c.forwardedMode
               case Preserve => if inbound == [] then [] else [F.Joined(inbound)]
               case Append => [F.Joined(inbound + [own])]
               case Overwrite => [own]
  {
    hide FateOf, MutationFate, InboundTokens, KeptOf, HostOf, ChainOf, SentAs, Mutated, FamilyName, OwnForwarding, F.Joined, F.UsedValues, CurrentValue, ChainCarries, Emitted, AllLegal;
    ChainIs(c, upgrade, f, |c.headers|);
    var fates := Fates(c, InboundTokens(c.headers), upgrade);
    assert fates[..|c.headers|] == fates && c.headers[..|c.headers|] == c.headers;
    assert ChainCarries(r.chains.Get(f), FamilyValues(c, fates, r.host, f));
    OwnIs(c, r.host, f);
    var inbound := if Mutated(FamilyName(f), c.mutations) then [] else SentAs(c.headers, FamilyName(f));
    EmittedAs(r.chains.Get(f), c.forwardedMode, inbound, OwnForwarding(c, r.host, FamilyName(f)));
  }

  lemma OwnIs(c: Context, host: string, f: Family)
    ensures CurrentValue(c, host, f) == OwnForwarding(c, host, FamilyName(f))
  {
    hide F.Element;
  }

  lemma EmittedAs(v: F.Value, mode: F.Mode, inbound: seq<string>, own: string)
    requires ChainCarries(v, F.UsedValues(mode, inbound, own))
    ensures Emitted(v)
            == match mode
               case Preserve => if inbound == [] then [] else [F.Joined(inbound)]
               case Append => [F.Joined(inbound + [own])]
               case Overwrite => [own]
  {
  }

  /**
    What is sent under the forwarding headers in each mode: the client's values, unless a mutation
    names the header, the proxy's own value, or both in that order, as one value.
   */
  lemma ForwardingSent(c: Context, upgrade: bool, r: Resolved, out: seq<Header>, name: string)
    requires Acceptable(c, upgrade) && ResolvedBy(c, upgrade, r) && Assemble(c, r, H1Shape(upgrade)) == Sent(out)
    requires name in {"forwarded", "x-forwarded-for", "x-forwarded-proto", "x-forwarded-host"}
    ensures var inbound := if Mutated(name, c.mutations) then [] else SentAs(c.headers, name);
            var own := match name
              case "x-forwarded-for" => c.ip.text
              case "x-forwarded-proto" => "https"
              case "x-forwarded-host" => r.host
              case _ => F.Element(c.ip, r.host);
            ValuesOf(out, name)
            == match c.forwardedMode
               case Preserve => if inbound == [] then [] else [F.Joined(inbound)]
               case Append => [F.Joined(inbound + [own])]
               case Overwrite => [own]
  {
    hide Acceptable, ResolvedBy, Assemble, ValuesOf, LegalName, OrDefault, OwnValues, Decimal, SentAs, Mutated, F.Element, F.Joined;
    EveryName(c, upgrade, r, out, name);
    ChainSent(c, upgrade, r, FamilyOf(name).value);
  }

  // ---- What is refused ----

  /** A header of the client's that is sent, or dropped for its name, and cannot fail the request. */
  ghost predicate HeaderFine(h: Inbound, c: Context, upgrade: bool) {
    || (h.name != "" && h.name[0] == ':')
    || Mutated(h.name, c.mutations)
    || Lower(h.name) in {"forwarded", "x-forwarded-for", "x-forwarded-proto", "x-forwarded-host"}
    || (&& h.name != "" && (forall x <- h.name :: NameChar(x))
        && (|| F.Legal(h.value)
            || Lower(h.name) in {"content-length", "te", "proxy-authenticate", "proxy-authorization", "trailer",
                                 "transfer-encoding", "keep-alive", "proxy-connection"}
            || (!upgrade && Lower(h.name) in {"connection", "upgrade"})
            || (Lower(h.name) in InboundTokens(c.headers) && !(upgrade && Lower(h.name) in {"connection", "upgrade"}))))
  }

  /** A mutation that only removes, sets a legal value, or sets a name the proxy keeps to itself. */
  ghost predicate MutationFine(m: Mutation, upgrade: bool) {
    || m.value.None?
    || (&& m.name != "" && (forall x <- m.name :: NameChar(x))
        && (F.Legal(m.value.value) || Reserved(Lower(m.name), upgrade)))
  }

  lemma FamilySpelled(name: string)
    ensures FamilyOf(name).Some? <==> name in {"forwarded", "x-forwarded-for", "x-forwarded-proto", "x-forwarded-host"}
  {
  }

  lemma StripSpelled(name: string, tokens: set<string>, upgrade: bool)
    ensures StripRequest(name, tokens, upgrade)
            <==> || name in {"content-length", "te", "proxy-authenticate", "proxy-authorization", "trailer",
                             "transfer-encoding", "keep-alive", "proxy-connection",
                             "forwarded", "x-forwarded-for", "x-forwarded-proto", "x-forwarded-host"}
                 || (!upgrade && name in {"connection", "upgrade"})
                 || (name in tokens && !(upgrade && name in {"connection", "upgrade"}))
  {
  }

  lemma InvalidIff(h: Inbound, c: Context, upgrade: bool)
    ensures FateOf(h, c.mutations, InboundTokens(c.headers), upgrade).Invalid? <==> !HeaderFine(h, c, upgrade)
  {
    FamilySpelled(Lower(h.name));
    StripSpelled(Lower(h.name), InboundTokens(c.headers), upgrade);
    hide Lower, InboundTokens, Mutated, NameChar, F.Legal, StripRequest, FamilyOf;
  }

  lemma MutationInvalidIff(m: Mutation, upgrade: bool)
    ensures MutationFate(m, upgrade).Invalid? <==> !MutationFine(m, upgrade)
  {
    hide Lower, NameChar, F.Legal, StripProxy;
  }

  /**
    A request passes the header policies exactly when none of its headers and no mutation is bad,
    there is a host to send, and every value of the forwarding headers is legal.
   */
  lemma AcceptableIff(c: Context, upgrade: bool)
    ensures Acceptable(c, upgrade)
            <==> && (forall i :: 0 <= i < |c.headers| ==> HeaderFine(c.headers[i], c, upgrade))
                 && (forall i :: 0 <= i < |c.mutations| ==> MutationFine(c.mutations[i], upgrade))
                 && HostOf(c, Fates(c, InboundTokens(c.headers), upgrade)).Some?
                 && forall f: Family :: AllLegal(FamilyValues(c, Fates(c, InboundTokens(c.headers), upgrade),
                                                    HostOf(c, Fates(c, InboundTokens(c.headers), upgrade)).value, f))
  {
    var fates, sets := Fates(c, InboundTokens(c.headers), upgrade), MutationFates(c, upgrade);
    forall i | 0 <= i < |c.headers| ensures fates[i].Invalid? <==> !HeaderFine(c.headers[i], c, upgrade) {
      InvalidIff(c.headers[i], c, upgrade);
    }
    forall i | 0 <= i < |c.mutations| ensures sets[i].Invalid? <==> !MutationFine(c.mutations[i], upgrade) {
      MutationInvalidIff(c.mutations[i], upgrade);
    }
    hide FateOf, MutationFate, HeaderFine, MutationFine, InboundTokens, HostOf, FamilyValues, AllLegal;
    AnyAt(fates);
    AnyAt(sets);
  }

  lemma AnyAt(fates: seq<Fate>)
    ensures AnyInvalid(fates) <==> exists i :: 0 <= i < |fates| && fates[i].Invalid?
  {
    if exists i :: 0 <= i < |fates| && fates[i].Invalid? {
      var i :| 0 <= i < |fates| && fates[i].Invalid?;
      assert fates[i] in fates;
    }
  }
}

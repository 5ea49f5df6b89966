/** Response normalization (crates/bridge/src/response.rs). */
module Response {
  import opened Prelude
  import opened Headers

  datatype Protocol = Http1 | Http3

  datatype Constraints = Constraints(
    protocol: Protocol,
    stripConnection: bool,
    allowTrailers: bool,
    preserveUpgrade: bool)

  /** `HeaderValue::to_str`: visible ASCII, space and tab. */
  predicate Readable(value: string) { forall c <- value :: c == '\t' || ' ' <= c <= '~' }

  /** response_connection_tokens; header names are lower case. */
  function ConnectionTokens(hs: seq<Header>): set<string> {
    if hs == [] then {}
    else
      var last := hs[|hs| - 1];
      ConnectionTokens(hs[..|hs| - 1])
        + (if last.name == "connection" && Readable(last.value) then Tokens(Split(last.value)) else {})
  }

  predicate Strip(name: string, tokens: set<string>, c: Constraints) {
    || (c.stripConnection && !(c.preserveUpgrade && IsUpgradeName(name)) && name in tokens)
    || (name in HOP_BY_HOP && !(c.preserveUpgrade && IsUpgradeName(name)))
    || (c.protocol.Http3? && name == "content-length")
    || (c.protocol.Http1? && name == "alt-svc")
  }

  /** The headers that survive, in order. */
  function Keep(hs: seq<Header>, tokens: set<string>, c: Constraints): seq<Header> {
    if hs == [] then []
    else
      var last := hs[|hs| - 1];
      var init := Keep(hs[..|hs| - 1], tokens, c);
      if Strip(last.name, tokens, c) then init else init + [last]
  }

  function NormalizeHeaders(hs: seq<Header>, c: Constraints): seq<Header> {
    Keep(hs, ConnectionTokens(hs), c)
  }

  function NormalizeTrailers(trailers: seq<Header>, c: Constraints): seq<Header> {
    if c.allowTrailers then NormalizeHeaders(trailers, c) else []
  }

  /** Some readable Connection header lists the token `t`. */
  ghost predicate Lists(hs: seq<Header>, t: string) {
    exists h <- hs :: h.name == "connection" && Readable(h.value) && t in Tokens(Split(h.value))
  }

  lemma {:induction false} TokensAreListed(hs: seq<Header>, t: string)
    ensures t in ConnectionTokens(hs) <==> Lists(hs, t)
  {
    hide Tokens, Split, Readable;
    if hs == [] {
    } else {
      var n := |hs| - 1;
      TokensAreListed(hs[..n], t);
      assert hs == hs[..n] + [hs[n]];
    }
  }

  /** The headers whose name is not dropped, in order. */
  function Without(hs: seq<Header>, dropped: string -> bool): seq<Header> {
    if hs == [] then []
    else
      var last := hs[|hs| - 1];
      var init := Without(hs[..|hs| - 1], dropped);
      if dropped(last.name) then init else init + [last]
  }

  lemma {:induction false} KeepIsWithout(hs: seq<Header>, tokens: set<string>, c: Constraints, dropped: string -> bool)
    requires forall name :: Strip(name, tokens, c) == dropped(name)
    ensures Keep(hs, tokens, c) == Without(hs, dropped)
  {
    hide Strip;
    if hs == [] {
    } else {
      assert Strip(hs[|hs| - 1].name, tokens, c) == dropped(hs[|hs| - 1].name);
      KeepIsWithout(hs[..|hs| - 1], tokens, c, dropped);
    }
  }

  method ResponseConnectionTokens(hs: seq<Header>) returns (tokens: set<string>)
    ensures tokens == ConnectionTokens(hs)
    ensures forall t :: t in tokens <==> Lists(hs, t)
  {
    forall t ensures t in ConnectionTokens(hs) <==> Lists(hs, t) {
      TokensAreListed(hs, t);
    }
    hide Lists;
    tokens := {};
    for k := 0 to |hs|
      invariant tokens == ConnectionTokens(hs[..k])
    {
      assert hs[..k + 1][..k] == hs[..k];
      if hs[k].name == "connection" && Readable(hs[k].value) {
        tokens := AddTokens(hs[k].value, tokens);
      }
    }
    assert hs[..|hs|] == hs;
  }

  /** The filter loop of normalize_upstream_response and normalize_response_trailers. */
  method FilterHeaders(hs: seq<Header>, c: Constraints) returns (out: seq<Header>)
    ensures out == NormalizeHeaders(hs, c)
    ensures var tokens := ConnectionTokens(hs);
            out == Without(hs, name =>
              || name in {"proxy-authenticate", "proxy-authorization", "te", "trailer", "transfer-encoding",
                          "keep-alive", "proxy-connection"}
              || (!c.preserveUpgrade && (name == "connection" || name == "upgrade"))
              || (c.stripConnection && name in tokens && !(c.preserveUpgrade && (name == "connection" || name == "upgrade")))
              || (c.protocol == Http3 && name == "content-length")
              || (c.protocol == Http1 && name == "alt-svc"))
  {
    var tokens := ResponseConnectionTokens(hs);
    out := [];
    for k := 0 to |hs|
      invariant out == Keep(hs[..k], tokens, c)
    {
      assert hs[..k + 1][..k] == hs[..k];
      if !Strip(hs[k].name, tokens, c) {
        out := out + [hs[k]];
      }
    }
    assert hs[..|hs|] == hs;
    KeptSpelled(hs, c);
  }

  /**
    What a normalized response keeps: every header in order but those under the hop-by-hop names,
    Connection and Upgrade apart when an upgrade is preserved, those a Connection header lists when
    such headers are stripped, and the framing header of the other protocol.
   */
  lemma KeptSpelled(hs: seq<Header>, c: Constraints)
    ensures var tokens := ConnectionTokens(hs);
            NormalizeHeaders(hs, c) == Without(hs, name =>
              || name in {"proxy-authenticate", "proxy-authorization", "te", "trailer", "transfer-encoding",
                          "keep-alive", "proxy-connection"}
              || (!c.preserveUpgrade && (name == "connection" || name == "upgrade"))
              || (c.stripConnection && name in tokens && !(c.preserveUpgrade && (name == "connection" || name == "upgrade")))
              || (c.protocol == Http3 && name == "content-length")
              || (c.protocol == Http1 && name == "alt-svc"))
  {
    var tokens := ConnectionTokens(hs);
    var dropped: string -> bool := name =>
      || name in {"proxy-authenticate", "proxy-authorization", "te", "trailer", "transfer-encoding",
                  "keep-alive", "proxy-connection"}
      || (!c.preserveUpgrade && (name == "connection" || name == "upgrade"))
      || (c.stripConnection && name in tokens && !(c.preserveUpgrade && (name == "connection" || name == "upgrade")))
      || (c.protocol == Http3 && name == "content-length")
      || (c.protocol == Http1 && name == "alt-svc");
    forall name ensures Strip(name, tokens, c) == dropped(name) {
    }
    KeepIsWithout(hs, tokens, c, dropped);
  }

  /** Trailers go through the same filter, or are dropped altogether. */
  lemma TrailersSpelled(trailers: seq<Header>, c: Constraints)
    ensures c.allowTrailers ==> NormalizeTrailers(trailers, c) == NormalizeHeaders(trailers, c)
    ensures !c.allowTrailers ==> NormalizeTrailers(trailers, c) == []
  {
  }

  // ---- Idempotence ----

  /** Filtering can only shrink the token set. */
  lemma {:induction false} KeptTokens(hs: seq<Header>, tokens: set<string>, c: Constraints)
    ensures ConnectionTokens(Keep(hs, tokens, c)) <= ConnectionTokens(hs)
  {
    if hs == [] {
    } else {
      var init := hs[..|hs| - 1];
      KeptTokens(init, tokens, c);
      var kept := Keep(init, tokens, c);
      assert (kept + [hs[|hs| - 1]])[..|kept|] == kept;
    }
  }

  lemma {:induction false} KeepTwice(hs: seq<Header>, tokens: set<string>, fewer: set<string>, c: Constraints)
    requires fewer <= tokens
    ensures Keep(Keep(hs, tokens, c), fewer, c) == Keep(hs, tokens, c)
  {
    if hs == [] {
    } else {
      var init := hs[..|hs| - 1];
      KeepTwice(init, tokens, fewer, c);
      var kept := Keep(init, tokens, c);
      assert (kept + [hs[|hs| - 1]])[..|kept|] == kept;
    }
  }

  /** Normalizing again changes nothing, although the tokens are read from the filtered headers. */
  lemma NormalizeIdempotent(hs: seq<Header>, c: Constraints)
    ensures NormalizeHeaders(NormalizeHeaders(hs, c), c) == NormalizeHeaders(hs, c)
    ensures NormalizeTrailers(NormalizeTrailers(hs, c), c) == NormalizeTrailers(hs, c)
  {
    var tokens := ConnectionTokens(hs);
    KeptTokens(hs, tokens, c);
    KeepTwice(hs, tokens, ConnectionTokens(Keep(hs, tokens, c)), c);
  }

  // ---- The two downstream protocols ----

  /** What does not depend on the downstream protocol. */
  function EndToEnd(hs: seq<Header>): seq<Header> {
    if hs == [] then []
    else
      var last := hs[|hs| - 1];
      var init := EndToEnd(hs[..|hs| - 1]);
      if last.name == "content-length" || last.name == "alt-svc" then init else init + [last]
  }

  lemma EndToEndAppend(hs: seq<Header>, h: Header)
    ensures EndToEnd(hs + [h])
            == if h.name == "content-length" || h.name == "alt-svc" then EndToEnd(hs) else EndToEnd(hs) + [h]
  {
    assert (hs + [h])[..|hs|] == hs;
  }

  lemma {:induction false} ProtocolsAgree(hs: seq<Header>, tokens: set<string>, c: Constraints, p: Protocol)
    ensures EndToEnd(Keep(hs, tokens, c)) == EndToEnd(Keep(hs, tokens, c.(protocol := p)))
  {
    if hs == [] {
    } else {
      var init, last := hs[..|hs| - 1], hs[|hs| - 1];
      ProtocolsAgree(init, tokens, c, p);
      EndToEndAppend(Keep(init, tokens, c), last);
      EndToEndAppend(Keep(init, tokens, c.(protocol := p)), last);
    }
  }

  /** For equal flags the HTTP/3 and HTTP/1 outputs differ only in Content-Length and Alt-Svc. */
  lemma DownstreamsDifferOnlyInFraming(hs: seq<Header>, c: Constraints)
    ensures EndToEnd(NormalizeHeaders(hs, c.(protocol := Http3))) == EndToEnd(NormalizeHeaders(hs, c.(protocol := Http1)))
    ensures forall h <- NormalizeHeaders(hs, c.(protocol := Http3)) :: h.name != "content-length"
    ensures forall h <- NormalizeHeaders(hs, c.(protocol := Http1)) :: h.name != "alt-svc"
  {
    ProtocolsAgree(hs, ConnectionTokens(hs), c.(protocol := Http3), Http1);
    KeptNames(hs, ConnectionTokens(hs), c.(protocol := Http3));
    KeptNames(hs, ConnectionTokens(hs), c.(protocol := Http1));
  }

  lemma {:induction false} KeptNames(hs: seq<Header>, tokens: set<string>, c: Constraints)
    ensures forall h <- Keep(hs, tokens, c) :: h in hs && !Strip(h.name, tokens, c)
  {
    if hs == [] {
    } else {
      KeptNames(hs[..|hs| - 1], tokens, c);
    }
  }

  // ---- Emission policy ----

  datatype BodyMode = Normal | HeadRequest | BodylessRequest | TunnelSuccess

  datatype Emission = Emission(suppressBody: bool, stripContentLength: bool, endStreamOnHeaders: bool)

  predicate StatusForbidsBody(status: nat) { 100 <= status <= 199 || status == 204 || status == 304 }

  predicate AllDigits(s: string) { forall i :: 0 <= i < |s| ==> '0' <= s[i] <= '9' }

  function DecimalValue(s: string): nat
    requires AllDigits(s)
  {
    if s == "" then 0 else DecimalValue(s[..|s| - 1]) * 10 + (s[|s| - 1] as int - '0' as int)
  }

  /** Decimal digits with an optional plus sign, as `parse::<usize>` reads them (without its upper limit). */
  function ParseLength(s: string): Option<nat> {
    var digits := if s != "" && s[0] == '+' then s[1..] else s;
    if digits == "" || !AllDigits(digits) then None else Some(DecimalValue(digits))
  }

  /** The first Content-Length, when it reads as a number. */
  function DeclaredLength(hs: seq<Header>): Option<nat> {
    if hs == [] then None
    else if hs[0].name == "content-length" then
      if Readable(hs[0].value) then ParseLength(hs[0].value) else None
    else DeclaredLength(hs[1..])
  }

  predicate Suppresses(status: nat, mode: BodyMode) {
    !mode.TunnelSuccess? && (mode.HeadRequest? || mode.BodylessRequest? || StatusForbidsBody(status))
  }

  function EmissionFor(status: nat, hs: seq<Header>, mode: BodyMode, c: Constraints): Emission {
    Emission(
      Suppresses(status, mode),
      c.protocol.Http3?,
      Suppresses(status, mode) || (!mode.TunnelSuccess? && (StatusForbidsBody(status) || DeclaredLength(hs) == Some(0))))
  }

  /** Content-Length is dropped by the filter. */
  /**
    A response to HEAD, to a bodyless request or with a status that has no body (1xx, 204, 304) never
    carries one; it ends its stream with the headers, as does one that declares an empty body. A
    tunnel does neither.
   */
  lemma EmissionLaw(status: nat, hs: seq<Header>, mode: BodyMode, c: Constraints)
    ensures var e := EmissionFor(status, hs, mode, c);
            && e.suppressBody == (mode != TunnelSuccess
                 && (mode == HeadRequest || mode == BodylessRequest || status / 100 == 1 || status == 204 || status == 304))
            && e.endStreamOnHeaders == (e.suppressBody || (mode != TunnelSuccess && DeclaredLength(hs) == Some(0)))
            && e.stripContentLength == (c.protocol == Http3)
  {
  }

  /** The length that counts is the one of the first Content-Length header. */
  lemma {:induction false} FirstLengthCounts(before: seq<Header>, value: string, after: seq<Header>)
    requires forall i :: 0 <= i < |before| ==> before[i].name != "content-length"
    ensures DeclaredLength(before + [Header("content-length", value)] + after)
            == if Readable(value) then ParseLength(value) else None
    decreases |before|
  {
    var hs := before + [Header("content-length", value)] + after;
    if before == [] {
      assert hs[0] == Header("content-length", value);
    } else {
      assert hs[1..] == before[1..] + [Header("content-length", value)] + after;
      FirstLengthCounts(before[1..], value, after);
    }
  }

  predicate DropsLength(hs: seq<Header>, c: Constraints) { Strip("content-length", ConnectionTokens(hs), c) }

  predicate HasLength(hs: seq<Header>) { exists h <- hs :: h.name == "content-length" }

  lemma HasLengthAppend(hs: seq<Header>, h: Header)
    ensures HasLength(hs + [h]) <==> HasLength(hs) || h.name == "content-length"
  {
    assert h in hs + [h];
    assert forall g <- hs :: g in hs + [h];
  }

  lemma {:induction false} DeclaredAppend(hs: seq<Header>, h: Header)
    ensures DeclaredLength(hs + [h]) == if HasLength(hs) then DeclaredLength(hs) else DeclaredLength([h])
    ensures !HasLength(hs) ==> DeclaredLength(hs).None?
    decreases |hs|
  {
    if hs == [] {
      assert hs + [h] == [h];
    } else {
      assert (hs + [h])[1..] == hs[1..] + [h];
      assert hs == [hs[0]] + hs[1..];
      DeclaredAppend(hs[1..], h);
    }
  }

  lemma {:induction false} LengthKept(hs: seq<Header>, tokens: set<string>, c: Constraints)
    ensures HasLength(Keep(hs, tokens, c)) <==> HasLength(hs) && !Strip("content-length", tokens, c)
    ensures DeclaredLength(Keep(hs, tokens, c))
            == if Strip("content-length", tokens, c) then None else DeclaredLength(hs)
  {
    if hs == [] {
    } else {
      var init, last := hs[..|hs| - 1], hs[|hs| - 1];
      assert hs == init + [last];
      var kept := Keep(init, tokens, c);
      LengthKept(init, tokens, c);
      HasLengthAppend(init, last);
      HasLengthAppend(kept, last);
      DeclaredAppend(init, last);
      DeclaredAppend(kept, last);
      hide HasLength, Strip;
      assert [last][1..] == [];
    }
  }

  /**
    Unlike the headers, the emission policy is not stable under a second pass: it is, exactly
    unless a declared zero length was what ended the stream and the filter drops that header.
   */
  lemma EmissionStableIff(status: nat, hs: seq<Header>, mode: BodyMode, c: Constraints)
    ensures EmissionFor(status, NormalizeHeaders(hs, c), mode, c) == EmissionFor(status, hs, mode, c)
            <==> !(mode.Normal? && !StatusForbidsBody(status) && DeclaredLength(hs) == Some(0) && DropsLength(hs, c))
  {
    LengthKept(hs, ConnectionTokens(hs), c);
  }

  /** A response that ends its stream on the first pass and not on the second. */
  lemma EmissionUnstable()
    ensures var c := Constraints(Http3, true, true, false);
            var hs := [Header("content-length", "0")];
            && EmissionFor(200, hs, Normal, c) == Emission(false, true, true)
            && NormalizeHeaders(hs, c) == []
            && EmissionFor(200, NormalizeHeaders(hs, c), Normal, c) == Emission(false, true, false)
  {
    var h := Header("content-length", "0");
    assert [h][..0] == [] && "0"[..0] == "";
    assert ParseLength("0") == Some(0);
    assert Keep([h], ConnectionTokens([h]), Constraints(Http3, true, true, false)) == [];
  }
}

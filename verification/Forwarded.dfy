/** Forwarding headers (crates/bridge/src/forwarded.rs). */
module Forwarded {
  import opened Prelude

  // ---- Quoting the host ----

  /** `str::replace` of one character. */
  function ReplaceChar(s: string, c: char, sub: string): string {
    if s == "" then "" else (if s[0] == c then sub else [s[0]]) + ReplaceChar(s[1..], c, sub)
  }

  /** escape_forwarded_host: first double the backslashes, then escape the quotes. */
  function EscapeHost(host: string): string {
    ReplaceChar(ReplaceChar(host, '\\', "\\\\"), '"', "\\\"")
  }

  function EscapeChar(c: char): string { if c == '\\' || c == '"' then ['\\', c] else [c] }

  /** The one-pass escaper: a backslash before every backslash and quote. */
  function EscapeOnce(host: string): string {
    if host == "" then "" else EscapeChar(host[0]) + EscapeOnce(host[1..])
  }

  lemma {:induction false} ReplaceConcat(s: string, t: string, c: char, sub: string)
    ensures ReplaceChar(s + t, c, sub) == ReplaceChar(s, c, sub) + ReplaceChar(t, c, sub)
  {
    if s == "" {
      assert s + t == t;
    } else {
      assert (s + t)[1..] == s[1..] + t;
      ReplaceConcat(s[1..], t, c, sub);
    }
  }

  lemma ReplaceOne(c: char, sub: string, x: char)
    ensures ReplaceChar([x], c, sub) == if x == c then sub else [x]
  {
    assert [x][1..] == "";
  }

  lemma EscapeTwice(x: char)
    ensures ReplaceChar(if x == '\\' then "\\\\" else [x], '"', "\\\"") == EscapeChar(x)
  {
    if x == '\\' {
      assert "\\\\" == ['\\'] + ['\\'];
      ReplaceConcat(['\\'], ['\\'], '"', "\\\"");
    }
    ReplaceOne('"', "\\\"", x);
  }

  /** The two replacements in sequence do what one pass does. */
  lemma {:induction false} EscapeIsOnePass(host: string)
    ensures EscapeHost(host) == EscapeOnce(host)
  {
    if host == "" {
    } else {
      var first := if host[0] == '\\' then "\\\\" else [host[0]];
      ReplaceConcat(first, ReplaceChar(host[1..], '\\', "\\\\"), '"', "\\\"");
      EscapeTwice(host[0]);
      EscapeIsOnePass(host[1..]);
    }
  }

  /** Reading a quoted-string body (section 5.6.4 of RFC 9110): a quoted-pair stands for its second character. */
  function Unescape(s: string): string {
    if s == "" then ""
    else if s[0] == '\\' && |s| > 1 then [s[1]] + Unescape(s[2..])
    else [s[0]] + Unescape(s[1..])
  }

  /** Offset of the quote that closes a quoted-string body starting at the front of `s`. */
  function ClosingQuote(s: string): (r: Option<nat>)
    ensures r.Some? ==> r.value < |s| && s[r.value] == '"'
  {
    if s == "" then None
    else if s[0] == '"' then Some(0)
    else
      var skip := if s[0] == '\\' && |s| > 1 then 2 else 1;
      var rest := ClosingQuote(s[skip..]);
      if rest.None? then None else Some(rest.value + skip)
  }

  lemma {:induction false} UnescapeEscaped(host: string)
    ensures Unescape(EscapeOnce(host)) == host
  {
    if host == "" {
    } else {
      var rest := EscapeOnce(host[1..]);
      UnescapeEscaped(host[1..]);
      assert EscapeOnce(host)[|EscapeChar(host[0])|..] == rest;
    }
  }

  lemma {:induction false} QuoteCloses(host: string, after: string)
    ensures ClosingQuote(EscapeOnce(host) + "\"" + after) == Some(|EscapeOnce(host)|)
  {
    var s := EscapeOnce(host) + "\"" + after;
    if host == "" {
    } else {
      var rest := EscapeOnce(host[1..]) + "\"" + after;
      QuoteCloses(host[1..], after);
      QuoteSkips(host[0], rest);
      assert s == EscapeChar(host[0]) + rest;
    }
  }

  /** The scan for the closing quote passes an escaped character. */
  lemma QuoteSkips(c: char, rest: string)
    requires ClosingQuote(rest).Some?
    ensures ClosingQuote(EscapeChar(c) + rest) == Some(|EscapeChar(c)| + ClosingQuote(rest).value)
  {
    var s := EscapeChar(c) + rest;
    if c == '\\' || c == '"' {
      assert s[2..] == rest;
    } else {
      assert s[1..] == rest;
    }
  }

  /** Quoting loses nothing, and nothing in a host can end the quoted-string early. */
  lemma HostQuotingRoundTrips(host: string, after: string)
    ensures Unescape(EscapeHost(host)) == host
    ensures ClosingQuote(EscapeHost(host) + "\"" + after) == Some(|EscapeHost(host)|)
  {
    EscapeIsOnePass(host);
    UnescapeEscaped(host);
    QuoteCloses(host, after);
  }

  // ---- The Forwarded element ----

  datatype ClientIp = V4(text: string) | V6(text: string)

  function ForValue(ip: ClientIp): string {
    match ip
    case V4(text) => text
    case V6(text) => "\"[" + text + "]\""
  }

  function Element(ip: ClientIp, host: string): string {
    "for=" + ForValue(ip) + ";proto=https;host=\"" + EscapeHost(host) + "\""
  }

  datatype Pair = Pair(name: string, value: string)

  /** Characters a token may hold here: anything but the delimiters of section 4 of RFC 7239. */
  predicate TokenChar(c: char) { c != '"' && c != '\\' && c != ';' && c != ',' && c != '=' && c != ' ' }

  ghost predicate Token(s: string) { forall c <- s :: TokenChar(c) }

  function TokenEnd(s: string): (n: nat)
    ensures n <= |s| && (forall i :: 0 <= i < n ==> TokenChar(s[i])) && (n < |s| ==> !TokenChar(s[n]))
  {
    if s == "" || !TokenChar(s[0]) then 0 else 1 + TokenEnd(s[1..])
  }

  /** A token or quoted-string at the front of `s`, and what follows it. */
  function ReadValue(s: string): (r: Option<(string, string)>)
    ensures r.Some? ==> |r.value.1| <= |s|
  {
    if s != "" && s[0] == '"' then
      var close := ClosingQuote(s[1..]);
      if close.None? then None else Some((Unescape(s[1..][..close.value]), s[1..][close.value + 1..]))
    else
      var n := TokenEnd(s);
      Some((s[..n], s[n..]))
  }

  /** forwarded-pair: name, equals sign, value. */
  function ReadPair(s: string): (r: Option<(Pair, string)>)
    ensures r.Some? ==> |r.value.1| < |s|
  {
    var n := TokenEnd(s);
    if n == |s| || s[n] != '=' then None
    else
      var v := ReadValue(s[n + 1..]);
      if v.None? then None else Some((Pair(s[..n], v.value.0), v.value.1))
  }

  /** forwarded-element: pairs separated by semicolons. */
  function ReadElement(s: string): Option<(seq<Pair>, string)>
    decreases |s|
  {
    var p := ReadPair(s);
    if p.None? then None
    else if p.value.1 == "" || p.value.1[0] != ';' then Some(([p.value.0], p.value.1))
    else
      var more := ReadElement(p.value.1[1..]);
      if more.None? then None else Some(([p.value.0] + more.value.0, more.value.1))
  }

  lemma {:induction false} TokenEnds(t: string, after: string)
    requires Token(t) && (after == "" || !TokenChar(after[0]))
    ensures TokenEnd(t + after) == |t|
  {
    if t == "" {
      assert t + after == after;
    } else {
      assert (t + after)[1..] == t[1..] + after;
      TokenEnds(t[1..], after);
    }
  }

  lemma ReadQuoted(host: string, after: string)
    ensures ReadValue("\"" + EscapeHost(host) + "\"" + after) == Some((host, after))
  {
    var body := EscapeHost(host);
    var s := "\"" + body + "\"" + after;
    HostQuotingRoundTrips(host, after);
    assert s[1..] == body + "\"" + after;
    assert (body + "\"" + after)[..|body|] == body;
    assert (body + "\"" + after)[|body| + 1..] == after;
  }

  lemma ReadToken(t: string, after: string)
    requires t != "" && Token(t) && (after == "" || !TokenChar(after[0]))
    ensures ReadValue(t + after) == Some((t, after))
  {
    TokenEnds(t, after);
    assert (t + after)[0] == t[0];
    assert (t + after)[..|t|] == t && (t + after)[|t|..] == after;
  }

  lemma ReadNamed(name: string, rest: string, value: string, after: string)
    requires Token(name) && ReadValue(rest) == Some((value, after))
    ensures ReadPair(name + "=" + rest) == Some((Pair(name, value), after))
  {
    var s := name + "=" + rest;
    assert s == name + ("=" + rest);
    TokenEnds(name, "=" + rest);
    assert s[..|name|] == name && s[|name| + 1..] == rest;
  }

  lemma Assoc(a: string, b: string, c: string)
    ensures a + b + c == a + (b + c)
  {
  }

  function ForText(ip: ClientIp): string { if ip.V4? then ip.text else "[" + ip.text + "]" }

  lemma ReadForV4(text: string, after: string)
    requires text != "" && Token(text) && after != "" && after[0] == ';'
    ensures ReadPair("for=" + text + after) == Some((Pair("for", text), after))
  {
    ReadToken(text, after);
    hide ReadPair, ReadValue;
    ReadNamed("for", text + after, text, after);
    assert "for=" == "for" + "=";
    Assoc("for=", text, after);
  }

  lemma QuotedBracket(text: string)
    ensures ForValue(V6(text)) == "\"" + ("[" + text + "]") + "\""
  {
    assert "\"[" == "\"" + "[" && "]\"" == "]" + "\"";
    Assoc("\"", "[", text);
    Assoc("\"" + ("[" + text), "]", "\"");
    Assoc("\"", "[" + text, "]");
  }

  lemma ReadForV6(text: string, after: string)
    requires Token(text)
    ensures ReadPair("for=" + ForValue(V6(text)) + after) == Some((Pair("for", ForText(V6(text))), after))
  {
    var body := "[" + text + "]";
    forall i | 0 <= i < |body| ensures body[i] != '\\' && body[i] != '"' {
      assert body[i] == '[' || body[i] == ']' || body[i] in text;
    }
    PlainUnescaped(body);
    hide ReadPair, ReadValue, EscapeHost;
    ReadQuoted(body, after);
    ReadNamed("for", "\"" + body + "\"" + after, body, after);
    assert "for=" == "for" + "=";
    QuotedBracket(text);
    Assoc("for=", ForValue(V6(text)), after);
  }

  lemma ReadFor(ip: ClientIp, after: string)
    requires ip.text != "" && Token(ip.text) && after != "" && after[0] == ';'
    ensures ReadPair("for=" + ForValue(ip) + after) == Some((Pair("for", ForText(ip)), after))
  {
    hide ReadPair;
    if ip.V4? {
      ReadForV4(ip.text, after);
    } else {
      ReadForV6(ip.text, after);
    }
  }

  /** Text without backslash or quote is its own escaped form. */
  lemma {:induction false} PlainUnescaped(s: string)
    requires forall i :: 0 <= i < |s| ==> s[i] != '\\' && s[i] != '"'
    ensures EscapeHost(s) == s
  {
    EscapeIsOnePass(s);
    PlainOnce(s);
  }

  lemma {:induction false} PlainOnce(s: string)
    requires forall i :: 0 <= i < |s| ==> s[i] != '\\' && s[i] != '"'
    ensures EscapeOnce(s) == s
  {
    if s == "" {
    } else {
      PlainOnce(s[1..]);
      assert s == [s[0]] + s[1..];
    }
  }

  lemma ReadHost(host: string, after: string)
    requires after == "" || after[0] != ';'
    ensures ReadElement("host=\"" + EscapeHost(host) + "\"" + after) == Some(([Pair("host", host)], after))
  {
    hide ReadPair, ReadValue, EscapeHost;
    var quoted := "\"" + EscapeHost(host) + "\"" + after;
    ReadQuoted(host, after);
    ReadNamed("host", quoted, host, after);
    assert "host=\"" + EscapeHost(host) + "\"" + after == "host" + "=" + quoted;
  }

  lemma ReadProto(rest: string, pairs: seq<Pair>, after: string)
    requires ReadElement(rest) == Some((pairs, after))
    ensures ReadElement("proto=https;" + rest) == Some(([Pair("proto", "https")] + pairs, after))
  {
    ReadToken("https", ";" + rest);
    hide ReadPair, ReadValue;
    ReadNamed("proto", "https" + (";" + rest), "https", ";" + rest);
    ProtoSplits(rest);
    assert (";" + rest)[1..] == rest;
  }

  lemma ProtoSplits(rest: string)
    ensures "proto=https;" + rest == "proto" + "=" + ("https" + (";" + rest))
  {
    assert "proto=https;" == ("proto" + "=") + ("https" + ";");
    Assoc("https", ";", rest);
    Assoc("proto" + "=", "https" + ";", rest);
  }

  lemma ReadForThen(ip: ClientIp, rest: string, pairs: seq<Pair>, after: string)
    requires ip.text != "" && Token(ip.text) && ReadElement(rest) == Some((pairs, after))
    ensures ReadElement("for=" + ForValue(ip) + (";" + rest)) == Some(([Pair("for", ForText(ip))] + pairs, after))
  {
    hide ReadPair, ForValue, ForText;
    ReadFor(ip, ";" + rest);
    assert (";" + rest)[1..] == rest;
  }

  lemma ElementSplits(ip: ClientIp, host: string, after: string)
    ensures Element(ip, host) + after
            == "for=" + ForValue(ip) + (";" + ("proto=https;" + ("host=\"" + EscapeHost(host) + "\"" + after)))
  {
    hide EscapeHost, ForValue;
    var head, body, close := "for=" + ForValue(ip), EscapeHost(host), "\"";
    var sep := ";proto=https;host=\"";
    Assoc(head + sep + body, close, after);
    Assoc(head + sep, body, close + after);
    Assoc(head, sep, body + (close + after));
    Assoc("host=\"", body, close);
    Assoc("host=\"", body + close, after);
    Assoc(body, close, after);
    SepSplits(body + (close + after));
  }

  lemma SepSplits(rest: string)
    ensures ";proto=https;host=\"" + rest == ";" + ("proto=https;" + ("host=\"" + rest))
  {
    assert ";proto=https;host=\"" == ";" + ("proto=https;" + "host=\"");
    Assoc("proto=https;", "host=\"", rest);
    Assoc(";", "proto=https;" + "host=\"", rest);
  }

  /**
    A reader of the emitted element gets back the client address, the scheme and the host exactly,
    whatever characters the host holds, unless what follows is a further parameter of the element.
   */
  lemma ElementReadsBack(ip: ClientIp, host: string, after: string)
    requires ip.text != "" && Token(ip.text) && (after == "" || after[0] != ';')
    ensures ReadElement(Element(ip, host) + after)
            == Some(([Pair("for", ForText(ip)), Pair("proto", "https"), Pair("host", host)], after))
  {
    hide ReadElement, EscapeHost, ForValue, ForText;
    var third := "host=\"" + EscapeHost(host) + "\"" + after;
    var second := "proto=https;" + third;
    ReadHost(host, after);
    ReadProto(third, [Pair("host", host)], after);
    ReadForThen(ip, second, [Pair("proto", "https")] + [Pair("host", host)], after);
    ElementSplits(ip, host, after);
    assert [Pair("for", ForText(ip))] + ([Pair("proto", "https")] + [Pair("host", host)])
        == [Pair("for", ForText(ip)), Pair("proto", "https"), Pair("host", host)];
  }

  // ---- Chains ----

  datatype Mode = Preserve | Append | Overwrite

  datatype Value = Absent | Present(text: string) | InvalidHeader

  /** HeaderValue::from_bytes. */
  predicate Allowed(c: char) { (c >= ' ' && c != 127 as char) || c == '\t' }

  predicate Legal(s: string) { forall c <- s :: Allowed(c) }

  /** The values with ", " between them. */
  function Joined(values: seq<string>): string {
    if values == [] then ""
    else if |values| == 1 then values[0]
    else Joined(values[..|values| - 1]) + ", " + values[|values| - 1]
  }

  lemma {:induction false} JoinedLegal(values: seq<string>)
    ensures Legal(Joined(values)) <==> forall v <- values :: Legal(v)
  {
    if |values| == 1 {
      assert values == [values[0]];
    } else if |values| > 1 {
      var n := |values| - 1;
      JoinedLegal(values[..n]);
      LegalConcat(Joined(values[..n]) + ", ", values[n]);
      LegalConcat(Joined(values[..n]), ", ");
      assert values == values[..n] + [values[n]];
    }
  }

  lemma LegalConcat(a: string, b: string)
    ensures Legal(a + b) <==> Legal(a) && Legal(b)
  {
    assert forall c <- a :: c in a + b;
    assert forall c <- b :: c in a + b;
  }

  /** join_header_chain: absent without values, refused exactly when some value is not a legal header value. */
  method JoinHeaderChain(values: seq<string>) returns (r: Value)
    ensures r.Absent? <==> values == []
    ensures r.InvalidHeader? <==> exists v <- values :: !Legal(v)
    ensures r.Present? ==> r.text == Joined(values)
  {
    if values == [] {
      return Absent;
    }
    var joined := "";
    for index := 0 to |values|
      invariant joined == Joined(values[..index])
    {
      if index > 0 {
        joined := joined + ", ";
      }
      joined := joined + values[index];
      assert values[..index + 1][..index] == values[..index];
    }
    assert values[..|values|] == values;
    JoinedLegal(values);
    r := if Legal(joined) then Present(joined) else InvalidHeader;
  }

  /** The values one forwarding header carries: inbound, own, or both. */
  function UsedValues(mode: Mode, inbound: seq<string>, current: string): seq<string> {
    match mode
    case Preserve => inbound
    case Append => inbound + [current]
    case Overwrite => [current]
  }

  /**
    merge_forwarded_chain: preserve ignores `current`, overwrite ignores what came in, append puts
    `current` last; only the values that are emitted can make it fail.
   */
  method MergeForwardedChain(mode: Mode, inbound: seq<string>, current: string) returns (r: Value)
    ensures var used := UsedValues(mode, inbound, current);
            && (r.Absent? <==> used == [])
            && (r.InvalidHeader? <==> exists v <- used :: !Legal(v))
            && (r.Present? ==> r.text == Joined(used))
  {
    match mode
    case Preserve =>
      r := JoinHeaderChain(inbound);
    case Append =>
      r := JoinHeaderChain(inbound + [current]);
    case Overwrite =>
      assert current in [current];
      r := if Legal(current) then Present(current) else InvalidHeader;
  }
}

/** Backend endpoints (crates/config/src/backend_endpoint.rs): parsing, splitting and printing. */
module Endpoint {
  import opened Prelude
  import opened Headers
  import R = Response

  datatype Scheme = Http | Https

  datatype BackendEndpoint = BackendEndpoint(scheme: Scheme, authority: string)

  datatype Error =
    | EmptyAddress | UnsupportedScheme | EmptyAuthority | HasPathQueryOrFragment
    | HasWhitespace | MissingBracket | EmptyHost | MissingPort | UnbracketedV6
    | InvalidHost | EmptyPort | PortNotNumeric | PortOutOfRange

  datatype Outcome<T> = Ok(value: T) | Err(error: Error)

  /** IP-literal parsing and IDNA conversion are code outside the repository. */
  datatype Oracles = Oracles(isIp: string -> bool, toAscii: string -> Option<string>)

  // ---- Text helpers ----

  function LastIndexOf(s: string, c: char): (r: Option<nat>)
    ensures r.Some? ==> r.value < |s| && s[r.value] == c && forall j :: r.value < j < |s| ==> s[j] != c
    ensures r.None? ==> c !in s
  {
    if s == "" then None
    else if s[|s| - 1] == c then Some(|s| - 1)
    else LastIndexOf(s[..|s| - 1], c)
  }

  function FirstIndexOf(s: string, c: char): (r: Option<nat>)
    ensures r.Some? ==> r.value < |s| && s[r.value] == c && forall j :: 0 <= j < r.value ==> s[j] != c
    ensures r.None? ==> c !in s
  {
    if s == "" then None
    else if s[0] == c then Some(0)
    else
      var rest := FirstIndexOf(s[1..], c);
      if rest.None? then None else Some(rest.value + 1)
  }

  /** `contains("://")`. */
  predicate HasSchemeMark(s: string) {
    exists i :: 0 <= i < |s| - 2 && s[i] == ':' && s[i + 1] == '/' && s[i + 2] == '/'
  }

  predicate AsciiSpace(c: char) { c == ' ' || c == '\t' || c == '\n' || c == '\r' || c == 12 as char }

  // ---- Printing and splitting ----

  function SchemeText(s: Scheme): string { if s.Http? then "http" else "https" }

  function Origin(e: BackendEndpoint): string { SchemeText(e.scheme) + "://" + e.authority }

  function DefaultPort(s: Scheme): string { if s.Http? then "80" else "443" }

  function NormalizeAuthority(a: string, scheme: Scheme): string {
    if a != "" && a[0] == '[' then a
    else if LastIndexOf(a, ':').None? then a + ":" + DefaultPort(scheme)
    else a
  }

  /** split_authority: host and port text. */
  function SplitAuthority(a: string): Option<(string, string)> {
    if a != "" && a[0] == '[' then
      var close := FirstIndexOf(a, ']');
      if close.None? then None
      else
        var suffix := a[close.value + 1..];
        if suffix == "" || suffix[0] != ':' then None else Some((a[1..close.value], suffix[1..]))
    else
      var colon := LastIndexOf(a, ':');
      if colon.None? then None else Some((a[..colon.value], a[colon.value + 1..]))
  }

  // ---- Validation ----

  predicate AsciiAlphanumeric(c: char) { 'a' <= c <= 'z' || 'A' <= c <= 'Z' || '0' <= c <= '9' }

  predicate ValidLabel(l: string) {
    l != "" && |l| <= 63 && l[0] != '-' && l[|l| - 1] != '-' && forall c <- l :: AsciiAlphanumeric(c) || c == '-'
  }

  function SplitDots(s: string): (r: seq<string>)
    ensures r != []
  {
    if s == "" then [""]
    else
      var rest := SplitDots(s[1..]);
      if s[0] == '.' then [""] + rest else [[s[0]] + rest[0]] + rest[1..]
  }

  function TrimDots(s: string): string {
    if s == "" || s[|s| - 1] != '.' then s else TrimDots(s[..|s| - 1])
  }

  predicate ValidDnsHost(host: string, o: Oracles) {
    var trimmed := Trim(host);
    && trimmed != ""
    && (Lower(trimmed) == "localhost" || o.isIp(trimmed)
        || (TrimDots(trimmed) != ""
            && var ascii := o.toAscii(TrimDots(trimmed));
               ascii.Some? && |ascii.value| <= 253 && forall l <- SplitDots(ascii.value) :: ValidLabel(l)))
  }

  function CheckPort(port: string): Outcome<nat> {
    if port == "" then Err(EmptyPort)
    else if !R.AllDigits(port) then Err(PortNotNumeric)
    else if 1 <= R.DecimalValue(port) <= 65535 then Ok(R.DecimalValue(port))
    else Err(PortOutOfRange)
  }

  /** The host and port text that validation looks at. */
  function PartsOf(a: string): Outcome<(string, string)> {
    if a != "" && a[0] == '[' then
      var close := FirstIndexOf(a, ']');
      if close.None? then Err(MissingBracket)
      else if close.value == 1 then Err(EmptyHost)
      else
        var suffix := a[close.value + 1..];
        if suffix == "" || suffix[0] != ':' then Err(MissingPort) else Ok((a[1..close.value], suffix[1..]))
    else
      var colon := LastIndexOf(a, ':');
      if colon.None? then Err(MissingPort)
      else
        var host := a[..colon.value];
        if host == "" then Err(EmptyHost)
        else if ':' in host then Err(UnbracketedV6)
        else Ok((host, a[colon.value + 1..]))
  }

  /** validate_authority; on success the host and port number it accepted. */
  function ValidateAuthority(a: string, o: Oracles): Outcome<(string, nat)> {
    if exists c <- a :: AsciiSpace(c) then Err(HasWhitespace)
    else
      match PartsOf(a)
      case Err(e) => Err(e)
      case Ok((host, port)) =>
        if !ValidDnsHost(host, o) then Err(InvalidHost)
        else
          match CheckPort(port)
          case Err(e) => Err(e)
          case Ok(n) => Ok((host, n))
  }

  // ---- Parsing ----

  /** Scheme and the text after it. */
  function SplitScheme(raw: string): Outcome<(Scheme, string)> {
    if "http://" <= Lower(raw) then Ok((Http, raw[7..]))
    else if "https://" <= Lower(raw) then Ok((Https, raw[8..]))
    else if HasSchemeMark(raw) then Err(UnsupportedScheme)
    else Ok((Https, raw))
  }

  predicate HasPath(a: string) { '/' in a || '?' in a || '#' in a }

  function Parse(text: string, o: Oracles): Outcome<BackendEndpoint> {
    var raw := Trim(text);
    if raw == "" then Err(EmptyAddress)
    else
      match SplitScheme(raw)
      case Err(e) => Err(e)
      case Ok((scheme, authority)) =>
        if authority == "" then Err(EmptyAuthority)
        else if HasPath(authority) then Err(HasPathQueryOrFragment)
        else
          var a := NormalizeAuthority(authority, scheme);
          match ValidateAuthority(a, o)
          case Err(e) => Err(e)
          case Ok(_) => Ok(BackendEndpoint(scheme, a))
  }

  /** authority_host and authority_port of an endpoint. */
  function AuthorityHost(e: BackendEndpoint): string {
    var s := SplitAuthority(e.authority);
    if s.None? then "" else s.value.0
  }

  function AuthorityPort(e: BackendEndpoint): nat {
    var s := SplitAuthority(e.authority);
    if s.Some? && R.AllDigits(s.value.1) && s.value.1 != "" && R.DecimalValue(s.value.1) <= 65535
    then R.DecimalValue(s.value.1) else 0
  }

  // ---- Results ----

  /** The endpoints that parsing can produce. */
  ghost predicate WellFormed(e: BackendEndpoint, o: Oracles) {
    !HasPath(e.authority) && ValidateAuthority(e.authority, o).Ok?
  }

  lemma ParsedWellFormed(text: string, o: Oracles)
    requires Parse(text, o).Ok?
    ensures WellFormed(Parse(text, o).value, o)
  {
    var (scheme, authority) := SplitScheme(Trim(text)).value;
    NormalizedNoPath(authority, scheme);
  }

  lemma NormalizedNoPath(a: string, scheme: Scheme)
    requires !HasPath(a)
    ensures !HasPath(NormalizeAuthority(a, scheme))
  {
    if NormalizeAuthority(a, scheme) != a {
      forall c | c in a + ":" + DefaultPort(scheme) ensures c != '/' && c != '?' && c != '#' {
        assert c in a || c == ':' || c in DefaultPort(scheme);
      }
    }
  }

  /** Validation and split_authority see the same host and port, and the port is in range. */
  lemma SplitMatchesValidation(e: BackendEndpoint, o: Oracles)
    requires ValidateAuthority(e.authority, o).Ok?
    ensures (AuthorityHost(e), AuthorityPort(e)) == ValidateAuthority(e.authority, o).value
    ensures 1 <= AuthorityPort(e) <= 65535
  {
  }

  lemma ValidatedNormal(a: string, scheme: Scheme, o: Oracles)
    requires ValidateAuthority(a, o).Ok?
    ensures a != "" && NormalizeAuthority(a, scheme) == a && '0' <= a[|a| - 1] <= '9'
  {
    var (host, port) := PartsOf(a).value;
    assert port != "" && R.AllDigits(port);
    assert a[|a| - 1] == port[|port| - 1];
  }

  lemma TrimUntouched(s: string)
    requires s != "" && !IsSpace(s[0]) && !IsSpace(s[|s| - 1])
    ensures Trim(s) == s
  {
  }

  lemma OriginSplits(e: BackendEndpoint)
    ensures SplitScheme(Origin(e)) == Ok((e.scheme, e.authority))
  {
    hide Lower, HasSchemeMark;
    if e.scheme.Http? {
      LowerLeads("http://", e.authority);
      SchemeFirst("http://", e.authority, 7);
    } else {
      LowerLeads("https://", e.authority);
      SchemeFirst("https://", e.authority, 8);
      assert Lower(Origin(e))[4] == 's';
    }
  }

  /** Text without capitals in front stays in front. */
  lemma LowerLeads(a: string, b: string)
    requires forall i :: 0 <= i < |a| ==> !('A' <= a[i] <= 'Z')
    ensures a <= Lower(a + b)
  {
    assert Lower(a + b)[..|a|] == a;
  }

  lemma SchemeFirst(a: string, b: string, n: nat)
    requires |a| == n
    ensures (a + b)[n..] == b && |Lower(a + b)| == n + |b|
  {
  }

  /** Printing a well-formed endpoint and parsing it gives the endpoint back. */
  lemma PrintThenParse(e: BackendEndpoint, o: Oracles)
    requires WellFormed(e, o)
    ensures Parse(Origin(e), o) == Ok(e)
  {
    hide SplitScheme, ValidateAuthority, Trim, HasPath, NormalizeAuthority;
    ValidatedNormal(e.authority, e.scheme, o);
    OriginSplits(e);
    OriginTrimmed(e);
  }

  lemma OriginTrimmed(e: BackendEndpoint)
    requires e.authority != "" && '0' <= e.authority[|e.authority| - 1] <= '9'
    ensures Trim(Origin(e)) == Origin(e) && Origin(e) != ""
  {
    hide Trim;
    var s := Origin(e);
    assert s[0] == 'h' && s[|s| - 1] == e.authority[|e.authority| - 1];
    TrimUntouched(s);
  }

  /** parse, print, parse again: the same endpoint, for every text that parses. */
  lemma ParsePrintParse(text: string, o: Oracles)
    requires Parse(text, o).Ok?
    ensures Parse(Origin(Parse(text, o).value), o) == Parse(text, o)
  {
    ParsedWellFormed(text, o);
    PrintThenParse(Parse(text, o).value, o);
  }

  /** Exactly the well-formed endpoints are results of parsing. */
  lemma ParseImage(e: BackendEndpoint, o: Oracles)
    ensures (exists text :: Parse(text, o) == Ok(e)) <==> WellFormed(e, o)
  {
    if WellFormed(e, o) {
      PrintThenParse(e, o);
    }
    forall text | Parse(text, o) == Ok(e) ensures WellFormed(e, o) {
      ParsedWellFormed(text, o);
    }
  }

  /** Distinct parsed endpoints print differently. */
  lemma OriginInjective(a: string, b: string, o: Oracles)
    requires Parse(a, o).Ok? && Parse(b, o).Ok? && Origin(Parse(a, o).value) == Origin(Parse(b, o).value)
    ensures Parse(a, o) == Parse(b, o)
  {
    ParsePrintParse(a, o);
    ParsePrintParse(b, o);
  }

  // ---- Defaults ----

  /** Host text as an operator writes it: nothing around it, no port, no path. */
  ghost predicate BareHost(host: string) {
    && host != "" && Trim(host) == host && host[0] != '[' && !HasPath(host)
    && forall i :: 0 <= i < |host| ==> host[i] != ':'
  }

  lemma PrefixKeepsColon(s: string, prefix: string, k: nat)
    requires k < |prefix| && prefix[k] == ':'
    ensures prefix <= Lower(s) ==> k < |s| && s[k] == ':'
  {
    if prefix <= Lower(s) {
      assert Lower(s)[k] == prefix[k];
    }
  }

  lemma NoColonNoScheme(host: string)
    requires BareHost(host)
    ensures SplitScheme(host) == Ok((Https, host))
  {
    hide Trim, HasPath, Lower;
    PrefixKeepsColon(host, "http://", 4);
    PrefixKeepsColon(host, "https://", 5);
  }

  lemma PortAdded(host: string, scheme: Scheme)
    requires BareHost(host)
    ensures NormalizeAuthority(host, scheme) == host + (if scheme == Http then ":80" else ":443")
  {
    hide Trim, HasPath;
    assert host + ":" + DefaultPort(scheme) == host + (if scheme == Http then ":80" else ":443");
  }

  lemma TrimmedEnds(host: string)
    requires host != "" && Trim(host) == host
    ensures !IsSpace(host[|host| - 1])
  {
  }

  /**
    A host without scheme and port is reached over HTTPS at port 443; behind http:// it is reached
    over HTTP at port 80, behind https:// over HTTPS at port 443, whenever that authority is valid.
   */
  lemma DefaultsAdded(host: string, o: Oracles)
    requires BareHost(host)
    ensures ValidateAuthority(host + ":443", o).Ok? ==> Parse(host, o) == Ok(BackendEndpoint(Https, host + ":443"))
    ensures ValidateAuthority(host + ":443", o).Ok? ==> Parse("https://" + host, o) == Ok(BackendEndpoint(Https, host + ":443"))
    ensures ValidateAuthority(host + ":80", o).Ok? ==> Parse("http://" + host, o) == Ok(BackendEndpoint(Http, host + ":80"))
  {
    hide SplitScheme, ValidateAuthority, Trim, HasPath, NormalizeAuthority;
    NoColonNoScheme(host);
    PortAdded(host, Http);
    PortAdded(host, Https);
    SchemedTrimmed(Http, host);
    SchemedTrimmed(Https, host);
    OriginSplits(BackendEndpoint(Http, host));
    OriginSplits(BackendEndpoint(Https, host));
  }

  lemma SchemedTrimmed(scheme: Scheme, host: string)
    requires BareHost(host)
    ensures Origin(BackendEndpoint(scheme, host)) == (if scheme == Http then "http://" else "https://") + host
    ensures Trim(Origin(BackendEndpoint(scheme, host))) == Origin(BackendEndpoint(scheme, host)) != ""
  {
    TrimmedEnds(host);
    hide Trim, HasPath;
    var s := Origin(BackendEndpoint(scheme, host));
    assert s == (if scheme == Http then "http://" else "https://") + host;
    assert s[0] == 'h' && s[|s| - 1] == host[|host| - 1];
    TrimUntouched(s);
  }

  /** No default port is added to a bracketed address: without its own it is refused. */
  lemma BracketedNeedsPort(inner: string, o: Oracles)
    requires forall i :: 0 <= i < |inner| ==> inner[i] != ']'
    ensures Parse("[" + inner + "]", o).Err?
  {
    hide Trim, ValidateAuthority, HasPath, SplitScheme, NormalizeAuthority;
    BracketedTrimmed(inner);
    BracketedSchemeless(inner);
    BracketedUnported(inner, o);
  }

  lemma BracketedTrimmed(inner: string)
    ensures Trim("[" + inner + "]") == "[" + inner + "]"
  {
    var text := "[" + inner + "]";
    hide Trim;
    assert text[0] == '[' && text[|text| - 1] == ']';
    TrimUntouched(text);
  }

  lemma BracketedSchemeless(inner: string)
    ensures SplitScheme("[" + inner + "]").Err? || SplitScheme("[" + inner + "]") == Ok((Https, "[" + inner + "]"))
  {
    var text := "[" + inner + "]";
    assert Lower(text)[0] == LowerChar(text[0]) == '[';
    hide Lower, HasSchemeMark;
  }

  lemma BracketedUnported(inner: string, o: Oracles)
    requires forall i :: 0 <= i < |inner| ==> inner[i] != ']'
    ensures ValidateAuthority("[" + inner + "]", o).Err?
    ensures forall scheme :: NormalizeAuthority("[" + inner + "]", scheme) == "[" + inner + "]"
  {
    var text := "[" + inner + "]";
    assert text[0] == '[' && forall i :: 0 <= i < |text| - 1 ==> text[i] != ']';
    assert text[|text| - 1] == ']';
    assert FirstIndexOf(text, ']') == Some(|text| - 1);
    assert text[|text|..] == "";
    hide ValidDnsHost, CheckPort;
  }

  /** A text with another scheme is refused, whatever follows. */
  lemma OtherSchemesRefused(text: string, o: Oracles)
    requires HasSchemeMark(Trim(text)) && !("http://" <= Lower(Trim(text))) && !("https://" <= Lower(Trim(text)))
    ensures Parse(text, o) == Err(UnsupportedScheme)
  {
    hide Trim, Lower, ValidateAuthority, HasPath, NormalizeAuthority;
  }

  /** A label of a host name: 1 to 63 letters, digits and hyphens, no hyphen at either end. */
  ghost predicate HostLabel(l: string) {
    && 1 <= |l| <= 63 && l[0] != '-' && l[|l| - 1] != '-'
    && forall i :: 0 <= i < |l| ==> 'a' <= l[i] <= 'z' || 'A' <= l[i] <= 'Z' || '0' <= l[i] <= '9' || l[i] == '-'
  }

  lemma LabelLegal(l: string)
    ensures ValidLabel(l) <==> HostLabel(l)
  {
    if HostLabel(l) {
      forall c | c in l ensures AsciiAlphanumeric(c) || c == '-' {
        var i :| 0 <= i < |l| && l[i] == c;
      }
    }
    if ValidLabel(l) {
      forall i | 0 <= i < |l| ensures AsciiAlphanumeric(l[i]) || l[i] == '-' {
        assert l[i] in l;
      }
    }
  }

  /** A host name: localhost, an address, or at most 253 characters of labels between dots in ASCII form. */
  ghost predicate HostName(host: string, o: Oracles) {
    || Lower(Trim(host)) == "localhost"
    || o.isIp(Trim(host))
    || (var ascii := o.toAscii(TrimDots(Trim(host)));
        TrimDots(Trim(host)) != "" && ascii.Some? && |ascii.value| <= 253
        && forall i :: 0 <= i < |SplitDots(ascii.value)| ==> HostLabel(SplitDots(ascii.value)[i]))
  }

  lemma HostLegal(host: string, o: Oracles)
    ensures ValidDnsHost(host, o) <==> Trim(host) != "" && HostName(host, o)
  {
    hide Lower, Trim, TrimDots, SplitDots, ValidLabel, HostLabel;
    var ascii := o.toAscii(TrimDots(Trim(host)));
    if ascii.Some? {
      var labels := SplitDots(ascii.value);
      forall i | 0 <= i < |labels| ensures ValidLabel(labels[i]) <==> HostLabel(labels[i]) {
        LabelLegal(labels[i]);
      }
      if forall i :: 0 <= i < |labels| ==> HostLabel(labels[i]) {
        forall l | l in labels ensures ValidLabel(l) {
          var i :| 0 <= i < |labels| && labels[i] == l;
        }
      }
    }
  }

  /**
    What every parsed endpoint looks like: no path, query, fragment or blank in its authority, a
    legal host name, and a decimal port from 1 to 65535.
   */
  lemma ParsedClean(text: string, o: Oracles)
    requires Parse(text, o).Ok?
    ensures var e := Parse(text, o).value;
            && (forall i :: 0 <= i < |e.authority| ==> e.authority[i] !in "/?# \t\n\r")
            && Trim(AuthorityHost(e)) != "" && HostName(AuthorityHost(e), o) && 1 <= AuthorityPort(e) <= 65535
            && (e.authority[0] != '[' ==> forall i :: 0 <= i < |AuthorityHost(e)| ==> AuthorityHost(e)[i] != ':')
  {
    ParsedWellFormed(text, o);
    AuthorityClean(Parse(text, o).value, o);
  }

  lemma AuthorityClean(e: BackendEndpoint, o: Oracles)
    requires WellFormed(e, o)
    ensures e.authority != ""
    ensures forall i :: 0 <= i < |e.authority| ==> e.authority[i] !in "/?# \t\n\r"
    ensures Trim(AuthorityHost(e)) != "" && HostName(AuthorityHost(e), o) && 1 <= AuthorityPort(e) <= 65535
    ensures e.authority[0] != '[' ==> forall i :: 0 <= i < |AuthorityHost(e)| ==> AuthorityHost(e)[i] != ':'
  {
    SplitMatchesValidation(e, o);
    HostLegal(AuthorityHost(e), o);
    hide HostName, ValidDnsHost, Trim, Lower;
    forall i | 0 <= i < |e.authority| ensures e.authority[i] !in "/?# \t\n\r" {
      assert e.authority[i] in e.authority;
    }
  }
}

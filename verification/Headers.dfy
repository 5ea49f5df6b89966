/** Header names, Connection tokens and the request filters (crates/bridge/src/headers.rs). */
module Headers {

  datatype Header = Header(name: string, value: string)

  function LowerChar(c: char): char { if 'A' <= c <= 'Z' then (c as int + 32) as char else c }

  /** `to_ascii_lowercase`. */
  function Lower(s: string): (r: string)
    ensures |r| == |s| && forall i :: 0 <= i < |s| ==> r[i] == LowerChar(s[i])
  {
    if s == "" then "" else [LowerChar(s[0])] + Lower(s[1..])
  }

  /** Unicode White_Space, as `str::trim` uses it. */
  predicate IsSpace(c: char) {
    var n := c as int;
    9 <= n <= 13 || n == 32 || n == 0x85 || n == 0xA0 || n == 0x1680 || 0x2000 <= n <= 0x200A
    || n == 0x2028 || n == 0x2029 || n == 0x202F || n == 0x205F || n == 0x3000
  }

  function TrimStart(s: string): (r: string)
    ensures |r| <= |s| && (r != "" ==> !IsSpace(r[0]))
  {
    if s == "" || !IsSpace(s[0]) then s else TrimStart(s[1..])
  }

  function TrimEnd(s: string): (r: string)
    ensures |r| <= |s| && r <= s && (r != "" ==> !IsSpace(r[|r| - 1]))
  {
    if s == "" || !IsSpace(s[|s| - 1]) then s else TrimEnd(s[..|s| - 1])
  }

  function Trim(s: string): string { TrimEnd(TrimStart(s)) }

  /** `split(',')`: the pieces between commas, at least one. */
  function Split(s: string): (r: seq<string>)
    ensures r != []
  {
    if s == "" then [""]
    else
      var rest := Split(s[1..]);
      if s[0] == ',' then [""] + rest else [[s[0]] + rest[0]] + rest[1..]
  }

  function Token(part: string): string { Lower(Trim(part)) }

  /** The non-empty lower-case tokens of a comma-separated list. */
  function Tokens(parts: seq<string>): set<string> {
    set p | p in parts && Token(p) != "" :: Token(p)
  }

  /** The nested token loop, as both the request and the response side run it. */
  method AddTokens(value: string, before: set<string>) returns (tokens: set<string>)
    ensures tokens == before + Tokens(Split(value))
  {
    tokens := before;
    var parts := Split(value);
    for k := 0 to |parts|
      invariant tokens == before + Tokens(parts[..k])
    {
      TokensAppend(parts, k);
      var token := Token(parts[k]);
      if token != "" {
        tokens := tokens + {token};
      }
    }
    assert parts[..|parts|] == parts;
  }

  lemma TokensAppend(parts: seq<string>, k: nat)
    requires k < |parts|
    ensures Tokens(parts[..k + 1]) == Tokens(parts[..k]) + (if Token(parts[k]) != "" then {Token(parts[k])} else {})
  {
    assert parts[..k + 1] == parts[..k] + [parts[k]];
  }

  // ---- What the list syntax means ----

  function JoinCommas(parts: seq<string>): string
    requires parts != []
  {
    if |parts| == 1 then parts[0] else parts[0] + "," + JoinCommas(parts[1..])
  }

  ghost predicate NoComma(s: string) { forall i :: 0 <= i < |s| ==> s[i] != ',' }

  lemma {:induction false} SplitPrepend(a: string, b: string)
    requires NoComma(a)
    ensures Split(a) == [a] && Split(a + "," + b) == [a] + Split(b)
  {
    var s := a + "," + b;
    if a == "" {
      assert s[1..] == b;
    } else {
      SplitPrepend(a[1..], b);
      assert s[1..] == a[1..] + "," + b;
      assert [a[0]] + a[1..] == a;
    }
  }

  /** Splitting undoes joining for every list of comma-free parts. */
  lemma {:induction false} SplitUndoesJoin(parts: seq<string>)
    requires parts != [] && forall i :: 0 <= i < |parts| ==> NoComma(parts[i])
    ensures Split(JoinCommas(parts)) == parts
  {
    if |parts| == 1 {
      SplitPrepend(parts[0], "");
    } else {
      SplitUndoesJoin(parts[1..]);
      SplitPrepend(parts[0], JoinCommas(parts[1..]));
      assert parts == [parts[0]] + parts[1..];
    }
  }

  ghost predicate Blank(s: string) { forall i :: 0 <= i < |s| ==> IsSpace(s[i]) }

  lemma {:induction false} TrimStartPadded(before: string, s: string)
    requires Blank(before) && (s == "" || !IsSpace(s[0]))
    ensures TrimStart(before + s) == s
  {
    if before == "" {
      assert before + s == s;
    } else {
      TrimStartPadded(before[1..], s);
      assert (before + s)[1..] == before[1..] + s;
    }
  }

  lemma {:induction false} TrimEndPadded(s: string, after: string)
    requires Blank(after) && s != "" && !IsSpace(s[|s| - 1])
    ensures TrimEnd(s + after) == s
  {
    if after == "" {
      assert s + after == s;
    } else {
      var init := after[..|after| - 1];
      TrimEndPadded(s, init);
      assert (s + after)[..|s + after| - 1] == s + init;
    }
  }

  /** White space around a list member does not matter, and neither does its case. */
  lemma TokenIgnoresPadding(before: string, s: string, after: string)
    requires Blank(before) && Blank(after) && s != "" && !IsSpace(s[0]) && !IsSpace(s[|s| - 1])
    ensures Token(before + s + after) == Lower(s)
  {
    assert before + s + after == before + (s + after);
    TrimStartPadded(before, s + after);
    TrimEndPadded(s, after);
  }

  // ---- Names with a special role ----

  /** Hop-by-hop names of section 7.6.1 of RFC 9110 that both directions drop. */
  const HOP_BY_HOP: set<string> := {
    "connection", "proxy-authenticate", "proxy-authorization", "te", "trailer",
    "transfer-encoding", "upgrade", "keep-alive", "proxy-connection"}

  const FORWARDED_FAMILY: set<string> := {
    "forwarded", "x-forwarded-for", "x-forwarded-proto", "x-forwarded-host"}

  predicate IsUpgradeName(name: string) { name == "connection" || name == "upgrade" }

  /** should_strip_request_header, on a lower-case name. */
  predicate StripRequest(name: string, tokens: set<string>, preserveUpgrade: bool) {
    !(preserveUpgrade && IsUpgradeName(name))
    && (name in tokens || name == "content-length" || name in HOP_BY_HOP || name in FORWARDED_FAMILY)
  }

  predicate StripProxy(name: string, preserveUpgrade: bool) { StripRequest(name, {}, preserveUpgrade) }
}

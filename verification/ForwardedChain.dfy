/**
  What a reader of an appended Forwarded header finds behind the client's own values. The reader
  splits the value at the commas outside quoted-strings (section 4 of RFC 7239) and takes the last
  element, the one of the nearest proxy.
 */
module ForwardedChain {
  import opened Prelude
  import opened Forwarded
  import H = Headers

  // ---- Quoted-strings ----

  datatype Scan = Outside | Inside | Escaped

  function Next(s: Scan, c: char): Scan {
    match s
    case Outside => if c == '"' then Inside else Outside
    case Inside => if c == '"' then Outside else if c == '\\' then Escaped else Inside
    case Escaped => Inside
  }

  /** Where a scan that begins in `s` stands behind `text`. */
  function After(s: Scan, text: string): Scan {
    if text == "" then s else Next(After(s, text[..|text| - 1]), text[|text| - 1])
  }

  /** Every quoted-string opened in `text` is closed in it. */
  predicate Closed(text: string) { After(Outside, text) == Outside }

  lemma {:induction false} AfterConcat(s: Scan, a: string, b: string)
    ensures After(s, a + b) == After(After(s, a), b)
    decreases |b|
  {
    if b == "" {
      assert a + b == a;
    } else {
      var init := b[..|b| - 1];
      AfterConcat(s, a, init);
      assert (a + b)[..|a + b| - 1] == a + init;
    }
  }

  lemma AfterOne(s: Scan, c: char)
    ensures After(s, [c]) == Next(s, c)
  {
    assert [c][..0] == "";
  }

  // ---- The last element ----

  /** The text behind the last comma outside quoted-strings. */
  function LastPart(text: string): string {
    if text == "" then ""
    else
      var init, c := text[..|text| - 1], text[|text| - 1];
      if c == ',' && Closed(init) then "" else LastPart(init) + [c]
  }

  function LastElement(text: string): string { H.TrimStart(LastPart(text)) }

  /** A scan of `text` that begins in `s` meets no comma outside quoted-strings. */
  ghost predicate OneElement(s: Scan, text: string) {
    forall i :: 0 <= i < |text| && text[i] == ',' ==> After(s, text[..i]) != Outside
  }

  lemma OneElementConcat(s: Scan, a: string, b: string)
    requires OneElement(s, a) && OneElement(After(s, a), b)
    ensures OneElement(s, a + b)
  {
    forall i | 0 <= i < |a + b| && (a + b)[i] == ',' ensures After(s, (a + b)[..i]) != Outside {
      if i < |a| {
        assert (a + b)[..i] == a[..i];
      } else {
        assert (a + b)[..i] == a + b[..i - |a|];
        AfterConcat(s, a, b[..i - |a|]);
      }
    }
  }

  lemma {:induction false} PlainText(text: string)
    requires forall i :: 0 <= i < |text| ==> text[i] != '"' && text[i] != ','
    ensures Closed(text) && OneElement(Outside, text)
  {
    if text == "" {
    } else {
      PlainText(text[..|text| - 1]);
    }
  }

  // ---- The proxy's own element ----

  lemma EscapedChar(c: char)
    ensures After(Inside, EscapeChar(c)) == Inside && OneElement(Inside, EscapeChar(c))
  {
    var e := EscapeChar(c);
    AfterOne(Inside, e[0]);
    assert e[..0] == "";
    if |e| == 2 {
      assert e == [e[0]] + [e[1]] && e[..1] == [e[0]];
      AfterConcat(Inside, [e[0]], [e[1]]);
      AfterOne(Escaped, e[1]);
    } else {
      assert e == [c];
    }
  }

  lemma {:induction false} EscapedText(host: string)
    ensures After(Inside, EscapeOnce(host)) == Inside && OneElement(Inside, EscapeOnce(host))
  {
    if host == "" {
    } else {
      EscapedChar(host[0]);
      EscapedText(host[1..]);
      AfterConcat(Inside, EscapeChar(host[0]), EscapeOnce(host[1..]));
      OneElementConcat(Inside, EscapeChar(host[0]), EscapeOnce(host[1..]));
    }
  }

  /** A quoted-string of escaped text is one element, and closed. */
  lemma QuotedText(text: string)
    ensures Closed("\"" + EscapeHost(text) + "\"") && OneElement(Outside, "\"" + EscapeHost(text) + "\"")
  {
    EscapeIsOnePass(text);
    EscapedText(text);
    var body := EscapeHost(text);
    hide EscapeHost, EscapeOnce;
    AfterOne(Outside, '"');
    AfterOne(Inside, '"');
    SingleQuote();
    AfterConcat(Outside, "\"", body);
    OneElementConcat(Outside, "\"", body);
    AfterConcat(Outside, "\"" + body, "\"");
    OneElementConcat(Outside, "\"" + body, "\"");
  }

  lemma SingleQuote()
    ensures forall s :: OneElement(s, "\"")
  {
  }

  lemma Chain(a: string, b: string)
    requires Closed(a) && OneElement(Outside, a) && Closed(b) && OneElement(Outside, b)
    ensures Closed(a + b) && OneElement(Outside, a + b)
  {
    AfterConcat(Outside, a, b);
    OneElementConcat(Outside, a, b);
  }

  lemma ForValueWhole(ip: ClientIp)
    requires Token(ip.text)
    ensures Closed(ForValue(ip)) && OneElement(Outside, ForValue(ip))
  {
    match ip
    case V4(text) =>
      forall i | 0 <= i < |text| ensures text[i] != '"' && text[i] != ',' {
        assert text[i] in text;
      }
      PlainText(text);
    case V6(text) =>
      var bracketed := "[" + text + "]";
      forall i | 0 <= i < |bracketed| ensures bracketed[i] != '\\' && bracketed[i] != '"' {
        if 0 < i <= |text| {
          assert bracketed[i] == text[i - 1] && text[i - 1] in text;
        }
      }
      PlainUnescaped(bracketed);
      QuotedText(bracketed);
      QuotedBracket(text);
  }

  lemma ElementWhole(ip: ClientIp, host: string)
    requires Token(ip.text)
    ensures Closed(" " + Element(ip, host)) && OneElement(Outside, " " + Element(ip, host))
  {
    var quoted := "\"" + EscapeHost(host) + "\"";
    var lead, middle := " for=", ";proto=https;host=";
    PlainText(lead);
    PlainText(middle);
    ForValueWhole(ip);
    QuotedText(host);
    ElementParts(ip, host);
    hide EscapeHost, ForValue, Closed, OneElement;
    Chain(lead, ForValue(ip));
    Chain(lead + ForValue(ip), middle);
    Chain(lead + ForValue(ip) + middle, quoted);
  }

  lemma ElementParts(ip: ClientIp, host: string)
    ensures " " + Element(ip, host) == " for=" + ForValue(ip) + ";proto=https;host=" + ("\"" + EscapeHost(host) + "\"")
  {
    hide EscapeHost, ForValue;
  }

  // ---- Behind the client's values ----

  /** Behind closed text and a comma, one element is the last part. */
  lemma {:induction false} LastPartFound(a: string, b: string)
    requires Closed(a) && OneElement(Outside, b)
    ensures LastPart(a + "," + b) == b
    decreases |b|
  {
    var t := a + "," + b;
    if b == "" {
      assert t[..|t| - 1] == a;
    } else {
      var init := b[..|b| - 1];
      assert t[..|t| - 1] == a + "," + init;
      assert OneElement(Outside, init) by {
        forall i | 0 <= i < |init| ensures init[..i] == b[..i] {
        }
      }
      LastPartFound(a, init);
      AfterConcat(Outside, a + ",", init);
      AfterConcat(Outside, a, ",");
      AfterOne(Outside, ',');
      assert b == init + [b[|b| - 1]];
    }
  }

  /** `r` is what stands behind some comma of `b`. */
  ghost predicate BehindComma(b: string, r: string) {
    exists j :: 0 <= j < |b| && b[j] == ',' && r == b[j + 1..]
  }

  lemma BehindExtends(b: string, r: string, c: char)
    requires BehindComma(b, r)
    ensures BehindComma(b + [c], r + [c])
  {
    var j :| 0 <= j < |b| && b[j] == ',' && r == b[j + 1..];
    assert (b + [c])[j] == ',' && (b + [c])[j + 1..] == r + [c];
  }

  lemma BehindLast(b: string)
    ensures BehindComma(b + [','], "")
  {
    assert (b + [','])[|b|] == ',' && (b + [','])[|b| + 1..] == "";
  }

  /** Behind an open quoted-string the comma separates nothing: the last part begins before it, or further on. */
  lemma {:induction false} LastPartMissed(a: string, b: string)
    requires !Closed(a)
    ensures LastPart(a + "," + b) == LastPart(a) + "," + b || BehindComma(b, LastPart(a + "," + b))
    decreases |b|
  {
    hide After, BehindComma;
    var t := a + "," + b;
    if b == "" {
      assert t[..|t| - 1] == a;
      assert LastPart(a) + "," + b == LastPart(a) + [','];
    } else {
      var init, c := b[..|b| - 1], b[|b| - 1];
      assert t[..|t| - 1] == a + "," + init && b == init + [c];
      LastPartMissed(a, init);
      if c == ',' && Closed(a + "," + init) {
        BehindLast(init);
      } else if LastPart(a + "," + init) == LastPart(a) + "," + init {
        assert LastPart(a) + "," + b == LastPart(a) + "," + init + [c];
      } else {
        BehindExtends(init, LastPart(a + "," + init), c);
      }
    }
  }

  lemma {:induction false} TrimmedKeepsComma(x: string, y: string)
    ensures |H.TrimStart(x + "," + y)| > |y|
  {
    var s := x + "," + y;
    if x == "" {
      assert s[0] == ',';
    } else if H.IsSpace(s[0]) {
      assert s[1..] == x[1..] + "," + y;
      TrimmedKeepsComma(x[1..], y);
    }
  }

  lemma TrimOneSpace(e: string)
    requires e != "" && !H.IsSpace(e[0])
    ensures H.TrimStart(" " + e) == e
  {
    assert (" " + e)[1..] == e;
  }

  lemma ElementStarts(ip: ClientIp, host: string)
    ensures Element(ip, host) != "" && Element(ip, host)[0] == 'f'
  {
    hide EscapeHost, ForValue;
  }

  lemma JoinedAppend(values: seq<string>, v: string)
    requires values != []
    ensures Joined(values + [v]) == Joined(values) + "," + (" " + v)
  {
    assert (values + [v])[..|values|] == values;
    assert Joined(values) + ", " + v == Joined(values) + "," + (" " + v);
  }

  /**
    A reader of the appended header takes the proxy's element for the last one if and only if the
    client's joined values close every quoted-string they open.
   */
  lemma LastIsOursIff(inbound: seq<string>, ip: ClientIp, host: string)
    requires Token(ip.text)
    ensures LastElement(Joined(inbound + [Element(ip, host)])) == Element(ip, host) <==> Closed(Joined(inbound))
  {
    var e := Element(ip, host);
    ElementWhole(ip, host);
    ElementStarts(ip, host);
    hide Element, Closed, OneElement, Joined, LastPart;
    TrimOneSpace(e);
    if inbound == [] {
      LastAlone(e);
    } else {
      var a := Joined(inbound);
      JoinedAppend(inbound, e);
      if Closed(a) {
        LastPartFound(a, " " + e);
      } else {
        LastPartMissed(a, " " + e);
        TrimmedKeepsComma(LastPart(a), " " + e);
      }
    }
  }

  /** Without inbound values the element stands alone. */
  lemma LastAlone(e: string)
    requires OneElement(Outside, " " + e) && e != "" && !H.IsSpace(e[0])
    ensures Closed(Joined([])) && LastElement(Joined([] + [e])) == e
  {
    assert [] + [e] == [e];
    WholePart(e, " ");
  }

  lemma {:induction false} WholePart(e: string, lead: string)
    requires OneElement(Outside, lead + e) && (forall i :: 0 <= i < |lead| ==> lead[i] == ' ')
    ensures LastPart(e) == e
  {
    if e == "" {
    } else {
      var n := |e| - 1;
      assert (lead + e)[..|lead| + n] == lead + e[..n];
      assert OneElement(Outside, lead + e[..n]) by {
        forall i | 0 <= i < |lead + e[..n]| ensures (lead + e[..n])[..i] == (lead + e)[..i] {
        }
      }
      WholePart(e[..n], lead);
      PlainText(lead);
      AfterConcat(Outside, lead, e[..n]);
      assert e == e[..n] + [e[n]];
    }
  }

  /** Then reading that element gives the client address, the scheme and the host. */
  lemma ChainReadsBack(inbound: seq<string>, ip: ClientIp, host: string)
    requires ip.text != "" && Token(ip.text) && Closed(Joined(inbound))
    ensures ReadElement(LastElement(Joined(inbound + [Element(ip, host)])))
            == Some(([Pair("for", ForText(ip)), Pair("proto", "https"), Pair("host", host)], ""))
  {
    hide LastElement, Joined, ReadElement, Closed, Element, ForText;
    LastIsOursIff(inbound, ip, host);
    ElementReadsBack(ip, host, "");
    assert Element(ip, host) + "" == Element(ip, host);
  }

  /** It is enough that every single value closes its quoted-strings. */
  lemma {:induction false} ClosedValues(inbound: seq<string>)
    requires forall i :: 0 <= i < |inbound| ==> Closed(inbound[i])
    ensures Closed(Joined(inbound))
  {
    if |inbound| <= 1 {
    } else {
      var n := |inbound| - 1;
      ClosedValues(inbound[..n]);
      PlainSeparator();
      AfterConcat(Outside, Joined(inbound[..n]), ", " );
      AfterConcat(Outside, Joined(inbound[..n]) + ", ", inbound[n]);
    }
  }

  lemma PlainSeparator()
    ensures Closed(", ")
  {
    AfterOne(Outside, ',');
    AfterOne(Outside, ' ');
    AfterConcat(Outside, ",", " ");
    assert "," + " " == ", ";
  }

  /** One value with an open quoted-string hides the proxy's element; a second one can close it again. */
  lemma OpenQuoteHides(ip: ClientIp, host: string)
    requires Token(ip.text)
    ensures LastElement(Joined(["for=\"x"] + [Element(ip, host)])) != Element(ip, host)
    ensures !Closed("for=\"x") && !Closed("y\"") && Closed(Joined(["for=\"x", "y\""]))
  {
    OpenValue();
    LastIsOursIff(["for=\"x"], ip, host);
  }

  lemma OpenValue()
    ensures After(Outside, "for=\"x") == Inside && After(Outside, "y\"") == Inside
    ensures Joined(["for=\"x"]) == "for=\"x" && Closed(Joined(["for=\"x", "y\""]))
  {
    PlainText("for=");
    AfterConcat(Outside, "for=", "\"x");
    assert "for=" + "\"x" == "for=\"x";
    AfterConcat(Outside, "\"", "x");
    assert "\"" + "x" == "\"x";
    AfterOne(Outside, '"');
    AfterOne(Inside, 'x');
    AfterOne(Outside, 'y');
    AfterConcat(Outside, "y", "\"");
    assert "y" + "\"" == "y\"";
    assert ["for=\"x", "y\""][..1] == ["for=\"x"];
    assert Joined(["for=\"x", "y\""]) == "for=\"x" + ", y\"";
    AfterConcat(Outside, "for=\"x", ", y\"");
    AfterConcat(Inside, ", y", "\"");
    assert ", y" + "\"" == ", y\"";
    StaysInside();
    AfterOne(Inside, '"');
  }

  lemma StaysInside()
    ensures After(Inside, ", y") == Inside
  {
    assert ", y"[..2] == ", " && ", "[..1] == "," && ","[..0] == "";
  }
}

/** Python's `repr` of a string, as the `%R` conversion in exception
    messages shows it. */
module PyRepr {
  /** The quote `repr` puts around `s`: double quotes when `s` holds a single
      quote and no double quote, single quotes otherwise. */
  function ReprQuote(s: string): char {
    if '\'' in s && '"' !in s then '"' else '\''
  }

  /** The characters below U+0100 that are not printable: the C0 and C1
      controls, DEL, the no-break space and the soft hyphen. */
  predicate Unprintable(c: char) {
    c < ' ' || (0x7f <= c as int <= 0xa0) || c as int == 0xad
  }

  function HexDigit(d: nat): (c: char)
    requires d < 16
  {
    "0123456789abcdef"[d]
  }

  /** One character as `repr` writes it inside quotes `q`. */
  function EscapeChar(c: char, q: char): (r: string)
    ensures r != []
    ensures r[0] == '\\' <==> c == '\\' || c == q || Unprintable(c)
  {
    if c == '\\' then "\\\\"
    else if c == q then ['\\', q]
    else if c == '\n' then "\\n"
    else if c == '\r' then "\\r"
    else if c == '\t' then "\\t"
    else if c as int < 0x100 && Unprintable(c) then ['\\', 'x', HexDigit(c as int / 16), HexDigit(c as int % 16)]
    else [c]
  }

  /** Each character of `s` replaced by its escape, in order. */
  function EscapeAll(s: string, escape: char -> string): string
    decreases |s|
  {
    if s == [] then [] else escape(s[0]) + EscapeAll(s[1..], escape)
  }

  function EscapeBody(s: string, q: char): string {
    EscapeAll(s, c => EscapeChar(c, q))
  }

  /** `repr(s)` for a string. */
  function Repr(s: string): (r: string)
    ensures |r| >= 2 && r[0] == r[|r| - 1] == ReprQuote(s)
  {
    [ReprQuote(s)] + EscapeBody(s, ReprQuote(s)) + [ReprQuote(s)]
  }

  /** `%.<width>R`: the repr cut to `width` characters. */
  function ReprCut(s: string, width: nat): (r: string)
    ensures |r| <= width && |r| <= |Repr(s)|
    ensures r == Repr(s)[..|r|]
    ensures |Repr(s)| <= width ==> r == Repr(s)
  {
    var full := Repr(s);
    if |full| <= width then full else full[..width]
  }

  /** A character `repr` writes as itself inside single quotes. */
  predicate Plain(c: char) {
    c != '\\' && c != '\'' && !Unprintable(c)
  }

  /** Without backslashes, the quote `q` or unprintable characters the body is kept as it is. */
  lemma {:induction false} EscapeBodyPlain(s: string, q: char)
    requires forall i :: 0 <= i < |s| ==> s[i] != '\\' && s[i] != q && !Unprintable(s[i])
    ensures EscapeBody(s, q) == s
    decreases |s|
  {
    if s != [] {
      EscapeBodyPlain(s[1..], q);
    }
  }

  /** A string of plain characters is shown between single quotes, unchanged. */
  lemma ReprPlain(s: string)
    requires forall i :: 0 <= i < |s| ==> Plain(s[i])
    ensures Repr(s) == "'" + s + "'"
  {
    assert ReprQuote(s) == '\'';
    EscapeBodyPlain(s, '\'');
  }

  /** Every escape starts with a backslash, so the body only grows. */
  lemma {:induction false} EscapeBodyLength(s: string, q: char)
    ensures |EscapeBody(s, q)| >= |s|
    ensures |EscapeBody(s, q)| == |s| <==> forall i :: 0 <= i < |s| ==> |EscapeChar(s[i], q)| == 1
    decreases |s|
  {
    if s != [] {
      EscapeBodyLength(s[1..], q);
      if forall i :: 0 <= i < |s[1..]| ==> |EscapeChar(s[1..][i], q)| == 1 {
        if |EscapeChar(s[0], q)| == 1 {
          forall i | 0 <= i < |s| ensures |EscapeChar(s[i], q)| == 1 {
            if i > 0 {
              assert s[i] == s[1..][i - 1];
            }
          }
        }
      } else {
        var i :| 0 <= i < |s[1..]| && |EscapeChar(s[1..][i], q)| != 1;
        assert s[i + 1] == s[1..][i];
      }
    }
  }

  /** A string with a single quote but no double quote, and nothing else to
      escape, is shown between double quotes unchanged. */
  lemma ReprDoubleQuoted(s: string)
    requires '\'' in s && '"' !in s
    requires forall i :: 0 <= i < |s| ==> s[i] != '\\' && !Unprintable(s[i])
    ensures Repr(s) == "\"" + s + "\""
  {
    EscapeBodyPlain(s, '"');
  }

  lemma {:induction false} EscapeAllAppend(a: string, b: string, escape: char -> string)
    ensures EscapeAll(a + b, escape) == EscapeAll(a, escape) + EscapeAll(b, escape)
    decreases |a|
  {
    if a == [] {
      assert a + b == b;
    } else {
      assert (a + b)[0] == a[0] && (a + b)[1..] == a[1..] + b;
      EscapeAllAppend(a[1..], b, escape);
    }
  }

  lemma EscapeBodyAppend(a: string, b: string, q: char)
    ensures EscapeBody(a + b, q) == EscapeBody(a, q) + EscapeBody(b, q)
  {
    EscapeAllAppend(a, b, c => EscapeChar(c, q));
  }

  lemma ReprSingleQuoteExample()
    ensures Repr("20'24") == "\"20'24\""
  {
    var a := "20'24";
    assert a[2] == '\'';
    ReprDoubleQuoted(a);
  }

  lemma EscapeNewlineBetween(x: string, y: string)
    requires forall i :: 0 <= i < |x| ==> Plain(x[i])
    requires forall i :: 0 <= i < |y| ==> Plain(y[i])
    ensures EscapeBody(x + "\n" + y, '\'') == x + "\\n" + y
  {
    var n := "\n";
    EscapeBodyPlain(x, '\'');
    EscapeBodyPlain(y, '\'');
    assert EscapeBody(n, '\'') == "\\n";
    EscapeBodyAppend(x, n, '\'');
    EscapeBodyAppend(x + n, y, '\'');
  }

  lemma NoQuoteAround(x: string, y: string)
    requires forall i :: 0 <= i < |x| ==> Plain(x[i])
    requires forall i :: 0 <= i < |y| ==> Plain(y[i])
    ensures ReprQuote(x + "\n" + y) == '\''
  {
    assert '\'' !in x && '\'' !in y;
  }

  /** A newline between two runs of plain characters is written as `\n`. */
  lemma ReprNewlineBetween(x: string, y: string)
    requires forall i :: 0 <= i < |x| ==> Plain(x[i])
    requires forall i :: 0 <= i < |y| ==> Plain(y[i])
    ensures Repr(x + "\n" + y) == "'" + x + "\\n" + y + "'"
  {
    NoQuoteAround(x, y);
    EscapeNewlineBetween(x, y);
  }

  lemma ReprNewlineExample()
    ensures Repr("20\n24") == "'20\\n24'"
  {
    ReprNewlineBetween("20", "24");
    assert "20" + "\n" + "24" == "20\n24";
  }
}

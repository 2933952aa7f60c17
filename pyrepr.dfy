// Python 2.7's repr() of a unicode string, as '%r' prints the names and
// addresses novaclient returns (JSON text, so unicode objects).
module PyRepr {
  import opened Wrappers

  predicate IsHexDigit(c: char) { '0' <= c <= '9' || 'a' <= c <= 'f' }

  function HexDigit(d: nat): (c: char)
    requires d < 16
    ensures IsHexDigit(c)
  {
    if d < 10 then ('0' as int + d) as char else ('a' as int + d - 10) as char
  }

  function HexDigitValue(c: char): (d: nat)
    requires IsHexDigit(c)
    ensures d < 16
  {
    if c <= '9' then c as int - '0' as int else c as int - 'a' as int + 10
  }

  function Pow16(width: nat): (p: nat)
    ensures p > 0
  {
    if width == 0 then 1 else 16 * Pow16(width - 1)
  }

  /** n in exactly width lower-case hex digits ('%0<width>x'). */
  function Hex(n: nat, width: nat): (r: string)
    ensures |r| == width && forall i :: 0 <= i < |r| ==> IsHexDigit(r[i])
  {
    if width == 0 then [] else Hex(n / 16, width - 1) + [HexDigit(n % 16)]
  }

  /** The value of a string of hex digits. */
  function HexValue(s: string): nat
    requires forall i :: 0 <= i < |s| ==> IsHexDigit(s[i])
  {
    if s == [] then 0 else 16 * HexValue(s[..|s| - 1]) + HexDigitValue(s[|s| - 1])
  }

  /** Hex is read back by HexValue whenever n fits in width digits. */
  lemma {:induction false} HexRoundTrip(n: nat, width: nat)
    requires n < Pow16(width)
    ensures HexValue(Hex(n, width)) == n
  {
    if width > 0 {
      var h := Hex(n, width);
      assert h[..|h| - 1] == Hex(n / 16, width - 1);
      HexRoundTrip(n / 16, width - 1);
      assert HexDigitValue(HexDigit(n % 16)) == n % 16;
    }
  }

  /** The quote repr() puts around s: double quotes when s holds a single
      quote and no double quote, single quotes otherwise. */
  function QuoteFor(s: string): char
  {
    if '\'' in s && '"' !in s then '"' else '\''
  }

  /** One character of the repr body under quote q: a backslash or the
      quote itself is preceded by a backslash; tab, newline and carriage
      return are spelled \t, \n, \r; other characters below a space or
      from DEL on are written \xhh, \uhhhh or \Uhhhhhhhh by size. */
  function EscapeChar(c: char, q: char): string
  {
    if c == q || c == '\\' then ['\\', c]
    else if c == '\t' then "\\t"
    else if c == '\n' then "\\n"
    else if c == '\r' then "\\r"
    else if c < ' ' || c as int >= 0x7f then
      if c as int < 0x100 then "\\x" + Hex(c as int, 2)
      else if c as int < 0x10000 then "\\u" + Hex(c as int, 4)
      else "\\U" + Hex(c as int, 8)
    else [c]
  }

  function Escape(s: string, q: char): string
  {
    if s == [] then [] else EscapeChar(s[0], q) + Escape(s[1..], q)
  }

  /** repr(u'...'). */
  function UnicodeRepr(s: string): (r: string)
    ensures |r| >= 3 && r[0] == 'u' && r[1] == QuoteFor(s) && r[|r| - 1] == QuoteFor(s)
  {
    var q := QuoteFor(s);
    ['u', q] + Escape(s, q) + [q]
  }

  /** Prepends c to a decoded text, keeping a failure. */
  function Cons(c: char, rest: Option<string>): Option<string>
  {
    if rest.Some? then Some([c] + rest.value) else None
  }

  /** The character a hex escape of that many digits stands for, if any. */
  function HexChar(digits: string): Option<char>
    requires forall i :: 0 <= i < |digits| ==> IsHexDigit(digits[i])
  {
    var v := HexValue(digits);
    if v < 0xD800 || 0xE000 <= v < 0x110000 then Some(v as char) else None
  }

  /** Reads a repr body quoted with q back into the text: the inverse of
      Escape, failing on a bare quote or a malformed escape. */
  function Unescape(body: string, q: char): Option<string>
    decreases |body|, 1
  {
    if body == [] then Some([])
    else if body[0] == q then None
    else if body[0] != '\\' then Cons(body[0], Unescape(body[1..], q))
    else if |body| < 2 then None
    else if body[1] == '\\' || body[1] == q then Cons(body[1], Unescape(body[2..], q))
    else if body[1] == 't' then Cons('\t', Unescape(body[2..], q))
    else if body[1] == 'n' then Cons('\n', Unescape(body[2..], q))
    else if body[1] == 'r' then Cons('\r', Unescape(body[2..], q))
    else if body[1] == 'x' then UnescapeHex(body[2..], 2, q)
    else if body[1] == 'u' then UnescapeHex(body[2..], 4, q)
    else if body[1] == 'U' then UnescapeHex(body[2..], 8, q)
    else None
  }

  /** The rest of a body after \x, \u or \U: width hex digits naming a
      character, then more body. */
  function UnescapeHex(body: string, width: nat, q: char): Option<string>
    requires width > 0
    decreases |body|, 0
  {
    if |body| < width || exists i :: 0 <= i < width && !IsHexDigit(body[i]) then None
    else
      var c := HexChar(body[..width]);
      if c.None? then None else Cons(c.value, Unescape(body[width..], q))
  }

  /** The digits of a character are read back as that character. */
  lemma UnescapeHexBack(c: char, width: nat, rest: string, q: char)
    requires width > 0 && c as int < Pow16(width)
    ensures UnescapeHex(Hex(c as int, width) + rest, width, q) == Cons(c, Unescape(rest, q))
  {
    var h := Hex(c as int, width);
    var body := h + rest;
    assert body[..width] == h;
    assert body[width..] == rest;
    assert forall i :: 0 <= i < width ==> body[i] == h[i];
    HexRoundTrip(c as int, width);
  }

  /** A character written as a hex escape is read back from it. */
  lemma HexEscapeBack(c: char, width: nat, rest: string, q: char, lead: char)
    requires (width == 2 && lead == 'x') || (width == 4 && lead == 'u') || (width == 8 && lead == 'U')
    requires c as int < Pow16(width)
    requires q == '\'' || q == '"'
    ensures Unescape(['\\', lead] + Hex(c as int, width) + rest, q) == Cons(c, Unescape(rest, q))
  {
    var body := ['\\', lead] + Hex(c as int, width) + rest;
    assert body[2..] == Hex(c as int, width) + rest;
    UnescapeHexBack(c, width, rest, q);
  }

  /** Unescaping one escaped character followed by more text. */
  lemma EscapeCharBack(c: char, rest: string, q: char)
    requires q == '\'' || q == '"'
    ensures Unescape(EscapeChar(c, q) + rest, q) == Cons(c, Unescape(rest, q))
  {
    var e := EscapeChar(c, q);
    if c == q || c == '\\' || c == '\t' || c == '\n' || c == '\r' {
      assert (e + rest)[2..] == rest;
    } else if c < ' ' || c as int >= 0x7f {
      assert Pow16(2) == 0x100 && Pow16(4) == 0x10000 && Pow16(8) == 0x1_0000_0000;
      if c as int < 0x100 {
        HexEscapeBack(c, 2, rest, q, 'x');
      } else if c as int < 0x10000 {
        HexEscapeBack(c, 4, rest, q, 'u');
      } else {
        HexEscapeBack(c, 8, rest, q, 'U');
      }
    } else {
      assert (e + rest)[1..] == rest;
    }
  }

  /** Escape is undone by Unescape, whichever quote is used. */
  lemma {:induction false} EscapeRoundTrip(s: string, q: char)
    requires q == '\'' || q == '"'
    ensures Unescape(Escape(s, q), q) == Some(s)
  {
    if s != [] {
      EscapeRoundTrip(s[1..], q);
      EscapeCharBack(s[0], Escape(s[1..], q), q);
      assert [s[0]] + s[1..] == s;
    }
  }

  /** The text is recovered from its repr: the quotes are the first and
      last characters after the u, and the body unescapes to the text. */
  lemma ReprRoundTrip(s: string)
    ensures var r := UnicodeRepr(s);
      Unescape(r[2..|r| - 1], r[1]) == Some(s)
  {
    var q := QuoteFor(s);
    var r := UnicodeRepr(s);
    assert r[2..|r| - 1] == Escape(s, q);
    EscapeRoundTrip(s, q);
  }

  /** Text of printable ASCII without quotes or backslashes. */
  predicate Plain(s: string)
  {
    forall i :: 0 <= i < |s| ==> ' ' <= s[i] < '\U{7F}' && s[i] != '\'' && s[i] != '"' && s[i] != '\\'
  }

  /** Plain text is printed as is, between u' and '. */
  lemma {:induction false} PlainRepr(s: string)
    requires Plain(s)
    ensures UnicodeRepr(s) == "u'" + s + "'"
  {
    PlainEscape(s);
  }

  lemma {:induction false} PlainEscape(s: string)
    requires Plain(s)
    ensures Escape(s, '\'') == s
  {
    if s != [] {
      PlainEscape(s[1..]);
      assert [s[0]] + s[1..] == s;
    }
  }
}

/**
 Go's `%q` verb on strings. Which code points print as themselves is a table of the Go runtime and stays a parameter.
 */
module Quoting {
  function HexDigit(n: nat): char
    requires n < 16
  {
    "0123456789abcdef"[n]
  }

  function HexDigitValue(c: char): nat {
    if '0' <= c <= '9' then (c - '0') as nat else if 'a' <= c <= 'f' then (c - 'a') as nat + 10 else 0
  }

  function Pow16(width: nat): nat {
    if width == 0 then 1 else 16 * Pow16(width - 1)
  }

  /** Fixed-width lower-case hexadecimal. */
  function Hex(n: nat, width: nat): (s: string)
    ensures |s| == width
  {
    if width == 0 then "" else Hex(n / 16, width - 1) + [HexDigit(n % 16)]
  }

  function HexValue(s: string): nat {
    if s == [] then 0 else HexValue(s[..|s| - 1]) * 16 + HexDigitValue(s[|s| - 1])
  }

  lemma {:induction false} HexInverts(n: nat, width: nat)
    requires n < Pow16(width)
    ensures HexValue(Hex(n, width)) == n
  {
    if width > 0 {
      HexInverts(n / 16, width - 1);
      var s := Hex(n, width);
      assert s[..|s| - 1] == Hex(n / 16, width - 1);
      assert s[|s| - 1] == HexDigit(n % 16);
    }
  }

  /** The escape sequence of one code point. */
  function Escape(printable: char -> bool, c: char): (code: string)
    ensures code != [] && code[0] != '"'
    ensures code[0] == '\\' ==> |code| >= 2
  {
    if c == '"' || c == '\\' then ['\\', c]
    else if printable(c) then [c]
    else match c as int
      case 7 => ['\\', 'a']
      case 8 => ['\\', 'b']
      case 9 => ['\\', 't']
      case 10 => ['\\', 'n']
      case 11 => ['\\', 'v']
      case 12 => ['\\', 'f']
      case 13 => ['\\', 'r']
      case n =>
        if n < 0x20 || n == 0x7F then ['\\', 'x'] + Hex(n, 2)
        else if n < 0x1_0000 then ['\\', 'u'] + Hex(n, 4)
        else ['\\', 'U'] + Hex(n, 8)
  }

  /** Bell to carriage return have letters of their own; other control characters are written in hex. */
  lemma ControlEscapes(printable: char -> bool, c: char)
    requires c < ' ' && !printable(c)
    ensures '\U{07}' <= c <= '\r' ==> Escape(printable, c) == ['\\', "abtnvfr"[c as int - 7]]
    ensures !('\U{07}' <= c <= '\r') ==> Escape(printable, c) == ['\\', 'x'] + Hex(c as int, 2)
  {
  }

  function EscapeAll(printable: char -> bool, s: string): string {
    if s == [] then [] else Escape(printable, s[0]) + EscapeAll(printable, s[1..])
  }

  function Quote(printable: char -> bool, s: string): string {
    ['"'] + EscapeAll(printable, s) + ['"']
  }

  lemma {:induction false} HexInjective(m: nat, n: nat, width: nat)
    requires m < Pow16(width) && n < Pow16(width)
    requires Hex(m, width) == Hex(n, width)
    ensures m == n
  {
    HexInverts(m, width);
    HexInverts(n, width);
  }

  lemma PowersOf16()
    ensures Pow16(2) == 0x100 && Pow16(4) == 0x1_0000 && Pow16(8) == 0x1_0000_0000
  {
    assert Pow16(2) == 0x100;
    assert Pow16(4) == 0x100 * Pow16(2);
    assert Pow16(6) == 0x100 * Pow16(4);
  }

  /** No escape sequence is a proper prefix of another, so what follows one cannot be mistaken for part of it. */
  lemma EscapePrefixFree(printable: char -> bool, c: char, x: string, d: char, y: string)
    requires Escape(printable, c) + x == Escape(printable, d) + y
    ensures c == d && x == y
  {
    var p, q := Escape(printable, c), Escape(printable, d);
    assert p[0] == (p + x)[0] == (q + y)[0] == q[0];
    if p[0] == '\\' {
      assert p[1] == (p + x)[1] == (q + y)[1] == q[1];
      assert |p| == |q|;
      assert p == (p + x)[..|p|] == (q + y)[..|q|] == q;
      if |p| > 2 {
        PowersOf16();
        assert p[2..] == Hex(c as int, |p| - 2) && q[2..] == Hex(d as int, |p| - 2);
        HexInjective(c as int, d as int, |p| - 2);
      }
    }
    assert x == (p + x)[|p|..] && y == (q + y)[|q|..];
  }

  lemma {:induction false} EscapeAllSelfDelimiting(printable: char -> bool, s: string, x: string, t: string, y: string)
    requires EscapeAll(printable, s) + ['"'] + x == EscapeAll(printable, t) + ['"'] + y
    ensures s == t && x == y
  {
    hide Escape;
    var l, r := EscapeAll(printable, s) + ['"'] + x, EscapeAll(printable, t) + ['"'] + y;
    if s == [] && t == [] {
      assert x == l[1..] && y == r[1..];
    } else {
      if s != [] { assert l[0] == Escape(printable, s[0])[0]; }
      if t != [] { assert r[0] == Escape(printable, t[0])[0]; }
      var u := EscapeAll(printable, s[1..]) + ['"'] + x;
      var v := EscapeAll(printable, t[1..]) + ['"'] + y;
      assert l == Escape(printable, s[0]) + u && r == Escape(printable, t[0]) + v;
      EscapePrefixFree(printable, s[0], u, t[0], v);
      EscapeAllSelfDelimiting(printable, s[1..], x, t[1..], y);
      assert s == [s[0]] + s[1..] && t == [t[0]] + t[1..];
    }
  }

  /** A quoted string says where it ends: quoted fields can be followed by anything and still be read back. */
  lemma QuoteSelfDelimiting(printable: char -> bool, s: string, x: string, t: string, y: string)
    requires Quote(printable, s) + x == Quote(printable, t) + y
    ensures s == t && x == y
  {
    var l, r := Quote(printable, s) + x, Quote(printable, t) + y;
    assert l[1..] == EscapeAll(printable, s) + ['"'] + x;
    assert r[1..] == EscapeAll(printable, t) + ['"'] + y;
    EscapeAllSelfDelimiting(printable, s, x, t, y);
  }
}

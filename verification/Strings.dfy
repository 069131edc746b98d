/** JSON string literals (json.dumps with ensure_ascii=False; RFC 8259 section 7). */
module JsonStrings {
  import opened Wrappers

  function HexDigit(n: nat): char
    requires n < 16
  {
    if n < 10 then (n + '0' as int) as char else (n - 10 + 'a' as int) as char
  }

  function HexValue(c: char): Option<nat> {
    if '0' <= c <= '9' then Some(c as int - '0' as int)
    else if 'a' <= c <= 'f' then Some(c as int - 'a' as int + 10)
    else if 'A' <= c <= 'F' then Some(c as int - 'A' as int + 10)
    else None
  }

  /** Quote, backslash and the control characters below U+0020 are escaped, nothing else. */
  function Escape(c: char): (e: string)
    ensures e != ""
  {
    if c == '"' then "\\\"" else if c == '\\' then "\\\\"
    else if c == '\n' then "\\n" else if c == '\r' then "\\r" else if c == '\t' then "\\t"
    else if c as int == 12 then "\\f" else if c as int == 8 then "\\b"
    else if c as int < 32 then "\\u00" + [HexDigit(c as int / 16), HexDigit(c as int % 16)]
    else [c]
  }

  function EscapeAll(s: string): string {
    if s == "" then "" else Escape(s[0]) + EscapeAll(s[1..])
  }

  function Quote(s: string): string {
    "\"" + EscapeAll(s) + "\""
  }

  /** The escapes of RFC 8259 section 7 by code point: two-character ones where there is one,
      six characters with lower-case digits for the other controls, and nothing else. */
  lemma {:induction false} EscapeExact(c: char)
    ensures var n, e := c as int, Escape(c);
      && (n == 0x22 ==> e == "\\\"")
      && (n == 0x5C ==> e == "\\\\")
      && (n == 0x08 ==> e == "\\b")
      && (n == 0x09 ==> e == "\\t")
      && (n == 0x0A ==> e == "\\n")
      && (n == 0x0C ==> e == "\\f")
      && (n == 0x0D ==> e == "\\r")
      && (n < 0x20 && n !in {8, 9, 10, 12, 13} ==>
            && |e| == 6 && e[..4] == "\\u00"
            && e[4] == (if n < 0x10 then '0' else '1')
            && HexValue(e[5]) == Some(n % 16) && !('A' <= e[5] <= 'F'))
      && (n >= 0x20 && n != 0x22 && n != 0x5C ==> e == [c])
  {
  }

  lemma {:induction false} EscapeHead(c: char, s: string)
    ensures EscapeAll([c] + s) == Escape(c) + EscapeAll(s)
  {
    assert ([c] + s)[1..] == s;
  }

  /** A string is escaped character by character. */
  lemma {:induction false} EscapeAllSplit(s: string, t: string)
    ensures EscapeAll(s + t) == EscapeAll(s) + EscapeAll(t)
    decreases |s|
  {
    if s == "" {
      assert s + t == t;
    } else {
      var c, r := s[0], s[1..];
      assert s == [c] + r && s + t == [c] + (r + t);
      EscapeHead(c, r);
      EscapeHead(c, r + t);
      EscapeAllSplit(r, t);
      Regroup(Escape(c), EscapeAll(r), EscapeAll(t));
    }
  }

  lemma {:induction false} Regroup(a: string, b: string, c: string)
    ensures a + (b + c) == (a + b) + c
  {
  }

  // ------------------------------------------------------------------------ reading

  function ReadUnicode(s: string): Option<char> {
    if |s| < 4 then None
    else
      var a, b, c, d := HexValue(s[0]), HexValue(s[1]), HexValue(s[2]), HexValue(s[3]);
      if a.None? || b.None? || c.None? || d.None? then None
      else
        var n := ((a.value * 16 + b.value) * 16 + c.value) * 16 + d.value;
        if n < 0xD800 then Some(n as char) else None
  }

  /** The character an escape stands for, and what follows it; s starts after the backslash. */
  function ReadEscape(s: string): (r: Option<(char, string)>)
    ensures r.Some? ==> |r.value.1| < |s|
  {
    if s == "" then None
    else if s[0] == '"' || s[0] == '\\' || s[0] == '/' then Some((s[0], s[1..]))
    else if s[0] == 'n' then Some(('\n', s[1..]))
    else if s[0] == 'r' then Some(('\r', s[1..]))
    else if s[0] == 't' then Some(('\t', s[1..]))
    else if s[0] == 'f' then Some((12 as char, s[1..]))
    else if s[0] == 'b' then Some((8 as char, s[1..]))
    else if s[0] == 'u' && |s| >= 5 && ReadUnicode(s[1..]).Some? then Some((ReadUnicode(s[1..]).value, s[5..]))
    else None
  }

  /** The characters up to the closing quote, and what follows it. */
  function ReadChars(s: string): (r: Option<(string, string)>)
    ensures r.Some? ==> |r.value.1| < |s|
    decreases |s|
  {
    if s == "" then None
    else if s[0] == '"' then Some(("", s[1..]))
    else if s[0] == '\\' then
      var e := ReadEscape(s[1..]);
      if e.None? then None
      else
        var r := ReadChars(e.value.1);
        if r.None? then None else Some(([e.value.0] + r.value.0, r.value.1))
    else if s[0] as int < 32 then None
    else
      var r := ReadChars(s[1..]);
      if r.None? then None else Some(([s[0]] + r.value.0, r.value.1))
  }

  function Prefixed(s: string, r: Option<(string, string)>): Option<(string, string)> {
    if r.None? then None else Some((s + r.value.0, r.value.1))
  }

  lemma {:induction false} PrefixedTwice(a: string, b: string, r: Option<(string, string)>)
    ensures Prefixed(a, Prefixed(b, r)) == Prefixed(a + b, r)
  {
    if r.Some? { assert a + (b + r.value.0) == a + b + r.value.0; }
  }

  lemma {:induction false} HexReads(n: nat)
    requires n < 16
    ensures HexValue(HexDigit(n)) == Some(n)
  {
  }

  lemma {:induction false} ControlReads(c: char, rest: string)
    requires c as int < 32
    ensures ReadEscape("u00" + [HexDigit(c as int / 16), HexDigit(c as int % 16)] + rest) == Some((c, rest))
  {
    var h, l := c as int / 16, c as int % 16;
    HexReads(h);
    HexReads(l);
    assert HexValue('0') == Some(0);
    var s := "u00" + [HexDigit(h), HexDigit(l)] + rest;
    assert s[1] == '0' && s[2] == '0' && s[3] == HexDigit(h) && s[4] == HexDigit(l);
    assert s[5..] == rest;
    var t := s[1..];
    assert t[0] == '0' && t[1] == '0' && t[2] == HexDigit(h) && t[3] == HexDigit(l);
  }

  /** Reading past one escaped character yields that character. */
  lemma {:induction false} EscapeReads(c: char, rest: string)
    ensures ReadChars(Escape(c) + rest) == Prefixed([c], ReadChars(rest))
  {
    var s := Escape(c) + rest;
    if |Escape(c)| == 1 {
      assert s[1..] == rest;
    } else if |Escape(c)| == 2 {
      assert s[1..] == [Escape(c)[1]] + rest;
      assert s[1..][1..] == rest;
    } else {
      ControlReads(c, rest);
      assert s[1..] == "u00" + [HexDigit(c as int / 16), HexDigit(c as int % 16)] + rest;
    }
  }

  lemma {:induction false} EscapeAllHead(s: string, tail: string)
    requires s != ""
    ensures EscapeAll(s) + tail == Escape(s[0]) + (EscapeAll(s[1..]) + tail)
  {
  }

  /** Reading an escaped string gives its characters and goes on behind them. */
  lemma {:induction false} EscapeAllThen(s: string, tail: string)
    ensures ReadChars(EscapeAll(s) + tail) == Prefixed(s, ReadChars(tail))
  {
    if s == "" {
      assert EscapeAll(s) + tail == tail;
      if ReadChars(tail).Some? { assert s + ReadChars(tail).value.0 == ReadChars(tail).value.0; }
    } else {
      EscapeAllHead(s, tail);
      EscapeAllThen(s[1..], tail);
      EscapeReads(s[0], EscapeAll(s[1..]) + tail);
      PrefixedTwice([s[0]], s[1..], ReadChars(tail));
      assert [s[0]] + s[1..] == s;
    }
  }

  /** A quoted string is read back, whatever follows the closing quote. */
  lemma {:induction false} EscapeAllReads(s: string, rest: string)
    ensures ReadChars(EscapeAll(s) + ("\"" + rest)) == Some((s, rest))
  {
    var end := "\"" + rest;
    assert end[1..] == rest;
    EscapeAllThen(s, end);
    assert s + "" == s;
  }

  lemma {:induction false} QuoteReads(s: string, rest: string)
    ensures (Quote(s) + rest)[0] == '"'
    ensures ReadChars((Quote(s) + rest)[1..]) == Some((s, rest))
  {
    EscapeAllReads(s, rest);
    assert (Quote(s) + rest)[1..] == EscapeAll(s) + ("\"" + rest);
  }
}

/** UTF-8, as str.encode("utf-8") produces it (RFC 3629 section 3). */
module Utf8 {

  newtype byte = n: int | 0 <= n < 256

  function EncodeChar(c: char): (b: seq<byte>)
    ensures 1 <= |b| <= 4
  {
    var n := c as int;
    if n < 0x80 then [n as byte]
    else if n < 0x800 then [(0xC0 + n / 64) as byte, (0x80 + n % 64) as byte]
    else if n < 0x10000 then
      [(0xE0 + n / 4096) as byte, (0x80 + n / 64 % 64) as byte, (0x80 + n % 64) as byte]
    else
      [(0xF0 + n / 262144) as byte, (0x80 + n / 4096 % 64) as byte, (0x80 + n / 64 % 64) as byte,
       (0x80 + n % 64) as byte]
  }

  predicate Continuation(b: byte) {
    0x80 <= b <= 0xBF
  }

  /** The table of RFC 3629 section 3: how many bytes, in which ranges, carrying which bits. */
  lemma {:induction false} EncodeCharExact(c: char)
    ensures var n, x := c as int, EncodeChar(c);
      && (n <= 0x7F ==> x == [n as byte])
      && (0x80 <= n <= 0x7FF ==>
            && |x| == 2 && 0xC2 <= x[0] <= 0xDF && Continuation(x[1])
            && n == (x[0] as int - 0xC0) * 64 + (x[1] as int - 0x80))
      && (0x800 <= n <= 0xFFFF ==>
            && |x| == 3 && 0xE0 <= x[0] <= 0xEF && Continuation(x[1]) && Continuation(x[2])
            && n == (x[0] as int - 0xE0) * 4096 + (x[1] as int - 0x80) * 64 + (x[2] as int - 0x80))
      && (0x10000 <= n ==>
            && |x| == 4 && 0xF0 <= x[0] <= 0xF4
            && Continuation(x[1]) && Continuation(x[2]) && Continuation(x[3])
            && n == (x[0] as int - 0xF0) * 262144 + (x[1] as int - 0x80) * 4096
                    + (x[2] as int - 0x80) * 64 + (x[3] as int - 0x80))
  {
    var n := c as int;
    assert n / 64 / 64 == n / 4096 && n / 4096 / 64 == n / 262144;
  }

  function Encode(s: string): seq<byte> {
    if s == "" then [] else EncodeChar(s[0]) + Encode(s[1..])
  }

  lemma {:induction false} EncodeHead(c: char, s: string)
    ensures Encode([c] + s) == EncodeChar(c) + Encode(s)
  {
    assert ([c] + s)[1..] == s;
  }

  /** A string is encoded character by character. */
  lemma {:induction false} EncodeSplit(s: string, t: string)
    ensures Encode(s + t) == Encode(s) + Encode(t)
    decreases |s|
  {
    if s == "" {
      assert s + t == t;
    } else {
      var c, r := s[0], s[1..];
      assert s == [c] + r && s + t == [c] + (r + t);
      EncodeHead(c, r);
      EncodeHead(c, r + t);
      EncodeSplit(r, t);
      Regroup(EncodeChar(c), Encode(r), Encode(t));
    }
  }

  lemma {:induction false} Regroup(a: seq<byte>, b: seq<byte>, c: seq<byte>)
    ensures a + (b + c) == (a + b) + c
  {
  }

  lemma {:induction false} SixBits(m: nat, n: nat)
    requires m / 64 == n / 64 && m % 64 == n % 64
    ensures m == n
  {
    assert m == 64 * (m / 64) + m % 64;
    assert n == 64 * (n / 64) + n % 64;
  }

  /** The first byte gives the length away. */
  lemma {:induction false} LengthFromFirst(c: char)
    ensures var first := EncodeChar(c)[0] as int;
      |EncodeChar(c)| == if first < 0x80 then 1 else if first < 0xE0 then 2 else if first < 0xF0 then 3 else 4
  {
  }

  lemma {:induction false} EncodeCharInjective(a: char, b: char)
    requires EncodeChar(a) == EncodeChar(b)
    ensures a == b
  {
    var m, n := a as int, b as int;
    LengthFromFirst(a);
    LengthFromFirst(b);
    var x, y := EncodeChar(a), EncodeChar(b);
    if |x| == 2 {
      SixBits(m, n);
    } else if |x| == 3 {
      assert x[0] == y[0] && x[1] == y[1] && x[2] == y[2];
      assert m / 64 / 64 == m / 4096 && n / 64 / 64 == n / 4096;
      SixBits(m / 64, n / 64);
      SixBits(m, n);
    } else if |x| == 4 {
      assert x[0] == y[0] && x[1] == y[1] && x[2] == y[2] && x[3] == y[3];
      assert m / 4096 / 64 == m / 262144 && n / 4096 / 64 == n / 262144;
      assert m / 64 / 64 == m / 4096 && n / 64 / 64 == n / 4096;
      SixBits(m / 4096, n / 4096);
      SixBits(m / 64, n / 64);
      SixBits(m, n);
    }
  }

  /** Different texts have different bytes. */
  lemma {:induction false} EncodeInjective(s: string, t: string)
    requires Encode(s) == Encode(t)
    ensures s == t
  {
    if s != "" && t != "" {
      var x, y := EncodeChar(s[0]), EncodeChar(t[0]);
      LengthFromFirst(s[0]);
      LengthFromFirst(t[0]);
      assert x[0] == Encode(s)[0] == Encode(t)[0] == y[0];
      assert x == Encode(s)[..|x|] == y;
      EncodeCharInjective(s[0], t[0]);
      assert Encode(s[1..]) == Encode(s)[|x|..] == Encode(t[1..]);
      EncodeInjective(s[1..], t[1..]);
      assert s == [s[0]] + s[1..];
      assert t == [t[0]] + t[1..];
    }
  }
}

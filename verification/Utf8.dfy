/** UTF-8, as quote() and unquote() use it (RFC 3629, section 3). */
module Utf8 {
  import opened Common

  type Byte = x: int | 0 <= x < 256

  function EncodeChar(c: char): (b: seq<Byte>)
    ensures 1 <= |b| <= 4
  {
    var n := c as int;
    if n < 0x80 then [n]
    else if n < 0x800 then [0xC0 + n / 0x40, 0x80 + n % 0x40]
    else if n < 0x10000 then [0xE0 + n / 0x1000, 0x80 + n / 0x40 % 0x40, 0x80 + n % 0x40]
    else [0xF0 + n / 0x40000, 0x80 + n / 0x1000 % 0x40, 0x80 + n / 0x40 % 0x40, 0x80 + n % 0x40]
  }

  function Encode(s: string): seq<Byte> {
    if s == "" then [] else EncodeChar(s[0]) + Encode(s[1..])
  }

  predicate IsTail(b: Byte) {
    0x80 <= b < 0xC0
  }

  function Tail(b: int): int {
    b - 0x80
  }

  predicate IsScalar(n: int) {
    0 <= n < 0xD800 || 0xE000 <= n < 0x110000
  }

  /** The first character of a byte sequence and the number of bytes it takes. Overlong forms
      and surrogates are not characters. */
  function DecodeChar(b: seq<Byte>): (r: Option<(char, nat)>)
    requires b != []
    ensures r.Some? ==> 1 <= r.value.1 <= |b|
  {
    var lead: int := b[0];
    if lead < 0x80 then Some((lead as char, 1))
    else if 0xC2 <= lead < 0xE0 && |b| >= 2 && IsTail(b[1]) then
      Scalar((lead - 0xC0) * 0x40 + Tail(b[1]), 2, 0x80)
    else if 0xE0 <= lead < 0xF0 && |b| >= 3 && IsTail(b[1]) && IsTail(b[2]) then
      Scalar((lead - 0xE0) * 0x1000 + Tail(b[1]) * 0x40 + Tail(b[2]), 3, 0x800)
    else if 0xF0 <= lead < 0xF5 && |b| >= 4 && IsTail(b[1]) && IsTail(b[2]) && IsTail(b[3]) then
      Scalar((lead - 0xF0) * 0x40000 + Tail(b[1]) * 0x1000 + Tail(b[2]) * 0x40 + Tail(b[3]), 4, 0x10000)
    else None
  }

  function Scalar(n: int, length: nat, least: int): (r: Option<(char, nat)>)
    ensures r.Some? ==> r.value.1 == length
  {
    if least <= n && IsScalar(n) then Some((n as char, length)) else None
  }

  function Decode(b: seq<Byte>): Option<string>
    decreases |b|
  {
    if b == [] then Some("")
    else
      match DecodeChar(b)
      case None => None
      case Some((c, n)) =>
        match Decode(b[n..])
        case None => None
        case Some(s) => Some([c] + s)
  }

  lemma TwoBytes(c: char, rest: seq<Byte>)
    requires 0x80 <= c as int < 0x800
    ensures DecodeChar(EncodeChar(c) + rest) == Some((c, 2))
  {
    var n := c as int;
    var b := EncodeChar(c) + rest;
    assert b[0] == 0xC0 + n / 0x40 && b[1] == 0x80 + n % 0x40;
  }

  lemma ThreeBytes(c: char, rest: seq<Byte>)
    requires 0x800 <= c as int < 0x10000
    ensures DecodeChar(EncodeChar(c) + rest) == Some((c, 3))
  {
    var n := c as int;
    var b := EncodeChar(c) + rest;
    assert b[0] == 0xE0 + n / 0x1000 && b[1] == 0x80 + n / 0x40 % 0x40 && b[2] == 0x80 + n % 0x40;
    Digits(n);
  }

  lemma FourBytes(c: char, rest: seq<Byte>)
    requires 0x10000 <= c as int
    ensures DecodeChar(EncodeChar(c) + rest) == Some((c, 4))
  {
    var n := c as int;
    var b := EncodeChar(c) + rest;
    assert b[0] == 0xF0 + n / 0x40000 && b[1] == 0x80 + n / 0x1000 % 0x40;
    assert b[2] == 0x80 + n / 0x40 % 0x40 && b[3] == 0x80 + n % 0x40;
    Digits(n);
  }

  /** A number in base 64. */
  lemma Digits(n: int)
    ensures n == n / 0x1000 * 0x1000 + n / 0x40 % 0x40 * 0x40 + n % 0x40
    ensures n / 0x1000 == n / 0x40000 * 0x40 + n / 0x1000 % 0x40
  {
  }

  lemma CharRoundTrip(c: char, rest: seq<Byte>)
    ensures DecodeChar(EncodeChar(c) + rest) == Some((c, |EncodeChar(c)|))
  {
    var n := c as int;
    if n < 0x80 {
      assert (EncodeChar(c) + rest)[0] == n;
    } else if n < 0x800 {
      TwoBytes(c, rest);
    } else if n < 0x10000 {
      ThreeBytes(c, rest);
    } else {
      FourBytes(c, rest);
    }
  }

  /** Every string comes back from its encoding. */
  lemma {:induction false} RoundTrip(s: string)
    ensures Decode(Encode(s)) == Some(s)
  {
    if s != "" {
      CharRoundTrip(s[0], Encode(s[1..]));
      var b := EncodeChar(s[0]) + Encode(s[1..]);
      assert b[|EncodeChar(s[0])|..] == Encode(s[1..]);
      RoundTrip(s[1..]);
      assert [s[0]] + s[1..] == s;
    }
  }

  /** The form of an encoded character: one byte below 0x80 as it is; otherwise a leading byte that tells the
      length, and bytes of six bits each, whose value together is the character's. */
  lemma EncodedForm(c: char)
    ensures var n, b := c as int, EncodeChar(c);
            && (forall i | 1 <= i < |b| :: 0x80 <= b[i] < 0xC0)
            && (n < 0x80 ==> b == [n])
            && (0x80 <= n < 0x800 ==>
                  |b| == 2 && 0xC2 <= b[0] < 0xE0
                  && n == (b[0] as int - 0xC0) * 64 + (b[1] as int - 0x80))
            && (0x800 <= n < 0x10000 ==>
                  |b| == 3 && 0xE0 <= b[0] < 0xF0
                  && n == (b[0] as int - 0xE0) * 4096 + (b[1] as int - 0x80) * 64 + (b[2] as int - 0x80))
            && (0x10000 <= n ==>
                  |b| == 4 && 0xF0 <= b[0] < 0xF5
                  && n == (b[0] as int - 0xF0) * 262144 + (b[1] as int - 0x80) * 4096
                          + (b[2] as int - 0x80) * 64 + (b[3] as int - 0x80))
  {
    Digits(c as int);
  }

  /** Only what encodes a character is read as one: no overlong form, no surrogate, no stray byte. */
  lemma DecodesOnlyEncoded(b: seq<Byte>)
    requires b != [] && DecodeChar(b).Some?
    ensures var (c, k) := DecodeChar(b).value; k <= |b| && b[..k] == EncodeChar(c)
  {
    var (c, k) := DecodeChar(b).value;
    EncodedForm(c);
    var e := EncodeChar(c);
    if k == 2 {
      assert b[..2] == [b[0], b[1]];
    } else if k == 3 {
      SameDigits(b[1] - 0x80, b[2] - 0x80, e[1] - 0x80, e[2] - 0x80, b[0] - 0xE0, e[0] - 0xE0);
      assert b[..3] == [b[0], b[1], b[2]];
    } else if k == 4 {
      SameDigits(b[1] - 0x80, b[2] - 0x80, e[1] - 0x80, e[2] - 0x80, b[0] - 0xF0, e[0] - 0xF0);
      assert b[..4] == [b[0], b[1], b[2], b[3]];
    }
  }

  /** Base 64 digits are determined by the number. */
  lemma SameDigits(x: int, y: int, x': int, y': int, h: int, h': int)
    requires 0 <= x < 64 && 0 <= y < 64 && 0 <= x' < 64 && 0 <= y' < 64
    ensures h * 4096 + x * 64 + y == h' * 4096 + x' * 64 + y' ==> h == h' && x == x' && y == y'
  {
  }
}

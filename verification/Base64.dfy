/** The base64 codec of src/base64.cpp against section 4 of RFC 4648. */
module Base64 {

  import opened Bytes

  // ---------------------------------------------------------------- the alphabet

  /** The k-th character of `base64_chars`. */
  function Char(k: nat): char
    requires k < 64
  {
    if k < 26 then ('A' as int + k) as char
    else if k < 52 then ('a' as int + k - 26) as char
    else if k < 62 then ('0' as int + k - 52) as char
    else if k == 62 then '+' else '/'
  }

  /** `is_base64`. */
  predicate IsBase64(c: char) {
    'A' <= c <= 'Z' || 'a' <= c <= 'z' || '0' <= c <= '9' || c == '+' || c == '/'
  }

  /** `base64_chars.find`. */
  function Find(c: char): (k: nat)
    requires IsBase64(c)
    ensures k < 64 && Char(k) == c
  {
    if 'A' <= c <= 'Z' then c as int - 'A' as int
    else if 'a' <= c <= 'z' then c as int - 'a' as int + 26
    else if '0' <= c <= '9' then c as int - '0' as int + 52
    else if c == '+' then 62 else 63
  }

  lemma FindChar(k: nat)
    requires k < 64
    ensures IsBase64(Char(k)) && Find(Char(k)) == k && Char(k) != '='
  {}

  // ---------------------------------------------------------------- RFC 4648, section 4

  /** Three bytes read as one 24-bit number, most significant first. */
  function Bits24(a: byte, b: byte, c: byte): (v: nat)
    ensures v < 0x100_0000
  {
    a as nat * 0x1_0000 + b as nat * 0x100 + c as nat
  }

  /** The four six-bit digits of a 24-bit number, most significant first. */
  function Quad(v: nat): (q: string)
    requires v < 0x100_0000
    ensures |q| == 4
  {
    [Char(v / 0x4_0000), Char(v / 0x1000 % 64), Char(v / 64 % 64), Char(v % 64)]
  }

  function Encoded(s: seq<byte>): string {
    if |s| == 0 then ""
    else if |s| == 1 then Quad(Bits24(s[0], 0, 0))[..2] + "=="
    else if |s| == 2 then Quad(Bits24(s[0], s[1], 0))[..3] + "="
    else Quad(Bits24(s[0], s[1], s[2])) + Encoded(s[3..])
  }

  function Byte(v: nat): byte { (v % 256) as byte }

  /** Four digits give three bytes; a rest of two or three gives one or two, a lone digit none. */
  function Group(g: string): seq<byte>
    requires |g| <= 4 && forall i :: 0 <= i < |g| ==> IsBase64(g[i])
  {
    if |g| < 2 then []
    else
      var v2 := Find(g[0]) * 64 + Find(g[1]);
      if |g| == 2 then [Byte(v2 / 16)]
      else
        var v3 := v2 * 64 + Find(g[2]);
        if |g| == 3 then [Byte(v3 / 0x400), Byte(v3 / 4)]
        else
          var v4 := v3 * 64 + Find(g[3]);
          [Byte(v4 / 0x1_0000), Byte(v4 / 0x100), Byte(v4)]
  }

  function Decoded(s: string): seq<byte>
    requires forall i :: 0 <= i < |s| ==> IsBase64(s[i])
  {
    if |s| < 4 then Group(s) else Group(s[..4]) + Decoded(s[4..])
  }

  /** The decoder stops at the first character outside the alphabet. */
  function Alphabetic(s: string): (p: string)
    ensures p <= s && forall i :: 0 <= i < |p| ==> IsBase64(p[i])
    ensures |p| == |s| || !IsBase64(s[|p|])
  {
    if s == "" || !IsBase64(s[0]) then "" else [s[0]] + Alphabetic(s[1..])
  }

  // ---------------------------------------------------------------- the round trip

  lemma {:induction false} AlphabeticPrefix(a: string, b: string)
    requires forall i :: 0 <= i < |a| ==> IsBase64(a[i])
    ensures Alphabetic(a + b) == a + Alphabetic(b)
  {
    if a == "" {
      assert a + b == b;
    } else {
      assert (a + b)[1..] == a[1..] + b;
      AlphabeticPrefix(a[1..], b);
    }
  }

  lemma QuadDigits(v: nat)
    requires v < 0x100_0000
    ensures var q := Quad(v);
            |q| == 4 && (forall i :: 0 <= i < 4 ==> IsBase64(q[i])) &&
            Find(q[0]) == v / 0x4_0000 && Find(q[1]) == v / 0x1000 % 64 && Find(q[2]) == v / 64 % 64 &&
            Find(q[3]) == v % 64
  {
    FindChar(v / 0x4_0000);
    FindChar(v / 0x1000 % 64);
    FindChar(v / 64 % 64);
    FindChar(v % 64);
  }

  lemma MulMonotone(a: nat, b: nat, d: nat)
    requires a <= b
    ensures a * d <= b * d
  {}

  lemma Quotient(v: nat, q: nat, d: nat, r: nat)
    requires v == q * d + r && r < d
    ensures v / d == q && v % d == r
  {
    if v / d < q {
      MulMonotone(v / d + 1, q, d);
    } else if v / d > q {
      MulMonotone(q + 1, v / d, d);
    }
  }

  /** The digits of a 24-bit number in base 64, and its bytes. */
  lemma Regroup(a: nat, b: nat, c: nat)
    requires a < 256 && b < 256 && c < 256
    ensures var v := a * 0x1_0000 + b * 0x100 + c;
            v / 0x4_0000 == a / 4 && v / 0x1000 % 64 == a % 4 * 16 + b / 16 &&
            v / 64 % 64 == b % 16 * 4 + c / 64 && v % 64 == c % 64
  {
    var v := a * 0x1_0000 + b * 0x100 + c;
    var d1, d2, d3, d4 := a / 4, a % 4 * 16 + b / 16, b % 16 * 4 + c / 64, c % 64;
    assert a == 4 * d1 + a % 4 && b == 16 * (b / 16) + b % 16 && c == 64 * (c / 64) + d4;
    assert v == ((d1 * 64 + d2) * 64 + d3) * 64 + d4;
    Quotient(v, d1, 0x4_0000, (d2 * 64 + d3) * 64 + d4);
    Quotient(v, d1 * 64 + d2, 0x1000, d3 * 64 + d4);
    Quotient(d1 * 64 + d2, d1, 64, d2);
    Quotient(v, (d1 * 64 + d2) * 64 + d3, 64, d4);
    Quotient((d1 * 64 + d2) * 64 + d3, d1 * 64 + d2, 64, d3);
  }

  /** Four six-bit digits make the 24-bit number again, and three of them, or two, its front. */
  lemma DigitsBack(v: nat)
    requires v < 0x100_0000
    ensures var (d1, d2, d3, d4) := (v / 0x4_0000, v / 0x1000 % 64, v / 64 % 64, v % 64);
            ((d1 * 64 + d2) * 64 + d3) * 64 + d4 == v && (d1 * 64 + d2) * 64 + d3 == v / 64 &&
            d1 * 64 + d2 == v / 0x1000
  {
    var w := v / 64;
    Quotient(v, w / 64, 0x1000, w % 64 * 64 + v % 64);
    Quotient(v, w / 0x1000, 0x4_0000, w % 0x1000 * 64 + v % 64);
  }

  lemma BytesBack(a: byte, b: byte, c: byte)
    ensures var v := Bits24(a, b, c);
            Byte(v / 0x1_0000) == a && Byte(v / 0x100) == b && Byte(v) == c
  {
    var v := Bits24(a, b, c);
    Quotient(v, a as nat, 0x1_0000, b as nat * 0x100 + c as nat);
    Quotient(v, a as nat * 0x100 + b as nat, 0x100, c as nat);
    Quotient(a as nat * 0x100 + b as nat, a as nat, 0x100, b as nat);
  }

  lemma Shifts(v: nat)
    ensures v / 64 / 0x400 == v / 0x1_0000 && v / 64 / 4 == v / 0x100 && v / 0x1000 / 16 == v / 0x1_0000
  {
    Quotient(v, v / 64 / 0x400, 0x1_0000, v / 64 % 0x400 * 64 + v % 64);
    Quotient(v, v / 64 / 4, 0x100, v / 64 % 4 * 64 + v % 64);
    Quotient(v, v / 0x1000 / 16, 0x1_0000, v / 0x1000 % 16 * 0x1000 + v % 0x1000);
  }

  /** The digits of a 24-bit number, or its front, decode to its bytes. */
  lemma GroupBack(a: byte, b: byte, c: byte)
    ensures var q := Quad(Bits24(a, b, c));
            (forall i :: 0 <= i < 4 ==> IsBase64(q[i])) && Group(q) == [a, b, c]
  {
    var v := Bits24(a, b, c);
    QuadDigits(v);
    DigitsBack(v);
    BytesBack(a, b, c);
    hide Quad;
    hide Find;
    hide Byte;
    hide Bits24;
  }

  lemma FrontBack(a: byte, b: byte)
    ensures var q := Quad(Bits24(a, b, 0));
            (forall i :: 0 <= i < 4 ==> IsBase64(q[i])) && Group(q[..3]) == [a, b] && (b == 0 ==> Group(q[..2]) == [a])
  {
    hide Quad;
    hide Find;
    hide Byte;
    hide Bits24;
    var v := Bits24(a, b, 0);
    var q := Quad(v);
    QuadDigits(v);
    DigitsBack(v);
    BytesBack(a, b, 0);
    Shifts(v);
    assert q[..3][0] == q[0] && q[..3][1] == q[1] && q[..3][2] == q[2];
    assert q[..2][0] == q[0] && q[..2][1] == q[1];
    assert Find(q[0]) * 64 + Find(q[1]) == v / 0x1000;
    assert v / 0x1000 * 64 + Find(q[2]) == v / 64;
  }

  lemma FourBack(q: string, rest: string)
    requires |q| == 4 && (forall i :: 0 <= i < 4 ==> IsBase64(q[i])) &&
             forall i :: 0 <= i < |rest| ==> IsBase64(rest[i])
    ensures (forall i :: 0 <= i < |q + rest| ==> IsBase64((q + rest)[i]))
    ensures Decoded(q + rest) == Group(q) + Decoded(rest)
  {
    hide Group;
    assert (q + rest)[..4] == q && (q + rest)[4..] == rest;
  }

  /** decode(encode(b)) == b for every byte string. */
  lemma {:induction false} RoundTrip(s: seq<byte>)
    ensures Decoded(Alphabetic(Encoded(s))) == s
  {
    hide Group;
    hide Quad;
    hide Bits24;
    if |s| == 1 {
      FrontBack(s[0], 0);
      var q := Quad(Bits24(s[0], 0, 0))[..2];
      AlphabeticPrefix(q, "==");
      assert q + "" == q;
    } else if |s| == 2 {
      FrontBack(s[0], s[1]);
      var q := Quad(Bits24(s[0], s[1], 0))[..3];
      AlphabeticPrefix(q, "=");
      assert q + "" == q;
    } else if |s| > 2 {
      GroupBack(s[0], s[1], s[2]);
      FourBack(Quad(Bits24(s[0], s[1], s[2])), Alphabetic(Encoded(s[3..])));
      AlphabeticPrefix(Quad(Bits24(s[0], s[1], s[2])), Encoded(s[3..]));
      RoundTrip(s[3..]);
      assert s == [s[0], s[1], s[2]] + s[3..];
    } else {
      NothingDecoded();
    }
  }

  lemma NothingDecoded()
    ensures Decoded("") == []
  {}

  /** The length is 4 * ceil(n / 3), and padding stands only in the last two places. */
  lemma {:induction false} EncodedShape(s: seq<byte>)
    ensures |Encoded(s)| == 4 * ((|s| + 2) / 3)
    ensures forall i :: 0 <= i < |Encoded(s)| ==>
              IsBase64(Encoded(s)[i]) || (Encoded(s)[i] == '=' && i >= |Encoded(s)| - 2)
  {
    if |s| == 1 {
      QuadDigits(Bits24(s[0], 0, 0));
    } else if |s| == 2 {
      QuadDigits(Bits24(s[0], s[1], 0));
    } else if |s| > 2 {
      QuadDigits(Bits24(s[0], s[1], s[2]));
      EncodedShape(s[3..]);
    }
  }

  // ---------------------------------------------------------------- the number kept

  /** Table 1 of RFC 4648, and `base64_chars`. */
  const ALPHABET := "ABCDEFGHIJKLMNOPQRSTUVWXYZ" + "abcdefghijklmnopqrstuvwxyz" + "0123456789+/"

  lemma CapitalAt(k: nat)
    requires k < 26
    ensures "ABCDEFGHIJKLMNOPQRSTUVWXYZ"[k] == Char(k)
  {}

  lemma SmallAt(k: nat)
    requires k < 26
    ensures "abcdefghijklmnopqrstuvwxyz"[k] == Char(26 + k)
  {}

  lemma OtherAt(k: nat)
    requires k < 12
    ensures "0123456789+/"[k] == Char(52 + k)
  {}

  /** The characters of the codec are those of the standard, in its order. */
  lemma AlphabetAt(k: nat)
    requires k < 64
    ensures |ALPHABET| == 64 && Char(k) == ALPHABET[k]
  {
    if k < 26 { CapitalAt(k); }
    else if k < 52 { SmallAt(k - 26); }
    else { OtherAt(k - 52); }
    hide Char;
  }

  /** A text that agrees with `Char` holds exactly the characters that are decoded. */
  lemma InAlphabet(a: string, c: char)
    requires |a| == 64 && forall k :: 0 <= k < 64 ==> Char(k) == a[k]
    ensures IsBase64(c) <==> c in a
  {
    if IsBase64(c) { assert a[Find(c)] == c; }
    if c in a {
      var k :| 0 <= k < |a| && a[k] == c;
      FindChar(k);
    }
  }

  /** `is_base64` holds of the alphabet and of nothing else. */
  lemma AlphabetExact(c: char)
    ensures IsBase64(c) <==> c in ALPHABET
  {
    AlphabetAt(0);
    forall k | 0 <= k < 64 ensures Char(k) == ALPHABET[k] { AlphabetAt(k); }
    InAlphabet(ALPHABET, c);
  }

  predicate IsText(t: string) { forall i :: 0 <= i < |t| ==> t[i] == '=' || IsBase64(t[i]) }

  /** A padding sign is a zero. */
  function Digit(c: char): nat
    requires c == '=' || IsBase64(c)
  {
    if c == '=' then 0 else Find(c)
  }

  /** A text read as a number in base 64, with `n` in front. */
  function Number64(n: nat, t: string): nat
    requires IsText(t)
    decreases |t|
  {
    if t == "" then n else Number64(n * 64 + Digit(t[0]), t[1..])
  }

  /** Bytes read as a number in base 256, with `n` in front, and filled up with zeros to a
      multiple of three. */
  function Number256(n: nat, s: seq<byte>): nat
    decreases |s|
  {
    if |s| == 0 then n
    else if |s| == 1 then (n * 256 + s[0] as nat) * 256 * 256
    else if |s| == 2 then ((n * 256 + s[0] as nat) * 256 + s[1] as nat) * 256
    else Number256(((n * 256 + s[0] as nat) * 256 + s[1] as nat) * 256 + s[2] as nat, s[3..])
  }

  lemma Number64Four(n: nat, q: string, rest: string)
    requires |q| == 4 && IsText(q) && IsText(rest)
    ensures IsText(q + rest)
    ensures Number64(n, q + rest) ==
            Number64(n * 0x100_0000 + (((Digit(q[0]) * 64 + Digit(q[1])) * 64 + Digit(q[2])) * 64 + Digit(q[3])), rest)
  {
    hide Digit;
    hide IsBase64;
    var t := q + rest;
    assert t[0] == q[0] && t[1] == q[1] && t[2] == q[2] && t[3] == q[3];
    assert t[1..][1..] == t[2..] && t[2..][1..] == t[3..] && t[3..][1..] == rest;
    var n1 := n * 64 + Digit(q[0]);
    var n2 := n1 * 64 + Digit(q[1]);
    var n3 := n2 * 64 + Digit(q[2]);
    assert Number64(n, t) == Number64(n1, t[1..]);
    assert Number64(n1, t[1..]) == Number64(n2, t[2..]);
    assert Number64(n2, t[2..]) == Number64(n3, t[3..]);
  }

  lemma QuadNumber(v: nat)
    requires v < 0x100_0000
    ensures var q := Quad(v);
            IsText(q) && ((Digit(q[0]) * 64 + Digit(q[1])) * 64 + Digit(q[2])) * 64 + Digit(q[3]) == v
  {
    QuadDigits(v);
    DigitsBack(v);
    hide Quad;
    hide Find;
  }

  lemma LastDigits(a: byte, b: byte, two: bool)
    requires two || b == 0
    ensures var q := Quad(Bits24(a, b, 0)); IsText(q) && Digit(q[3]) == 0 && (!two ==> Digit(q[2]) == 0)
  {
    QuadDigits(Bits24(a, b, 0));
    Regroup(a as nat, b as nat, 0);
    hide Quad;
    hide Find;
  }

  /** Where padding stands, the digit would be a zero. */
  lemma PaddedFour(a: byte, b: byte, two: bool)
    requires two || b == 0
    ensures var v := Bits24(a, b, 0);
            var q := if two then Quad(v)[..3] + "=" else Quad(v)[..2] + "==";
            |q| == 4 && IsText(q) && ((Digit(q[0]) * 64 + Digit(q[1])) * 64 + Digit(q[2])) * 64 + Digit(q[3]) == v
  {
    var v := Bits24(a, b, 0);
    var full := Quad(v);
    QuadNumber(v);
    LastDigits(a, b, two);
    hide Quad;
    hide Find;
    hide Bits24;
    hide IsBase64;
    var q := if two then full[..3] + "=" else full[..2] + "==";
    assert q[0] == full[0] && q[1] == full[1];
    assert Digit(q[2]) == Digit(full[2]) && Digit(q[3]) == Digit(full[3]);
  }

  lemma SameShort(n: nat, s: seq<byte>)
    requires 0 < |s| <= 2
    ensures IsText(Encoded(s)) && Number64(n, Encoded(s)) == Number256(n, s)
  {
    var b: byte := if |s| == 2 then s[1] else 0;
    PaddedFour(s[0], b, |s| == 2);
    var text := Encoded(s);
    assert text + "" == text && IsText("");
    hide Quad;
    hide Digit;
    hide IsText;
    Number64Four(n, text, "");
    assert Number64(n * 0x100_0000 + Bits24(s[0], b, 0), "") == n * 0x100_0000 + Bits24(s[0], b, 0);
  }

  lemma ThreeBytes(n: nat, s: seq<byte>)
    requires |s| > 2
    ensures Number256(n, s) == Number256(n * 0x100_0000 + Bits24(s[0], s[1], s[2]), s[3..])
  {
    var m := ((n * 256 + s[0] as nat) * 256 + s[1] as nat) * 256 + s[2] as nat;
    assert Number256(n, s) == Number256(m, s[3..]);
    hide Number256;
  }

  lemma SameLong(n: nat, s: seq<byte>)
    requires |s| > 2
    requires var m := n * 0x100_0000 + Bits24(s[0], s[1], s[2]);
             IsText(Encoded(s[3..])) && Number64(m, Encoded(s[3..])) == Number256(m, s[3..])
    ensures IsText(Encoded(s)) && Number64(n, Encoded(s)) == Number256(n, s)
  {
    var v, rest := Bits24(s[0], s[1], s[2]), Encoded(s[3..]);
    var m := n * 0x100_0000 + v;
    assert Encoded(s) == Quad(v) + rest;
    hide *;
    ThreeBytes(n, s);
    QuadNumber(v);
    Number64Four(n, Quad(v), rest);
  }

  /** An encoding, padding included, is the same number in base 64 as the bytes are in base 256. */
  lemma {:induction false} SameNumber(n: nat, s: seq<byte>)
    ensures IsText(Encoded(s)) && Number64(n, Encoded(s)) == Number256(n, s)
    decreases |s|
  {
    if 0 < |s| <= 2 {
      SameShort(n, s);
    } else if |s| > 2 {
      SameNumber(n * 0x100_0000 + Bits24(s[0], s[1], s[2]), s[3..]);
      SameLong(n, s);
      hide *;
    }
  }

  // ---------------------------------------------------------------- the loops

  /** The characters of a run of six-bit digits. */
  function Chars(s: seq<byte>): (t: string)
    requires forall i :: 0 <= i < |s| ==> s[i] < 64
    ensures |t| == |s|
  {
    seq(|s|, i requires 0 <= i < |s| => Char(s[i] as nat))
  }

  lemma SextetChars(a: byte, b: byte, c: byte)
    ensures Chars([a / 4, a % 4 * 16 + b / 16, b % 16 * 4 + c / 64, c % 64]) == Quad(Bits24(a, b, c))
  {
    Regroup(a as nat, b as nat, c as nat);
    var s := [a / 4, a % 4 * 16 + b / 16, b % 16 * 4 + c / 64, c % 64];
    var v := Bits24(a, b, c);
    assert s[0] as nat == v / 0x4_0000;
    assert s[1] as nat == v / 0x1000 % 64;
    assert s[2] as nat == v / 64 % 64;
    assert s[3] as nat == v % 64;
  }

  /** The masks and shifts of the encoder, on bytes as numbers: `& 0xfc) >> 2` is a
      division by 4, `& 0x03) << 4` a remainder times 16, and so on. */
  method ToSextets(a3: array<byte>, a4: array<byte>)
    requires a3.Length == 3 && a4.Length == 4 && a3 != a4
    modifies a4
    ensures forall i :: 0 <= i < 4 ==> a4[i] < 64
    ensures Chars(a4[..]) == Quad(Bits24(a3[0], a3[1], a3[2]))
  {
    hide Chars;
    hide Quad;
    SextetChars(a3[0], a3[1], a3[2]);
    a4[0] := a3[0] / 4;
    a4[1] := a3[0] % 4 * 16 + a3[1] / 16;
    a4[2] := a3[1] % 16 * 4 + a3[2] / 64;
    a4[3] := a3[2] % 64;
    assert a4[..] == [a3[0] / 4, a3[0] % 4 * 16 + a3[1] / 16, a3[1] % 16 * 4 + a3[2] / 64, a3[2] % 64];
  }

  /** The loop that appends the first `k` characters of the work array. */
  method AppendChars(ret: string, a4: array<byte>, k: nat) returns (r: string)
    requires a4.Length == 4 && k <= 4 && forall i :: 0 <= i < 4 ==> a4[i] < 64
    ensures r == ret + Chars(a4[..])[..k]
  {
    r := ret;
    var i := 0;
    while i < k
      invariant 0 <= i <= k && r == ret + Chars(a4[..])[..i]
    {
      assert Chars(a4[..])[..i] + [Char(a4[i] as nat)] == Chars(a4[..])[..i + 1];
      r := r + [Char(a4[i] as nat)];
      i := i + 1;
    }
  }

  lemma {:induction false} EncodedAppend(a: seq<byte>, b: seq<byte>)
    requires |a| % 3 == 0
    ensures Encoded(a + b) == Encoded(a) + Encoded(b)
  {
    if a == [] {
      assert a + b == b;
    } else {
      assert (a + b)[3..] == a[3..] + b;
      EncodedAppend(a[3..], b);
    }
  }

  lemma WholeGroup(g: seq<byte>)
    requires |g| == 3
    ensures Encoded(g) == Quad(Bits24(g[0], g[1], g[2]))
  {
    assert Encoded(g[3..]) == "";
  }

  lemma GroupEncoded(bytes: seq<byte>, n: nat)
    requires 3 <= n <= |bytes| && n % 3 == 0
    ensures Encoded(bytes[..n]) == Encoded(bytes[..n - 3]) + Quad(Bits24(bytes[n - 3], bytes[n - 2], bytes[n - 1]))
  {
    hide Quad;
    var g := bytes[n - 3..n];
    WholeGroup(g);
    EncodedAppend(bytes[..n - 3], g);
    assert bytes[..n - 3] + g == bytes[..n];
  }

  /** The last one or two bytes: zero fill, two or three characters, then padding. */
  method EncodeTail(ret: string, a3: array<byte>, a4: array<byte>, left: nat) returns (r: string)
    requires a3.Length == 3 && a4.Length == 4 && a3 != a4 && 1 <= left <= 2
    modifies a3, a4
    ensures r == ret + Encoded(old(a3[..left]))
  {
    var i, j := left, left;
    while j < 3
      invariant left <= j <= 3 && a3[..left] == old(a3[..left])
      invariant forall x :: left <= x < j ==> a3[x] == 0
    {
      a3[j] := 0;
      j := j + 1;
    }
    ToSextets(a3, a4);
    hide Quad;
    hide Chars;
    r := AppendChars(ret, a4, i + 1);
    ghost var front := r;
    while i < 3
      invariant left <= i <= 3 && r == front + if i == left then "" else if i == left + 1 then "=" else "=="
    {
      r := r + "=";
      i := i + 1;
    }
    assert old(a3[..left])[0] == a3[0] && (left == 2 ==> old(a3[..left])[1] == a3[1]);
  }

  /** `encode_base64`; the work arrays start with arbitrary contents. */
  method Encode(bytes: seq<byte>) returns (ret: string)
    ensures ret == Encoded(bytes)
  {
    hide Quad;
    hide Chars;
    ret := "";
    var a3, a4 := new byte[3], new byte[4];
    var i, n := 0, 0;
    while n < |bytes|
      invariant 0 <= n <= |bytes| && 0 <= i < 3 && (n - i) % 3 == 0 && i <= n
      invariant a3[..i] == bytes[n - i..n]
      invariant ret == Encoded(bytes[..n - i])
      decreases |bytes| - n
    {
      ghost var kept := a3[..i];
      a3[i] := bytes[n];
      i, n := i + 1, n + 1;
      assert a3[..i] == kept + [bytes[n - 1]] == bytes[n - i..n];
      if i == 3 {
        assert a3[0] == a3[..i][0] && a3[1] == a3[..i][1] && a3[2] == a3[..i][2];
        ToSextets(a3, a4);
        ret := AppendChars(ret, a4, 4);
        assert Chars(a4[..])[..4] == Chars(a4[..]);
        GroupEncoded(bytes, n);
        i := 0;
      }
    }
    assert bytes[..n - i] + bytes[n - i..n] == bytes;
    EncodedAppend(bytes[..n - i], bytes[n - i..n]);
    if i > 0 {
      ret := EncodeTail(ret, a3, a4, i);
    } else {
      assert bytes[..n] == bytes;
    }
  }

  // ---------------------------------------------------------------- decoding

  /** The masks and shifts of the decoder; the first byte wraps as an unsigned char. */
  lemma DecodeFirst(x0: nat, x1: nat)
    requires x0 < 64 && x1 < 64
    ensures (x0 * 4 + x1 / 16 % 4) % 256 == (x0 * 64 + x1) / 16 % 256
  {
    Quotient(x0 * 64 + x1, x0 * 4 + x1 / 16, 16, x1 % 16);
  }

  lemma DecodeSecond(y: nat, x1: nat, x2: nat)
    requires x1 < 64 && x2 < 64 && y % 16 == x1 % 16
    ensures (x1 % 16 * 16 + x2 / 4 % 16) % 256 == (y * 64 + x2) / 4 % 256
  {
    Quotient(y * 64 + x2, y * 16 + x2 / 4, 4, x2 % 4);
    Quotient(y * 16 + x2 / 4, y / 16, 0x100, y % 16 * 16 + x2 / 4);
  }

  lemma DecodeThird(z: nat, x2: nat, x3: nat)
    requires x2 < 64 && x3 < 64 && z % 4 == x2 % 4
    ensures (x2 % 4 * 64 + x3) % 256 == (z * 64 + x3) % 256
  {
    Quotient(z * 64 + x3, z / 4, 0x100, z % 4 * 64 + x3);
  }

  lemma DecodeGroup(x0: nat, x1: nat, x2: nat, x3: nat)
    requires x0 < 64 && x1 < 64 && x2 < 64 && x3 < 64
    ensures (x0 * 4 + x1 / 16 % 4) % 256 == (x0 * 64 + x1) / 16 % 256
    ensures ((x1 % 16) * 16 + x2 / 4 % 16) % 256 == ((x0 * 64 + x1) * 64 + x2) / 4 % 256
    ensures ((x2 % 4) * 64 + x3) % 256 == (((x0 * 64 + x1) * 64 + x2) * 64 + x3) % 256
  {
    var y := x0 * 64 + x1;
    Quotient(y, x0 * 4 + x1 / 16, 16, x1 % 16);
    Quotient(y * 64 + x2, y * 16 + x2 / 4, 4, x2 % 4);
    DecodeFirst(x0, x1);
    DecodeSecond(y, x1, x2);
    DecodeThird(y * 64 + x2, x2, x3);
  }

  lemma DecodeQuotients(y: nat, z: nat, x2: nat, x3: nat)
    requires x2 < 64 && x3 < 64 && z == y * 64 + x2
    ensures z / 0x400 == y / 16
    ensures (z * 64 + x3) / 0x1_0000 == y / 16
    ensures (z * 64 + x3) / 0x100 == z / 4
  {
    Quotient(z, y / 16, 0x400, y % 16 * 64 + x2);
    Quotient(z * 64 + x3, y / 16, 0x1_0000, (y % 16 * 64 + x2) * 64 + x3);
    Quotient(z * 64 + x3, z / 4, 0x100, z % 4 * 64 + x3);
  }

  lemma {:induction false} DecodedAppend(a: string, b: string)
    requires |a| % 4 == 0
    requires (forall i :: 0 <= i < |a| ==> IsBase64(a[i])) && (forall i :: 0 <= i < |b| ==> IsBase64(b[i]))
    ensures Decoded(a + b) == Decoded(a) + Decoded(b)
  {
    if a == [] {
      assert a + b == b;
      NothingDecoded();
    } else {
      hide Group;
      assert (a + b)[..4] == a[..4] && (a + b)[4..] == a[4..] + b;
      DecodedAppend(a[4..], b);
    }
  }

  lemma OneGroup(g: string)
    requires |g| <= 4 && forall i :: 0 <= i < |g| ==> IsBase64(g[i])
    ensures Decoded(g) == Group(g)
  {
    if |g| == 4 { assert g[..4] == g && g[4..] == ""; }
  }

  lemma {:induction false} PrefixIsAlphabetic(s: string, n: nat)
    requires n <= |s| && (forall i :: 0 <= i < n ==> IsBase64(s[i])) && (n < |s| ==> !IsBase64(s[n]))
    ensures Alphabetic(s) == s[..n]
  {
    if n > 0 {
      PrefixIsAlphabetic(s[1..], n - 1);
      assert s[..n] == [s[0]] + s[1..][..n - 1];
    }
  }

  /** The codes of a run of alphabet characters, as stored in the work array. */
  ghost predicate Codes(a: seq<byte>, s: string) {
    |a| == |s| && forall i :: 0 <= i < |a| ==> IsBase64(s[i]) && a[i] as int == s[i] as int
  }

  /** The loop that replaces characters by their place in the alphabet. */
  method Look(a4: array<byte>, k: nat, ghost s: string)
    requires a4.Length == 4 && k <= 4 && Codes(a4[..k], s)
    modifies a4
    ensures forall i :: 0 <= i < k ==> a4[i] as nat == Find(s[i])
  {
    var j := 0;
    while j < k
      invariant 0 <= j <= k
      invariant forall i :: 0 <= i < j ==> a4[i] as nat == Find(s[i])
      invariant forall i :: j <= i < k ==> a4[i] as int == s[i] as int
    {
      a4[j] := Find(a4[j] as int as char) as byte;
      j := j + 1;
    }
  }

  function Join1(x0: byte, x1: byte): byte { ((x0 as int * 4 + x1 as int / 16 % 4) % 256) as byte }

  function Join2(x1: byte, x2: byte): byte { ((x1 as int % 16 * 16 + x2 as int / 4 % 16) % 256) as byte }

  function Join3(x2: byte, x3: byte): byte { ((x2 as int % 4 * 64 + x3 as int) % 256) as byte }

  lemma GroupDecoded(g: string, x: seq<byte>)
    requires 2 <= |g| <= 4 && |x| == 4 && forall i :: 0 <= i < |g| ==> IsBase64(g[i]) && x[i] as nat == Find(g[i])
    ensures Group(g) == [Join1(x[0], x[1]), Join2(x[1], x[2]), Join3(x[2], x[3])][..|g| - 1]
  {
    hide Find;
    var x2 := if |g| > 2 then Find(g[2]) else 0;
    var x3 := if |g| > 3 then Find(g[3]) else 0;
    DecodeGroup(Find(g[0]), Find(g[1]), x2, x3);
    var y := Find(g[0]) * 64 + Find(g[1]);
    DecodeQuotients(y, y * 64 + x2, x2, x3);
  }

  /** One more group decoded: `k` digits of it, the rest of the work array being stale. */
  method DecodeStep(ret: seq<byte>, a3: array<byte>, a4: array<byte>, k: nat, ghost g: string) returns (r: seq<byte>)
    requires a3.Length == 3 && a4.Length == 4 && a3 != a4 && 1 <= k <= 4 && Codes(a4[..k], g)
    modifies a3, a4
    ensures r == ret + Group(g)
  {
    Look(a4, k, g);
    hide Group;
    hide Find;
    hide Join1;
    hide Join2;
    hide Join3;
    a3[0], a3[1] := Join1(a4[0], a4[1]), Join2(a4[1], a4[2]);
    if k == 4 { a3[2] := Join3(a4[2], a4[3]); }
    if k > 1 { GroupDecoded(g, a4[..]); } else { LoneDigit(g); }
    r := AppendBytes(ret, a3, k - 1);
  }

  lemma NextCode(a: seq<byte>, s: string, from: nat, n: nat, b: byte)
    requires from <= n < |s| && Codes(a, s[from..n]) && IsBase64(s[n]) && b as int == s[n] as int
    ensures Codes(a + [b], s[from..n + 1])
  {
    assert s[from..n + 1] == s[from..n] + [s[n]];
  }

  /** `decode_base64`, on any text: the result never depends on what the work arrays held. */
  method Decode(s: string) returns (ret: seq<byte>)
    ensures ret == Decoded(Alphabetic(s))
  {
    hide Decoded;
    hide Group;
    hide Codes;
    ret := [];
    var a3, a4 := new byte[3], new byte[4];
    var i, n := 0, 0;
    Start(a4[..0], s);
    while n < |s| && s[n] != '=' && IsBase64(s[n])
      invariant 0 <= n <= |s| && 0 <= i < 4 && i <= n && (n - i) % 4 == 0
      invariant forall x :: 0 <= x < n ==> IsBase64(s[x])
      invariant Codes(a4[..i], s[n - i..n])
      invariant ret == Decoded(s[..n - i])
      decreases |s| - n
    {
      ghost var kept := a4[..i];
      NextCode(kept, s, n - i, n, s[n] as int as byte);
      a4[i] := s[n] as int as byte;
      i, n := i + 1, n + 1;
      assert a4[..i] == kept + [a4[i - 1]];
      if i == 4 {
        ghost var g := s[n - 4..n];
        ret := DecodeStep(ret, a3, a4, 4, g);
        OneGroup(g);
        DecodedAppend(s[..n - 4], g);
        assert s[..n - 4] + g == s[..n];
        i := 0;
        Start(a4[..0], s);
        assert s[n..n] == s[..0];
      }
    }
    ghost var g := s[n - i..n];
    OneGroup(g);
    DecodedAppend(s[..n - i], g);
    assert s[..n - i] + g == s[..n];
    PrefixIsAlphabetic(s, n);
    if i > 0 {
      ret := DecodeStep(ret, a3, a4, i, g);
    } else {
      NothingDecoded();
      assert g == "";
    }
  }

  lemma Start(a: seq<byte>, s: string)
    requires a == []
    ensures Codes(a, s[..0]) && Decoded(s[..0]) == []
  {}

  lemma LoneDigit(g: string)
    requires |g| == 1 && IsBase64(g[0])
    ensures Group(g) == []
  {}

  method AppendBytes(ret: seq<byte>, a3: array<byte>, k: nat) returns (r: seq<byte>)
    requires a3.Length == 3 && k <= 3
    ensures r == ret + a3[..k]
  {
    r := ret;
    var j := 0;
    while j < k
      invariant 0 <= j <= k && r == ret + a3[..j]
    {
      r := r + [a3[j]];
      j := j + 1;
    }
  }
}

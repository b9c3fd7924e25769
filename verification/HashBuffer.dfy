/** The streaming buffer and the padding of src/sha256.cpp, for any compression function:
    what is compressed is the padded concatenation of the updates, block by block. */
module HashBuffer {

  import opened Bytes

  /** A compression function applied to the first `n` 64-byte blocks of `data` in turn. */
  function Fold<H>(f: (H, seq<byte>) -> H, h: H, data: seq<byte>, n: nat): H
    requires n * 64 <= |data|
  {
    if n == 0 then h else f(Fold(f, h, data, n - 1), data[n * 64 - 64..n * 64])
  }

  /** `n` more blocks, found at the front of `more`, after the first `q` of `data`. */
  lemma {:induction false} FoldMore<H>(f: (H, seq<byte>) -> H, h: H, data: seq<byte>, q: nat, more: seq<byte>, n: nat)
    requires (q + n) * 64 <= |data| && n * 64 <= |more|
    requires data[q * 64..(q + n) * 64] == more[..n * 64]
    ensures Fold(f, h, data, q + n) == Fold(f, Fold(f, h, data, q), more, n)
  {
    if n > 0 {
      assert data[q * 64..(q + n - 1) * 64] == data[q * 64..(q + n) * 64][..(n - 1) * 64] == more[..(n - 1) * 64];
      FoldMore(f, h, data, q, more, n - 1);
      assert data[(q + n) * 64 - 64..(q + n) * 64] ==
             data[q * 64..(q + n) * 64][n * 64 - 64..] == more[n * 64 - 64..n * 64];
    }
  }

  lemma {:induction false} FoldPrefix<H>(f: (H, seq<byte>) -> H, h: H, a: seq<byte>, b: seq<byte>, n: nat)
    requires n * 64 <= |a| && n * 64 <= |b| && a[..n * 64] == b[..n * 64]
    ensures Fold(f, h, a, n) == Fold(f, h, b, n)
  {
    if n > 0 {
      assert a[..(n - 1) * 64] == a[..n * 64][..(n - 1) * 64] == b[..(n - 1) * 64];
      FoldPrefix(f, h, a, b, n - 1);
      assert a[n * 64 - 64..n * 64] == a[..n * 64][n * 64 - 64..] == b[n * 64 - 64..n * 64];
    }
  }

  // ---------------------------------------------------------------- padding

  function Zeros(n: nat): seq<byte> { seq(n, _ => 0 as byte) }

  /** A number as `n` big-endian bytes, reduced modulo 256 to the n. */
  function BigEndian(v: nat, n: nat): (s: seq<byte>)
    ensures |s| == n
  {
    if n == 0 then [] else BigEndian(v / 256, n - 1) + [(v % 256) as byte]
  }

  /** Section 5.1.1 of FIPS 180-4: a one bit, zero bits up to 56 bytes modulo 64, and the
      length in bits as 64 bits. */
  function FipsPadding(length: nat): seq<byte> {
    [0x80] + Zeros((119 - length % 64) % 64) + BigEndian(8 * length, 8)
  }

  /** The padding of `final`: only the low 32 bits of the length are written. */
  function CodePadding(length: nat): seq<byte> {
    var tail := length % 64;
    [0x80] + Zeros((if 55 < tail then 123 else 59) - tail) + BigEndian(8 * length % 0x1_0000_0000, 4)
  }

  function Padded(msg: seq<byte>): seq<byte> { msg + CodePadding(|msg|) }

  lemma PaddedBlocks(msg: seq<byte>)
    ensures |Padded(msg)| == |msg| / 64 * 64 + (if 55 < |msg| % 64 then 128 else 64) && |Padded(msg)| % 64 == 0
  {
    hide BigEndian;
    assert |CodePadding(|msg|)| == (if 55 < |msg| % 64 then 128 else 64) - |msg| % 64;
  }

  function Shift(v: nat, k: nat): nat { if k == 0 then v else Shift(v / 256, k - 1) }

  lemma {:induction false} BigEndianSplit(v: nat, n: nat, k: nat)
    ensures BigEndian(v, n + k) == BigEndian(Shift(v, k), n) + BigEndian(v, k)
  {
    if k > 0 {
      BigEndianSplit(v / 256, n, k - 1);
    } else {
      assert BigEndian(v, n) + [] == BigEndian(v, n);
    }
  }

  lemma {:induction false} BigEndianZero(n: nat)
    ensures BigEndian(0, n) == Zeros(n)
  {
    if n > 0 { BigEndianZero(n - 1); }
  }

  lemma BigEndianWord(v: nat)
    requires v < 0x1_0000_0000
    ensures BigEndian(v, 8) == Zeros(4) + BigEndian(v, 4)
  {
    hide BigEndian;
    BigEndianSplit(v, 4, 4);
    var w := v / 256 / 256;
    assert Shift(w / 256, 1) == Shift(w / 256 / 256, 0) == 0;
    assert Shift(v, 4) == Shift(v / 256, 3) == Shift(w, 2) == Shift(w / 256, 1);
    BigEndianZero(4);
  }

  /** The number that big-endian bytes denote. */
  function Number(s: seq<byte>): nat { if s == [] then 0 else 256 * Number(s[..|s| - 1]) + s[|s| - 1] as nat }

  function Power(n: nat): nat { if n == 0 then 1 else 256 * Power(n - 1) }

  lemma {:induction false} NumberOfBigEndian(v: nat, n: nat)
    requires v < Power(n)
    ensures Number(BigEndian(v, n)) == v
  {
    if n > 0 {
      NumberOfBigEndian(v / 256, n - 1);
      assert BigEndian(v, n)[..n - 1] == BigEndian(v / 256, n - 1);
    }
  }

  lemma {:induction false} LeadingZeros(k: nat, s: seq<byte>)
    ensures Number(Zeros(k) + s) == Number(s)
  {
    var z := Zeros(k) + s;
    if s == [] {
      if k > 0 {
        LeadingZeros(k - 1, []);
        assert z[..|z| - 1] == Zeros(k - 1) + [];
      }
    } else {
      LeadingZeros(k, s[..|s| - 1]);
      assert z[..|z| - 1] == Zeros(k) + s[..|s| - 1];
    }
  }

  /** Both paddings, cut before the last eight bytes. */
  lemma PaddingParts(length: nat)
    ensures var front: seq<byte> := [0x80] + Zeros((119 - length % 64) % 64);
            CodePadding(length) == front + (Zeros(4) + BigEndian(8 * length % 0x1_0000_0000, 4)) &&
            FipsPadding(length) == front + BigEndian(8 * length, 8)
  {
    hide BigEndian;
    var tail := length % 64;
    var k := (119 - tail) % 64;
    assert (if 55 < tail then 123 else 59) - tail == k + 4;
    assert Zeros(k + 4) == Zeros(k) + Zeros(4);
  }

  /** The standard's words on the padding: a whole number of blocks, as few as will do, a one bit
      after the message, zeros, and the length in bits as the last 64. */
  lemma FipsShape(length: nat)
    requires 8 * length < 0x1_0000_0000 * 0x1_0000_0000
    ensures var p := FipsPadding(length);
            (length + |p|) % 64 == 0 && 9 <= |p| <= 72 && p[0] == 128 &&
            (forall i :: 1 <= i < |p| - 8 ==> p[i] == 0) && Number(p[|p| - 8..]) == 8 * length
  {
    var p, last := FipsPadding(length), BigEndian(8 * length, 8);
    var k := BlockFill(length);
    assert p == [0x80] + Zeros(k) + last;
    hide BigEndian;
    hide FipsPadding;
    assert p[|p| - 8..] == last;
    PowerEight();
    hide Power;
    NumberOfBigEndian(8 * length, 8);
  }

  lemma BlockFill(length: nat) returns (k: nat)
    ensures k == (119 - length % 64) % 64 && k < 64 && (length + 9 + k) % 64 == 0
  {
    var q, r := length / 64, length % 64;
    k := if r <= 55 then 55 - r else 119 - r;
    assert length + 9 + k == 64 * (q + if r <= 55 then 1 else 2);
  }

  lemma PowerEight()
    ensures Power(4) == 0x1_0000_0000 && Power(8) == 0x1_0000_0000 * 0x1_0000_0000
  {
    assert Power(1) == 256 && Power(2) == 0x1_0000 && Power(3) == 0x100_0000;
    assert Power(5) == 256 * 0x1_0000_0000 && Power(6) == 0x1_0000 * 0x1_0000_0000 &&
           Power(7) == 0x100_0000 * 0x1_0000_0000;
  }

  /** The code pads as the standard does exactly below 2^29 bytes; from there on the
      length field loses its high bits. */
  lemma PaddingExact(length: nat)
    requires 8 * length < 0x1_0000_0000 * 0x1_0000_0000
    ensures CodePadding(length) == FipsPadding(length) <==> length < 0x2000_0000
  {
    hide CodePadding;
    hide FipsPadding;
    hide Zeros;
    hide BigEndian;
    PaddingParts(length);
    var front: seq<byte> := [0x80] + Zeros((119 - length % 64) % 64);
    assert CodePadding(length)[|front|..] == Zeros(4) + BigEndian(8 * length % 0x1_0000_0000, 4);
    assert FipsPadding(length)[|front|..] == BigEndian(8 * length, 8);
    if length < 0x2000_0000 {
      BigEndianWord(8 * length);
    } else {
      LengthLost(8 * length);
    }
  }

  lemma LengthLost(bits: nat)
    requires 0x1_0000_0000 <= bits < 0x1_0000_0000 * 0x1_0000_0000
    ensures Zeros(4) + BigEndian(bits % 0x1_0000_0000, 4) != BigEndian(bits, 8)
  {
    PowerEight();
    LeadingZeros(4, BigEndian(bits % 0x1_0000_0000, 4));
    NumberOfBigEndian(bits % 0x1_0000_0000, 4);
    NumberOfBigEndian(bits, 8);
  }

  // ---------------------------------------------------------------- the buffer

  class Hash<H> {
    const compress: (H, seq<byte>) -> H
    const start: H
    var h: H
    var mLen: nat
    var totLen: nat
    var block: array<byte>
    ghost var msg: seq<byte>    // everything received
    ghost var whole: nat        // blocks compressed

    /** All whole blocks of the message are compressed, the rest stands in the buffer. */
    ghost predicate Valid()
      reads this, block
    {
      block.Length == 128 && mLen < 64 && |msg| == whole * 64 + mLen &&
      block[..mLen] == msg[whole * 64..] && totLen == whole * 64 % 0x1_0000_0000 &&
      h == Fold(compress, start, msg, whole)
    }

    /** `init`. */
    constructor (compress: (H, seq<byte>) -> H, start: H)
      ensures Valid() && fresh(block) && msg == [] && this.compress == compress && this.start == start
    {
      this.compress, this.start := compress, start;
      h, mLen, totLen, msg, whole := start, 0, 0, [], 0;
      block := new byte[128];
    }

    /** `transform`: `n` blocks from the front of `data`. */
    method Transform(data: seq<byte>, n: nat)
      requires n * 64 <= |data|
      modifies this`h
      ensures h == Fold(compress, old(h), data, n)
    {
      var i := 0;
      while i < n
        invariant 0 <= i <= n && h == Fold(compress, old(h), data, i)
      {
        i := i + 1;
        h := compress(h, data[i * 64 - 64..i * 64]);
      }
    }

    /** `memcpy` into the buffer at `at`. */
    method Copy(at: nat, data: seq<byte>)
      requires at + |data| <= block.Length
      modifies block
      ensures block[..] == old(block[..at]) + data + old(block[at + |data|..])
    {
      var i := 0;
      while i < |data|
        invariant 0 <= i <= |data|
        invariant forall k :: 0 <= k < at ==> block[k] == old(block[k])
        invariant forall k :: at <= k < at + i ==> block[k] == data[k - at]
        invariant forall k :: at + i <= k < block.Length ==> block[k] == old(block[k])
      {
        block[at + i] := data[i];
        i := i + 1;
      }
    }

    /** The first branch of `update`: the sum of lengths, as a 32-bit number, stays below a
        block. When it wrapped around, bytes already buffered are lost. */
    method Keep(message: seq<byte>)
      requires Valid() && |message| < 0x1_0000_0000 && (mLen + |message|) % 0x1_0000_0000 < 64
      modifies this`mLen, this`msg, block
      ensures Valid()
      ensures old(mLen) + |message| < 0x1_0000_0000 ==> msg == old(msg) + message
      ensures old(mLen) + |message| >= 0x1_0000_0000 ==> msg == old(msg)[..|old(msg)| - (0x1_0000_0000 - |message|)]
    {
      hide Fold;
      ghost var before, t := msg, block[..mLen];
      Wraps(mLen + |message|);
      var tmpLen := 64 - mLen;
      var remLen := if |message| < tmpLen then |message| else tmpLen;
      Copy(mLen, message[..remLen]);
      assert block[..mLen + remLen] == t + message[..remLen];
      mLen := (mLen + |message|) % 0x1_0000_0000;
      msg := before[..whole * 64] + block[..mLen];
      assert old(mLen) + |message| < 0x1_0000_0000 ==> remLen == |message| && block[..mLen] == t + message;
      assert old(mLen) + |message| >= 0x1_0000_0000 ==> block[..mLen] == t[..mLen];
      FoldPrefix(compress, start, before, msg, whole);
    }

    /** `update`, on 32-bit counters. */
    method Update(message: seq<byte>)
      requires Valid() && |message| < 0x1_0000_0000
      modifies this`h, this`mLen, this`totLen, this`msg, this`whole, block
      ensures Valid() && msg == Taken(old(msg), message)
    {
      hide Fold;
      Remainder(|msg|, whole, mLen);
      Wraps(mLen + |message|);
      hide Hash.Valid;
      if (mLen + |message|) % 0x1_0000_0000 < 64 { Keep(message); } else { Consume(message); }
    }

    /** The second branch: fill the buffer, compress it and the whole blocks that follow,
        keep the rest. */
    method Consume(message: seq<byte>)
      requires Valid() && 64 <= mLen + |message| && |message| < 0x1_0000_0000
      modifies this`h, this`mLen, this`totLen, this`msg, this`whole, block
      ensures Valid() && msg == old(msg) + message
    {
      hide Fold;
      var remLen := 64 - mLen;
      Copy(mLen, message[..remLen]);
      var newLen := |message| - remLen;
      var blockNb := newLen / 64;
      var shifted := message[remLen..];
      ghost var q, first := whole, block[..];
      assert first[..64] == msg[q * 64..] + message[..remLen];
      Transform(block[..], 1);
      Transform(shifted, blockNb);
      Extend(compress, start, msg, q, message, remLen, first, blockNb);
      Counters(|msg|, mLen, q, |message|, totLen);
      Copy(0, shifted[blockNb * 64..]);
      totLen := (totLen + (blockNb + 1) * 64) % 0x1_0000_0000;
      mLen := newLen % 64;
      assert (msg + message)[(q + 1 + blockNb) * 64..] == shifted[blockNb * 64..];
      msg, whole := msg + message, q + 1 + blockNb;
    }

    /** `final`: one or two last blocks, with the 32-bit length at their end. */
    method Final() returns (digest: H)
      requires Valid()
      modifies this`h, block
      ensures digest == Fold(compress, start, Padded(msg), |Padded(msg)| / 64)
    {
      hide Fold;
      hide Padded;
      hide CodePadding;
      hide BigEndian;
      var blockNb := if 55 < mLen then 2 else 1;
      var lenB := (totLen + mLen) % 0x1_0000_0000 * 8 % 0x1_0000_0000;
      var pmLen := blockNb * 64;
      ghost var t := block[..mLen];
      Copy(mLen, Zeros(pmLen - mLen));
      block[mLen] := 0x80;
      assert block[..pmLen - 4] == t + [0x80] + Zeros(pmLen - 5 - mLen);
      Copy(pmLen - 4, BigEndian(lenB, 4));
      assert block[..pmLen] == t + [0x80] + Zeros(pmLen - 5 - mLen) + BigEndian(lenB, 4);
      LengthField(|msg|, whole, mLen, totLen);
      TailIsPadding(t, |msg|, whole, mLen);
      PaddedTail(msg, whole, mLen, block[..pmLen]);
      Transform(block[..], blockNb);
      LastBlocks(compress, start, msg, whole, block[..], blockNb);
      digest := h;
    }
  }

  lemma Wraps(sum: nat)
    requires sum < 0x1_0000_0000 + 64
    ensures sum % 0x1_0000_0000 == if sum < 0x1_0000_0000 then sum else sum - 0x1_0000_0000
  {}

  lemma TailIsPadding(t: seq<byte>, length: nat, whole: nat, mLen: nat)
    requires length == whole * 64 + mLen && mLen < 64
    ensures t + [0x80] + Zeros((if 55 < mLen then 2 else 1) * 64 - 5 - mLen) +
            BigEndian(8 * length % 0x1_0000_0000, 4) ==
            t + CodePadding(length)
  {
    hide BigEndian;
    assert length % 64 == mLen;
  }

  lemma LastBlocks<H>(f: (H, seq<byte>) -> H, h: H, msg: seq<byte>, whole: nat, tail: seq<byte>, n: nat)
    requires whole * 64 <= |msg| && |Padded(msg)| == whole * 64 + n * 64 && n * 64 <= |tail|
    requires Padded(msg)[..whole * 64] == msg[..whole * 64] && Padded(msg)[whole * 64..] == tail[..n * 64]
    ensures |Padded(msg)| / 64 == whole + n
    ensures Fold(f, Fold(f, h, msg, whole), tail, n) == Fold(f, h, Padded(msg), whole + n)
  {
    hide Fold;
    hide Padded;
    FoldPrefix(f, h, msg, Padded(msg), whole);
    assert Padded(msg)[whole * 64..(whole + n) * 64] == Padded(msg)[whole * 64..];
    FoldMore(f, h, Padded(msg), whole, tail, n);
  }

  lemma Counters(length: nat, mLen: nat, q: nat, len: nat, totLen: nat)
    requires length == q * 64 + mLen && mLen < 64 && 64 <= mLen + len && totLen == q * 64 % 0x1_0000_0000
    ensures var newLen := len - (64 - mLen);
            var nb := newLen / 64;
            length + len == (q + 1 + nb) * 64 + newLen % 64 &&
            (totLen + (nb + 1) * 64) % 0x1_0000_0000 == (q + 1 + nb) * 64 % 0x1_0000_0000
  {}

  lemma Extend<H>(f: (H, seq<byte>) -> H, h: H, msg: seq<byte>, q: nat, message: seq<byte>, remLen: nat,
                  first: seq<byte>, nb: nat)
    requires |msg| + remLen == q * 64 + 64 && remLen <= |message| && q * 64 <= |msg| && nb * 64 <= |message| - remLen
    requires |first| >= 64 && first[..64] == msg[q * 64..] + message[..remLen]
    ensures Fold(f, h, msg + message, q + 1 + nb) ==
            Fold(f, Fold(f, Fold(f, h, msg, q), first, 1), message[remLen..], nb)
  {
    hide Fold;
    var all, shifted := msg + message, message[remLen..];
    assert all[..q * 64] == msg[..q * 64];
    FoldPrefix(f, h, msg, all, q);
    assert (q + 1) * 64 == |msg| + remLen;
    SliceAcross(msg, message, q * 64, remLen);
    FoldMore(f, h, all, q, first, 1);
    SliceBehind(msg, message, remLen, nb * 64);
    FoldMore(f, h, all, q + 1, shifted, nb);
  }

  lemma Remainder(length: nat, q: nat, r: nat)
    requires length == q * 64 + r && r < 64
    ensures length % 64 == r
  {}

  lemma SliceAcross(a: seq<byte>, b: seq<byte>, lo: nat, r: nat)
    requires lo <= |a| && r <= |b|
    ensures (a + b)[lo..|a| + r] == a[lo..] + b[..r]
  {}

  lemma SliceBehind(a: seq<byte>, b: seq<byte>, r: nat, n: nat)
    requires r + n <= |b|
    ensures (a + b)[|a| + r..|a| + r + n] == b[r..][..n]
  {}

  lemma AddMultiple(x: nat, k: nat)
    ensures (x + 0x1_0000_0000 * k) % 0x1_0000_0000 == x % 0x1_0000_0000
  {}

  lemma LengthField(length: nat, whole: nat, mLen: nat, totLen: nat)
    requires length == whole * 64 + mLen && totLen == whole * 64 % 0x1_0000_0000
    ensures (totLen + mLen) % 0x1_0000_0000 * 8 % 0x1_0000_0000 == 8 * length % 0x1_0000_0000
  {
    var x, d := totLen + mLen, whole * 64 / 0x1_0000_0000;
    var r, e := x % 0x1_0000_0000, x / 0x1_0000_0000;
    assert 8 * length == 8 * r + 0x1_0000_0000 * (8 * d + 8 * e);
    AddMultiple(8 * r, 8 * d + 8 * e);
  }

  lemma PaddingLength(length: nat, whole: nat, mLen: nat)
    requires length == whole * 64 + mLen && mLen < 64
    ensures |CodePadding(length)| == (if 55 < mLen then 128 else 64) - mLen
  {
    hide BigEndian;
    assert length % 64 == mLen;
  }

  lemma PaddedTail(msg: seq<byte>, whole: nat, mLen: nat, tail: seq<byte>)
    requires |msg| == whole * 64 + mLen && mLen < 64
    requires tail == msg[whole * 64..] + CodePadding(|msg|)
    ensures |Padded(msg)| == whole * 64 + |tail| && |tail| == (if 55 < mLen then 128 else 64)
    ensures Padded(msg)[..whole * 64] == msg[..whole * 64] && Padded(msg)[whole * 64..] == tail
  {
    PaddingLength(|msg|, whole, mLen);
    hide CodePadding;
    assert msg == msg[..whole * 64] + msg[whole * 64..];
  }

  function Concat(chunks: seq<seq<byte>>): seq<byte> {
    if chunks == [] then [] else Concat(chunks[..|chunks| - 1]) + chunks[|chunks| - 1]
  }

  /** The sum of the bytes buffered and those that come does not fit 32 bits. */
  predicate Wrapping(msg: seq<byte>, chunk: seq<byte>) { |msg| % 64 + |chunk| >= 0x1_0000_0000 }

  /** What an update leaves of the message and the chunk: one that wraps loses bytes buffered. */
  function Taken(msg: seq<byte>, chunk: seq<byte>): (r: seq<byte>)
    requires |chunk| < 0x1_0000_0000
    ensures |r| <= |msg| + |chunk| && (|r| == |msg| + |chunk| <==> !Wrapping(msg, chunk))
    ensures !Wrapping(msg, chunk) ==> r == msg + chunk
  {
    if Wrapping(msg, chunk) then msg[..|msg| - (0x1_0000_0000 - |chunk|)] else msg + chunk
  }

  /** What all the updates leave. */
  function Heard(chunks: seq<seq<byte>>): (msg: seq<byte>)
    requires forall i :: 0 <= i < |chunks| ==> |chunks[i]| < 0x1_0000_0000
  {
    if chunks == [] then []
    else Taken(Heard(chunks[..|chunks| - 1]), chunks[|chunks| - 1])
  }

  predicate NoneWraps(chunks: seq<seq<byte>>) {
    forall i :: 0 <= i < |chunks| ==> !Wrapping(Concat(chunks[..i]), chunks[i])
  }

  /** Everything is heard if and only if no update wraps. */
  lemma {:induction false} HeardIff(chunks: seq<seq<byte>>)
    requires forall i :: 0 <= i < |chunks| ==> |chunks[i]| < 0x1_0000_0000
    ensures |Heard(chunks)| <= |Concat(chunks)|
    ensures Heard(chunks) == Concat(chunks) <==> NoneWraps(chunks)
  {
    hide Wrapping;
    hide Taken;
    if chunks != [] {
      var front, last := chunks[..|chunks| - 1], chunks[|chunks| - 1];
      HeardIff(front);
      NoneWrapsStep(chunks);
      if Heard(chunks) == Concat(chunks) {
        assert |Heard(front)| == |Concat(front)| && !Wrapping(Heard(front), last);
        assert Heard(front) == Heard(chunks)[..|Heard(front)|] == Concat(front);
      }
    }
  }

  lemma NoneWrapsStep(chunks: seq<seq<byte>>)
    requires chunks != []
    ensures var front, last := chunks[..|chunks| - 1], chunks[|chunks| - 1];
            NoneWraps(chunks) <==> NoneWraps(front) && !Wrapping(Concat(front), last)
  {
    hide Wrapping;
    hide Concat;
    var front := chunks[..|chunks| - 1];
    assert forall i :: 0 <= i < |front| ==> chunks[..i] == front[..i] && chunks[i] == front[i];
  }

  /** No chunk of up to 2^32 - 64 bytes ever wraps. */
  lemma ShortNeverWraps(chunks: seq<seq<byte>>)
    requires forall i :: 0 <= i < |chunks| ==> |chunks[i]| <= 0x1_0000_0000 - 64
    ensures NoneWraps(chunks)
  {}

  /** `init`, any sequence of updates, `final`: the digest depends on what was heard alone,
      so where nothing wraps it does not matter how the message was cut. */
  method HashOf<H>(compress: (H, seq<byte>) -> H, start: H, chunks: seq<seq<byte>>) returns (digest: H)
    requires forall i :: 0 <= i < |chunks| ==> |chunks[i]| < 0x1_0000_0000
    ensures var data := Padded(Heard(chunks)); digest == Fold(compress, start, data, |data| / 64)
    ensures NoneWraps(chunks) ==> Heard(chunks) == Concat(chunks)
  {
    HeardIff(chunks);
    hide Concat;
    hide NoneWraps;
    hide Padded;
    var ctx := new Hash<H>(compress, start);
    var i := 0;
    while i < |chunks|
      invariant 0 <= i <= |chunks|
      invariant ctx.Valid() && fresh(ctx) && fresh(ctx.block) && ctx.compress == compress && ctx.start == start
      invariant ctx.msg == Heard(chunks[..i])
    {
      ctx.Update(chunks[i]);
      assert chunks[..i + 1][..i] == chunks[..i];
      i := i + 1;
    }
    assert chunks[..i] == chunks;
    digest := ctx.Final();
  }

  // ---------------------------------------------------------------- the digest as text

  function HexDigit(d: nat): char
    requires d < 16
  {
    if d < 10 then '0' + d as char else 'a' + (d - 10) as char
  }

  function DigitValue(c: char): nat {
    if '0' <= c <= '9' then c as nat - '0' as nat else if 'a' <= c <= 'f' then 10 + c as nat - 'a' as nat else 0
  }

  /** A text of hexadecimal digits read as a number. */
  function HexNumber(s: string): nat {
    if s == "" then 0 else 16 * HexNumber(s[..|s| - 1]) + DigitValue(s[|s| - 1])
  }

  /** Each byte as two digits, as `%02x` prints it. */
  function HexOf(bytes: seq<byte>): (s: string)
    ensures |s| == 2 * |bytes|
  {
    if bytes == [] then "" else
      var b := bytes[|bytes| - 1] as nat;
      HexOf(bytes[..|bytes| - 1]) + [HexDigit(b / 16), HexDigit(b % 16)]
  }

  lemma HexTwo(s: string, b: nat)
    requires b < 256
    ensures HexNumber(s + [HexDigit(b / 16), HexDigit(b % 16)]) == 256 * HexNumber(s) + b
  {
    var t := s + [HexDigit(b / 16)];
    assert s + [HexDigit(b / 16), HexDigit(b % 16)] == t + [HexDigit(b % 16)];
    assert (t + [HexDigit(b % 16)])[..|t|] == t && t[..|s|] == s;
    DigitRead(b / 16);
    DigitRead(b % 16);
  }

  lemma DigitRead(d: nat)
    requires d < 16
    ensures DigitValue(HexDigit(d)) == d
  {}

  /** The digits are those of the alphabet below, and each denotes its place in it. */
  lemma HexDigitIs(d: nat)
    requires d < 16
    ensures HexDigit(d) == "0123456789abcdef"[d] && DigitValue("0123456789abcdef"[d]) == d
  {}

  /** A number written big-endian and printed in hexadecimal is that number. */
  lemma {:induction false} HexOfBigEndian(v: nat, n: nat)
    requires v < Power(n)
    ensures HexNumber(HexOf(BigEndian(v, n))) == v
  {
    if n > 0 {
      var front := BigEndian(v / 256, n - 1);
      assert BigEndian(v, n)[..n - 1] == front;
      HexOfBigEndian(v / 256, n - 1);
      HexTwo(HexOf(front), v % 256);
    }
  }

  lemma {:induction false} HexOfAppend(a: seq<byte>, b: seq<byte>)
    ensures HexOf(a + b) == HexOf(a) + HexOf(b)
    decreases |b|
  {
    if b == [] {
      assert a + b == a && HexOf(a) + "" == HexOf(a);
    } else {
      assert (a + b)[..|a + b| - 1] == a + b[..|b| - 1];
      HexOfAppend(a, b[..|b| - 1]);
    }
  }

  /** The loops of `final` and `sha256` over the eight words: each is written as four bytes,
      most significant first, and every byte printed as two digits; read back as a hexadecimal
      number, each eighth of the text is its word. */
  method DigestText(words: seq<nat>) returns (text: string)
    requires |words| == 8 && forall w :: w in words ==> w < 0x1_0000_0000
    ensures |text| == 64
    ensures forall i :: 0 <= i < 8 ==> HexNumber(text[8 * i..8 * i + 8]) == words[i]
  {
    hide BigEndian;
    hide HexNumber;
    var digest := new byte[32];
    var i := 0;
    while i < 8
      invariant 0 <= i <= 8
      invariant forall j :: 0 <= j < i ==> digest[4 * j..4 * j + 4] == BigEndian(words[j], 4)
    {
      Unpack(digest, 4 * i, words[i]);
      i := i + 1;
    }
    text := PrintBytes(digest);
    forall i | 0 <= i < 8 ensures HexNumber(text[8 * i..8 * i + 8]) == words[i] {
      EighthOf(digest[..], i);
      assert words[i] in words;
      PowerEight();
      HexOfBigEndian(words[i], 4);
    }
  }

  method PrintBytes(digest: array<byte>) returns (text: string)
    ensures text == HexOf(digest[..])
  {
    text := "";
    var i := 0;
    while i < digest.Length
      invariant 0 <= i <= digest.Length && text == HexOf(digest[..i])
    {
      HexNext(digest[..i], digest[i]);
      assert digest[..i + 1] == digest[..i] + [digest[i]];
      text := text + [HexDigit(digest[i] as nat / 16), HexDigit(digest[i] as nat % 16)];
      i := i + 1;
    }
    assert digest[..i] == digest[..];
  }

  lemma HexNext(bytes: seq<byte>, b: byte)
    ensures HexOf(bytes + [b]) == HexOf(bytes) + [HexDigit(b as nat / 16), HexDigit(b as nat % 16)]
  {
    assert (bytes + [b])[..|bytes|] == bytes;
  }

  lemma EighthOf(digest: seq<byte>, i: nat)
    requires |digest| == 32 && i < 8
    ensures HexOf(digest)[8 * i..8 * i + 8] == HexOf(digest[4 * i..4 * i + 4])
  {
    var a, b, c := digest[..4 * i], digest[4 * i..4 * i + 4], digest[4 * i + 4..];
    assert digest == a + b + c;
    HexOfAppend(a + b, c);
    HexOfAppend(a, b);
  }

  /** `SHA2_UNPACK32`. */
  method Unpack(digest: array<byte>, at: nat, word: nat)
    requires at + 4 <= digest.Length
    modifies digest
    ensures digest[..] == old(digest[..at]) + BigEndian(word, 4) + old(digest[at + 4..])
  {
    hide BigEndian;
    var bytes := BigEndian(word, 4);
    digest[at], digest[at + 1], digest[at + 2], digest[at + 3] := bytes[0], bytes[1], bytes[2], bytes[3];
  }

  /** Below 2^29 bytes the blocks compressed are those of the standard. */
  lemma StandardBlocks(msg: seq<byte>)
    requires |msg| < 0x2000_0000
    ensures Padded(msg) == msg + FipsPadding(|msg|) && |Padded(msg)| % 64 == 0
  {
    PaddingExact(|msg|);
    PaddedBlocks(msg);
    hide CodePadding;
    hide FipsPadding;
  }
}

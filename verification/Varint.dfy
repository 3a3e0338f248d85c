/** The length prefix of a frame: a base-128 varint, least significant group first
    (Protocol Buffers Encoding, section "Base 128 Varints"). */
module Varint {
  import opened Lines
  import opened Options

  // ---- the operators the code uses, on unbounded integers ----

  function BitAnd(a: nat, b: nat): nat {
    if a == 0 || b == 0 then 0 else 2 * BitAnd(a / 2, b / 2) + (if a % 2 == 1 && b % 2 == 1 then 1 else 0)
  }

  function BitOr(a: nat, b: nat): nat {
    if a == 0 then b else if b == 0 then a
    else 2 * BitOr(a / 2, b / 2) + (if a % 2 == 1 || b % 2 == 1 then 1 else 0)
  }

  function Pow2(k: nat): (p: nat)
    ensures p > 0
  {
    if k == 0 then 1 else 2 * Pow2(k - 1)
  }

  function ShiftLeft(a: nat, k: nat): nat { a * Pow2(k) }

  function ShiftRight7(a: nat): nat { a / 128 }

  /** The k low bits of a. */
  function Low(a: nat, k: nat): nat {
    if k == 0 then 0 else 2 * Low(a / 2, k - 1) + a % 2
  }

  lemma {:induction false} AndOnes(a: nat, k: nat)
    ensures BitAnd(a, Pow2(k) - 1) == Low(a, k)
    decreases k
  {
    if k > 0 {
      AndOnes(a / 2, k - 1);
      var p := Pow2(k - 1);
      assert (2 * p - 1) / 2 == p - 1 && (2 * p - 1) % 2 == 1;
    }
    if a == 0 { LowZero(k); }
  }

  lemma {:induction false} LowZero(k: nat)
    ensures Low(0, k) == 0
  {
    if k > 0 { LowZero(k - 1); }
  }

  lemma LowFour(a: nat)
    ensures Low(a, 4) == a % 16
  {
    hide Low;
    LowTwo(a);
    LowTwo(a / 4);
    Sixteen(a);
  }

  lemma Sixteen(a: nat)
    ensures a % 16 == 4 * (a / 4 % 4) + a % 4
  {}

  lemma LowTwo(a: nat)
    ensures Low(a, 2) == a % 4 && Low(a, 4) == 4 * Low(a / 4, 2) + a % 4
  {
    assert Low(a / 2, 1) == a / 2 % 2;
    assert Low(a / 2, 3) == 2 * Low(a / 2 / 2, 2) + a / 2 % 2;
    assert a / 2 / 2 == a / 4;
  }

  lemma LowSeven(a: nat)
    ensures Low(a, 7) == 8 * Low(a / 8, 4) + a % 8
  {
    assert Low(a / 2 / 2, 5) == 2 * Low(a / 2 / 2 / 2, 4) + a / 2 / 2 % 2;
    assert a / 2 / 2 / 2 == a / 8;
  }

  /** The mask 0x7F keeps the remainder by 128. */
  lemma AndLow(a: nat)
    ensures BitAnd(a, 0x7F) == a % 128
  {
    hide Low, BitAnd, Pow2;
    SevenBits();
    AndOnes(a, 7);
    LowSeven(a);
    LowFour(a / 8);
  }

  lemma SevenBits()
    ensures Pow2(7) == 128
  {}

  /** Or with a number shifted past all of a is addition. */
  lemma {:induction false} OrAdds(a: nat, b: nat, k: nat)
    requires a < Pow2(k)
    ensures BitOr(a, ShiftLeft(b, k)) == a + ShiftLeft(b, k)
    decreases k
  {
    if k > 0 {
      var c := ShiftLeft(b, k - 1);
      ShiftStep(b, k);
      OrEven(a, c);
      hide BitOr, ShiftLeft;
      OrAdds(a / 2, b, k - 1);
    }
  }

  lemma ShiftStep(b: nat, k: nat)
    requires k > 0
    ensures ShiftLeft(b, k) == 2 * ShiftLeft(b, k - 1)
  {
    var p := Pow2(k - 1);
    assert b * (2 * p) == 2 * (b * p);
  }

  lemma OrEven(a: nat, c: nat)
    ensures BitOr(a, 2 * c) == 2 * BitOr(a / 2, c) + a % 2
  {
    assert 2 * c / 2 == c && 2 * c % 2 == 0;
  }

  lemma SetBit(n: nat)
    ensures BitOr(BitAnd(n, 0x7F), 0x80) == n % 128 + 128
  {
    AndLow(n);
    assert Pow2(7) == 128;
    OrAdds(n % 128, 1, 7);
  }

  // ---- the encoding ----

  function Encode(n: nat): (s: seq<byte>)
    ensures s != []
  {
    if n < 128 then [n] else [n % 128 + 128] + Encode(n / 128)
  }

  /** The number that groups of seven bits stand for, least significant group first. */
  function Value(s: seq<byte>): nat {
    if s == [] then 0 else s[0] % 128 + 128 * Value(s[1..])
  }

  /** Every byte but the last has its continuation bit set. */
  ghost predicate IsVarint(s: seq<byte>) {
    s != [] && s[|s| - 1] < 128 && forall i | 0 <= i < |s| - 1 :: s[i] >= 128
  }

  lemma {:induction false} EncodeIsVarint(n: nat)
    ensures IsVarint(Encode(n)) && Value(Encode(n)) == n
    ensures n > 0 ==> Encode(n)[|Encode(n)| - 1] != 0
  {
    if n >= 128 {
      EncodeIsVarint(n / 128);
      assert Encode(n)[1..] == Encode(n / 128);
    } else {
      assert Encode(n)[1..] == [];
    }
  }

  /** No varint is the start of another, so a stream of frames splits in one way. */
  lemma PrefixFree(a: seq<byte>, b: seq<byte>)
    requires IsVarint(a) && IsVarint(b) && a <= b
    ensures a == b
  {}

  /** The encoding of n is the one varint of n that does not end in a zero group (but for 0 itself). */
  lemma {:induction false} Canonical(s: seq<byte>)
    requires IsVarint(s)
    ensures s == Encode(Value(s)) <==> |s| == 1 || s[|s| - 1] != 0
    ensures |Encode(Value(s))| <= |s|
    ensures Value(s) == 0 ==> s[|s| - 1] == 0
  {
    if |s| == 1 {
      assert s[1..] == [];
    } else {
      Canonical(s[1..]);
      var v := Value(s[1..]);
      EncodeMore(s[0], v);
      assert Value(s) == s[0] - 128 + 128 * v;
      assert s == [s[0]] + s[1..];
      hide Encode, Value;
    }
  }

  /** A group in front of the number v. */
  lemma EncodeMore(b: byte, v: nat)
    requires b >= 128
    ensures Encode(b - 128 + 128 * v) == if v == 0 then [b - 128] else [b] + Encode(v)
  {
    var n := b - 128 + 128 * v;
    assert n / 128 == v && n % 128 == b - 128;
  }

  function Pow128(k: nat): (p: nat)
    ensures p > 0
  {
    if k == 0 then 1 else 128 * Pow128(k - 1)
  }

  /** k bytes exactly for the numbers from 128^(k-1) to 128^k - 1, and one byte for 0. */
  lemma {:induction false} EncodeLength(n: nat, k: nat)
    requires k > 0
    ensures |Encode(n)| == k <==> (n < Pow128(k) && (k == 1 || Pow128(k - 1) <= n))
    decreases k
  {
    if k == 1 {
      assert Pow128(1) == 128;
    } else if n >= 128 {
      EncodeLength(n / 128, k - 1);
    } else {
      assert Pow128(k - 1) >= 128;
    }
  }

  // ---- the loops ----

  /** The head of a frame, as `send` builds it. */
  method WriteLength(length: nat) returns (head: seq<byte>)
    ensures head == Encode(length)
  {
    var n := length;
    head := [];
    while n > 0x7F
      invariant head + Encode(n) == Encode(length)
    {
      SetBit(n);
      var group := BitOr(BitAnd(n, 0x7F), 0x80);
      assert head + [group] + Encode(n / 128) == head + Encode(n);
      head, n := head + [group], ShiftRight7(n);
    }
    head := head + [n];
  }

  /** The bytes up to the first one without a continuation bit, if there is one. */
  function Terminated(s: seq<byte>): (k: Option<nat>)
    ensures k.Some? ==> 0 < k.value <= |s| && IsVarint(s[..k.value])
    ensures k.None? <==> forall i | 0 <= i < |s| :: s[i] >= 128
  {
    if s == [] then None
    else if s[0] < 128 then Some(1)
    else
      var k := Terminated(s[1..]);
      if k.None? then None
      else
        assert s[..k.value + 1] == [s[0]] + s[1..][..k.value];
        Some(k.value + 1)
  }

  lemma {:induction false} TerminatedAt(s: seq<byte>, k: nat)
    requires k <= |s| && IsVarint(s[..k])
    ensures Terminated(s) == Some(k)
  {}

  lemma {:induction false} ValueSnoc(s: seq<byte>, b: byte)
    ensures Value(s + [b]) == Value(s) + b % 128 * Pow2(7 * |s|) && Value(s) < Pow2(7 * |s|)
  {
    if s == [] {
      assert [b][1..] == [];
    } else {
      ValueSnoc(s[1..], b);
      assert (s + [b])[1..] == s[1..] + [b];
      var p := Pow2(7 * |s[1..]|);
      Pow2Seven(7 * |s[1..]|);
      assert Pow2(7 * |s|) == 128 * p;
      assert b % 128 * (128 * p) == 128 * (b % 128 * p);
    }
  }

  lemma Pow2Seven(k: nat)
    ensures Pow2(k + 7) == 128 * Pow2(k)
  {
    assert Pow2(k + 7) == 2 * Pow2(k + 6) == 4 * Pow2(k + 5) == 8 * Pow2(k + 4);
    assert Pow2(k + 4) == 2 * Pow2(k + 3) == 4 * Pow2(k + 2) == 8 * Pow2(k + 1);
  }

  /** The or-and-shift loop of `read`: the sum of the groups, or nothing if the stream ends first. */
  method ReadLength(stream: seq<byte>) returns (n: nat, used: nat, ok: bool)
    ensures ok <==> Terminated(stream).Some?
    ensures ok ==> Terminated(stream) == Some(used) && n == Value(stream[..used])
    ensures !ok ==> used == |stream|
  {
    var shift := 0;
    n, used := 0, 0;
    while true
      invariant 0 <= used <= |stream| && shift == 7 * used && n == Value(stream[..used])
      invariant forall i | 0 <= i < used :: stream[i] >= 128
      decreases |stream| - used
    {
      if used == |stream| { return n, used, false; }
      var b := stream[used];
      AndLow(b);
      ValueSnoc(stream[..used], b);
      assert stream[..used + 1] == stream[..used] + [b];
      OrAdds(n, b % 128, shift);
      n := BitOr(n, ShiftLeft(BitAnd(b, 0x7F), shift));
      shift := shift + 7;
      used := used + 1;
      if b < 0x80 {
        TerminatedAt(stream, used);
        return n, used, true;
      }
    }
  }
}

// Octets, the fixed-width integers SMPP puts on the wire in network byte order,
// and the three parser primitives every PDU body is read with.

module Bytes {

  type byte = x: int | 0 <= x < 0x100
  type u16 = x: int | 0 <= x < 0x1_0000
  type u32 = x: int | 0 <= x < 0x1_0000_0000

  /** The `as u16` and `as u32` casts: a length that does not fit loses its high bits. */
  function Low16(n: nat): u16 { n % 0x1_0000 }

  function Low32(n: nat): u32 { n % 0x1_0000_0000 }

  /** Truncating each summand first does not change the truncated sum. */
  lemma Low32Sum(a: nat, b: nat)
    ensures Low32(a + Low32(b)) == Low32(a + b)
    ensures Low32(Low32(a) + Low32(b)) == Low32(a + b)
  {
    Low32Shift(a, b);
    Low32Shift(Low32(b), a);
  }

  lemma Low32Shift(a: nat, b: nat)
    ensures Low32(a + Low32(b)) == Low32(a + b)
  {
    var q := b / 0x1_0000_0000;
    assert a + b == a + Low32(b) + q * 0x1_0000_0000;
  }

  function Be16(n: u16): (b: seq<byte>)
    ensures |b| == 2
  {
    [n / 0x100, n % 0x100]
  }

  function Be32(n: u32): (b: seq<byte>)
    ensures |b| == 4
  {
    [n / 0x100_0000, n / 0x1_0000 % 0x100, n / 0x100 % 0x100, n % 0x100]
  }

  function FromBe16(b0: byte, b1: byte): u16 { b0 * 0x100 + b1 }

  function FromBe32(b0: byte, b1: byte, b2: byte, b3: byte): u32 {
    b0 * 0x100_0000 + b1 * 0x1_0000 + b2 * 0x100 + b3
  }

  /** Reads a big-endian u32 at `offset`, or 0 when the slice runs off the end. */
  function U32At(bytes: seq<byte>, offset: nat): u32 {
    if offset + 4 <= |bytes| then
      FromBe32(bytes[offset], bytes[offset + 1], bytes[offset + 2], bytes[offset + 3])
    else 0
  }

  lemma Be16Inverse(n: u16)
    ensures FromBe16(Be16(n)[0], Be16(n)[1]) == n
  {}

  lemma FromBe16Inverse(b0: byte, b1: byte)
    ensures Be16(FromBe16(b0, b1)) == [b0, b1]
  {}

  lemma Be32Inverse(n: u32)
    ensures FromBe32(Be32(n)[0], Be32(n)[1], Be32(n)[2], Be32(n)[3]) == n
  {
    var hi, lo := n / 0x1_0000, n % 0x1_0000;
    assert hi == n / 0x100_0000 * 0x100 + n / 0x1_0000 % 0x100;
    assert lo == n / 0x100 % 0x100 * 0x100 + n % 0x100;
  }

  lemma FromBe32Inverse(b0: byte, b1: byte, b2: byte, b3: byte)
    ensures Be32(FromBe32(b0, b1, b2, b3)) == [b0, b1, b2, b3]
  {
    var n := FromBe32(b0, b1, b2, b3);
    assert n / 0x100 == b0 * 0x1_0000 + b1 * 0x100 + b2;
    assert n / 0x1_0000 == b0 * 0x100 + b1;
  }

  /** Writing `n` at the front of a buffer is what reading at that offset gives back. */
  lemma U32AtAfter(before: seq<byte>, n: u32, after: seq<byte>)
    ensures U32At(before + Be32(n) + after, |before|) == n
  {
    var b := before + Be32(n) + after;
    assert forall i | 0 <= i < 4 :: b[|before| + i] == Be32(n)[i];
    Be32Inverse(n);
  }

  lemma U32AtExtends(bytes: seq<byte>, more: seq<byte>, offset: nat)
    requires offset + 4 <= |bytes|
    ensures U32At(bytes + more, offset) == U32At(bytes, offset)
  {}

  // ---- parsers -------------------------------------------------------------

  /** What a parser returns: the value with the input it left unread, or a failure. */
  datatype Parsed<+T> = Fail | Done(value: T, rest: seq<byte>) {
    predicate IsFailure() { Fail? }
    function PropagateFailure<U>(): Parsed<U>
      requires Fail?
    {
      Fail
    }
    function Extract(): (T, seq<byte>)
      requires Done?
    {
      (value, rest)
    }
  }

  function ParseU8(input: seq<byte>): Parsed<byte> {
    if input == [] then Fail else Done(input[0], input[1..])
  }

  function ParseU16(input: seq<byte>): Parsed<u16> {
    if |input| < 2 then Fail else Done(FromBe16(input[0], input[1]), input[2..])
  }

  function ParseU32(input: seq<byte>): Parsed<u32> {
    if |input| < 4 then Fail else Done(U32At(input, 0), input[4..])
  }

  function Take(n: nat, input: seq<byte>): Parsed<seq<byte>> {
    if |input| < n then Fail else Done(input[..n], input[n..])
  }

  predicate NulFree(s: seq<byte>) { 0 !in s }

  /** A C-Octet-String on the wire: the octets and the terminating NUL. */
  function CString(s: seq<byte>): (b: seq<byte>)
    ensures |b| == |s| + 1
  {
    s + [0]
  }

  /** Takes everything up to the first NUL and drops the NUL; fails when there is none. */
  function ParseCString(input: seq<byte>): Parsed<seq<byte>> {
    if input == [] then Fail
    else if input[0] == 0 then Done([], input[1..])
    else
      var (s, rest) :- ParseCString(input[1..]);
      Done([input[0]] + s, rest)
  }

  // Each primitive is characterised the same way: it returns (v, rest) exactly
  // on the one input that prints v in front of rest.

  lemma ParseU8Iff(input: seq<byte>, n: byte, rest: seq<byte>)
    ensures ParseU8(input) == Done(n, rest) <==> input == [n] + rest
  {}

  lemma ParseU16Iff(input: seq<byte>, n: u16, rest: seq<byte>)
    ensures ParseU16(input) == Done(n, rest) <==> input == Be16(n) + rest
  {
    if |input| >= 2 {
      FromBe16Inverse(input[0], input[1]);
      assert input == [input[0], input[1]] + input[2..];
    }
    if input == Be16(n) + rest {
      Be16Inverse(n);
      assert input[2..] == rest;
    }
  }

  lemma ParseU32Iff(input: seq<byte>, n: u32, rest: seq<byte>)
    ensures ParseU32(input) == Done(n, rest) <==> input == Be32(n) + rest
  {
    hide Be32, FromBe32;
    if |input| >= 4 {
      FromBe32Inverse(input[0], input[1], input[2], input[3]);
      assert input == [input[0], input[1], input[2], input[3]] + input[4..];
    }
    if input == Be32(n) + rest {
      Be32Inverse(n);
      assert input[4..] == rest;
    }
  }

  lemma TakeIff(n: nat, input: seq<byte>, taken: seq<byte>, rest: seq<byte>)
    ensures Take(n, input) == Done(taken, rest) <==> |taken| == n && input == taken + rest
  {
    if |taken| == n && input == taken + rest {
      assert input[..n] == taken && input[n..] == rest;
    }
  }

  /** take_until NUL inverts the printing of exactly the strings that hold no NUL. */
  lemma {:induction false} ParseCStringIff(input: seq<byte>, s: seq<byte>, rest: seq<byte>)
    ensures ParseCString(input) == Done(s, rest) <==> NulFree(s) && input == CString(s) + rest
  {
    if input != [] {
      if s == [] {
        assert CString(s) + rest == [0] + rest;
      } else {
        ParseCStringIff(input[1..], s[1..], rest);
        assert s == [s[0]] + s[1..];
        assert CString(s) + rest == [s[0]] + (CString(s[1..]) + rest);
        assert input == [input[0]] + input[1..];
        var r := ParseCString(input[1..]);
        if r.Done? {
          assert ([input[0]] + r.value)[1..] == r.value;
        }
        if input == CString(s) + rest {
          assert input[0] == s[0];
          assert input[1..] == CString(s[1..]) + rest;
        }
      }
    }
  }

  /** It fails exactly where there is no terminator. */
  lemma {:induction false} TerminatedIff(input: seq<byte>)
    ensures ParseCString(input).Done? <==> 0 in input
  {
    if input != [] {
      TerminatedIff(input[1..]);
      assert input == [input[0]] + input[1..];
    }
  }

  lemma Assoc(a: seq<byte>, b: seq<byte>, c: seq<byte>)
    ensures (a + b) + c == a + (b + c)
  {}
}

/** UTF-8 encoding of text, which fixes the byte length of every string.

    Characters are Unicode scalar values, so every character has an encoding
    of one to four bytes. */
module Utf8 {

  type byte = n: int | 0 <= n < 256

  /** One character as one to four bytes; only ASCII characters give bytes below 0x80. */
  function EncodeChar(c: char): (bs: seq<byte>)
    ensures 1 <= |bs| <= 4
    ensures c as int < 0x80 <==> |bs| == 1
    ensures c as int < 0x80 ==> bs[0] == c as int
    ensures c as int >= 0x80 ==> forall i | 0 <= i < |bs| :: bs[i] >= 0x80
  {
    var n := c as int;
    if n < 0x80 then [n]
    else if n < 0x800 then [0xc0 + n / 0x40, 0x80 + n % 0x40]
    else if n < 0x1_0000 then [0xe0 + n / 0x1000, 0x80 + n / 0x40 % 0x40, 0x80 + n % 0x40]
    else [0xf0 + n / 0x4_0000, 0x80 + n / 0x1000 % 0x40, 0x80 + n / 0x40 % 0x40, 0x80 + n % 0x40]
  }

  /** The number a lead byte and its continuation bytes stand for, by section 3 of RFC 3629. */
  function Scalar(bs: seq<int>): int
    requires 1 <= |bs| <= 4
  {
    if |bs| == 1 then bs[0]
    else if |bs| == 2 then (bs[0] - 0xc0) * 0x40 + (bs[1] - 0x80)
    else if |bs| == 3 then (bs[0] - 0xe0) * 0x1000 + (bs[1] - 0x80) * 0x40 + (bs[2] - 0x80)
    else (bs[0] - 0xf0) * 0x4_0000 + (bs[1] - 0x80) * 0x1000 + (bs[2] - 0x80) * 0x40 + (bs[3] - 0x80)
  }

  lemma Sixes(n: nat)
    ensures n / 0x40 / 0x40 == n / 0x1000 && n / 0x1000 / 0x40 == n / 0x4_0000
    ensures n == n / 0x40 * 0x40 + n % 0x40
    ensures n / 0x40 == n / 0x1000 * 0x40 + n / 0x40 % 0x40
    ensures n / 0x1000 == n / 0x4_0000 * 0x40 + n / 0x1000 % 0x40
  {
    assert n / 0x40 / 0x40 == n / 0x1000;
    assert n / 0x1000 / 0x40 == n / 0x4_0000;
  }

  /** The bytes of a character stand for its number, in the shortest form, and only the first is no continuation. */
  lemma EncodesItsScalar(c: char)
    ensures var bs := EncodeChar(c);
            && Scalar(bs) == c as int
            && (|bs| > 1 ==> c as int >= if |bs| == 2 then 0x80 else if |bs| == 3 then 0x800 else 0x1_0000)
            && (forall i | 0 < i < |bs| :: 0x80 <= bs[i] < 0xc0) && !(0x80 <= bs[0] < 0xc0)
  {
    Sixes(c as int);
  }

  function Encode(s: string): (bs: seq<byte>) {
    if s == [] then [] else Encode(s[..|s| - 1]) + EncodeChar(s[|s| - 1])
  }

  /** Rust's `str::len`. */
  function Len(s: string): nat {
    |Encode(s)|
  }

  lemma EncodeStep(s: string, c: char)
    ensures Encode([]) == []
    ensures Encode(s + [c]) == Encode(s) + EncodeChar(c)
  {
    hide EncodeChar;
    assert (s + [c])[..|s|] == s;
  }

  lemma {:induction false} EncodeConcat(s: string, t: string)
    ensures Encode(s + t) == Encode(s) + Encode(t)
  {
    hide Encode, EncodeChar;
    EncodeStep(s, 'a');
    if t == [] {
      assert s + t == s;
    } else {
      var t', c := t[..|t| - 1], t[|t| - 1];
      EncodeConcat(s, t');
      EncodeStep(s + t', c);
      EncodeStep(t', c);
      assert s + t == (s + t') + [c] && t == t' + [c];
    }
  }
}

/** The UTF-8 validator of pico/src/credentials.c against section 3 of RFC 3629. */
module Utf8 {
  import opened Bytes

  /** A Unicode scalar value: no surrogate, nothing above U+10FFFF. */
  type Scalar = v: int | 0 <= v < 0xd800 || 0xe000 <= v <= 0x10ffff

  /** The one encoding RFC 3629 gives a scalar value. */
  function Encoding(v: Scalar): (s: seq<byte>)
    ensures 1 <= |s| <= 4
  {
    if v < 0x80 then [v]
    else if v < 0x800 then [0xc0 + v / 0x40, 0x80 + v % 0x40]
    else if v < 0x1_0000 then [0xe0 + v / 0x1000, 0x80 + v / 0x40 % 0x40, 0x80 + v % 0x40]
    else [0xf0 + v / 0x4_0000, 0x80 + v / 0x1000 % 0x40, 0x80 + v / 0x40 % 0x40, 0x80 + v % 0x40]
  }

  function EncodeAll(vs: seq<Scalar>): seq<byte> {
    if vs == [] then [] else Encoding(vs[0]) + EncodeAll(vs[1..])
  }

  /** A text is UTF-8 when it is a concatenation of encodings of scalar values. */
  ghost predicate IsUtf8(text: seq<byte>) {
    exists vs :: EncodeAll(vs) == text
  }

  predicate Continuation(b: byte) {
    0x80 <= b <= 0xbf
  }

  /** How many octets the validator's loop body steps over; zero when it rejects. */
  function Advance(s: seq<byte>): (n: nat)
    requires s != []
    ensures n <= |s|
  {
    var first := s[0];
    if first <= 0x7f then 1
    else if 0xc2 <= first <= 0xdf then
      if |s| >= 2 && Continuation(s[1]) then 2 else 0
    else if 0xe0 <= first <= 0xef then
      if |s| >= 3 && Continuation(s[2])
         && (|| (first == 0xe0 && 0xa0 <= s[1] <= 0xbf)
             || (first == 0xed && 0x80 <= s[1] <= 0x9f)
             || ((0xe1 <= first <= 0xec || 0xee <= first <= 0xef) && Continuation(s[1])))
      then 3 else 0
    else if 0xf0 <= first <= 0xf4 then
      if |s| >= 4 && Continuation(s[2]) && Continuation(s[3])
         && (|| (first == 0xf0 && 0x90 <= s[1] <= 0xbf)
             || (first == 0xf4 && 0x80 <= s[1] <= 0x8f)
             || (0xf1 <= first <= 0xf3 && Continuation(s[1])))
      then 4 else 0
    else 0
  }

  predicate Accepts(text: seq<byte>)
    decreases |text|
  {
    text == [] || (Advance(text) > 0 && Accepts(text[Advance(text)..]))
  }

  lemma Digits(v: int, a: nat, b: nat, c: nat, d: nat)
    requires b < 0x40 && c < 0x40 && d < 0x40 && v == a * 0x4_0000 + b * 0x1000 + c * 0x40 + d
    ensures v / 0x4_0000 == a && v / 0x1000 % 0x40 == b && v / 0x40 % 0x40 == c && v % 0x40 == d
    ensures v / 0x1000 == a * 0x40 + b && v / 0x40 == a * 0x1000 + b * 0x40 + c
  {
    LastDigit(v, a * 0x1000 + b * 0x40 + c, d);
    LastDigit(v / 0x40, a * 0x40 + b, c);
    LastDigit(v / 0x1000, a, b);
  }

  lemma LastDigit(v: int, high: nat, low: nat)
    requires low < 0x40 && v == high * 0x40 + low
    ensures v / 0x40 == high && v % 0x40 == low
    ensures v / 0x1000 == high / 0x40 && v / 0x4_0000 == high / 0x1000
  {
  }

  lemma ThreeOctets(s: seq<byte>) returns (v: Scalar)
    requires s != [] && Advance(s) == 3
    ensures Encoding(v) == s[..3]
  {
    var a: int, b: int, c: int := s[0] - 0xe0, s[1] - 0x80, s[2] - 0x80;
    v := a * 0x1000 + b * 0x40 + c;
    Digits(v, 0, a, b, c);
  }

  lemma FourOctets(s: seq<byte>) returns (v: Scalar)
    requires s != [] && Advance(s) == 4
    ensures Encoding(v) == s[..4]
  {
    var a: int, b: int, c: int, d: int := s[0] - 0xf0, s[1] - 0x80, s[2] - 0x80, s[3] - 0x80;
    v := a * 0x4_0000 + b * 0x1000 + c * 0x40 + d;
    Digits(v, a, b, c, d);
  }

  /** Whatever the loop body steps over is the encoding of a scalar value. */
  lemma ScalarAt(s: seq<byte>) returns (v: Scalar)
    requires s != [] && Advance(s) > 0
    ensures Encoding(v) == s[..Advance(s)]
  {
    if Advance(s) == 1 {
      v := s[0];
    } else if Advance(s) == 2 {
      var a: int, b: int := s[0] - 0xc0, s[1] - 0x80;
      v := a * 0x40 + b;
      LastDigit(v, a, b);
    } else if Advance(s) == 3 {
      v := ThreeOctets(s);
    } else {
      v := FourOctets(s);
    }
  }

  lemma EncodeFirst(v: Scalar, rest: seq<Scalar>)
    ensures EncodeAll([v] + rest) == Encoding(v) + EncodeAll(rest)
  {
    assert ([v] + rest)[1..] == rest;
  }

  lemma EncodingAdvances(v: Scalar, rest: seq<byte>)
    ensures Advance(Encoding(v) + rest) == |Encoding(v)|
  {
  }

  lemma {:induction false} AcceptedIsEncoded(text: seq<byte>) returns (vs: seq<Scalar>)
    requires Accepts(text)
    ensures EncodeAll(vs) == text
    decreases |text|
  {
    if text == [] {
      vs := [];
    } else {
      var n := Advance(text);
      var rest := AcceptedIsEncoded(text[n..]);
      var v := ScalarAt(text);
      EncodeFirst(v, rest);
      vs := [v] + rest;
      assert text == text[..n] + text[n..];
    }
  }

  lemma {:induction false} EncodedIsAccepted(vs: seq<Scalar>)
    ensures Accepts(EncodeAll(vs))
    decreases |vs|
  {
    if vs != [] {
      var head, tail := Encoding(vs[0]), EncodeAll(vs[1..]);
      EncodedIsAccepted(vs[1..]);
      EncodingAdvances(vs[0], tail);
      assert (head + tail)[|head|..] == tail;
    }
  }

  /** The validator accepts exactly UTF-8: no overlong form, no surrogate, nothing above U+10FFFF. */
  lemma AcceptsExactly(text: seq<byte>)
    ensures Accepts(text) <==> IsUtf8(text)
  {
    if Accepts(text) {
      var vs := AcceptedIsEncoded(text);
    }
    if IsUtf8(text) {
      var vs :| EncodeAll(vs) == text;
      EncodedIsAccepted(vs);
    }
  }

  /** `utf8_is_valid`. */
  method IsValid(text: seq<byte>) returns (valid: bool)
    ensures valid <==> IsUtf8(text)
  {
    AcceptsExactly(text);
    var index := 0;
    valid := true;
    while valid && index < |text|
      invariant 0 <= index <= |text|
      invariant Accepts(text) <==> valid && Accepts(text[index..])
      decreases |text| - index, valid
    {
      ghost var rest := text[index..];
      ghost var start := index;
      var first := text[index];
      if first <= 0x7f {
        index := index + 1;
      } else if 0xc2 <= first <= 0xdf {
        if index + 1 >= |text| || text[index + 1] < 0x80 || text[index + 1] > 0xbf {
          valid := false;
        } else {
          index := index + 2;
        }
      } else if 0xe0 <= first <= 0xef {
        if index + 2 >= |text| {
          valid := false;
        } else {
          var second, third := text[index + 1], text[index + 2];
          var secondValid :=
            || (first == 0xe0 && second >= 0xa0 && second <= 0xbf)
            || (first == 0xed && second >= 0x80 && second <= 0x9f)
            || (((first >= 0xe1 && first <= 0xec) || (first >= 0xee && first <= 0xef))
                && second >= 0x80 && second <= 0xbf);
          if !secondValid || third < 0x80 || third > 0xbf {
            valid := false;
          } else {
            index := index + 3;
          }
        }
      } else if 0xf0 <= first <= 0xf4 {
        if index + 3 >= |text| {
          valid := false;
        } else {
          var second := text[index + 1];
          var secondValid :=
            || (first == 0xf0 && second >= 0x90 && second <= 0xbf)
            || (first == 0xf4 && second >= 0x80 && second <= 0x8f)
            || (first >= 0xf1 && first <= 0xf3 && second >= 0x80 && second <= 0xbf);
          if !secondValid || text[index + 2] < 0x80 || text[index + 2] > 0xbf
             || text[index + 3] < 0x80 || text[index + 3] > 0xbf
          {
            valid := false;
          } else {
            index := index + 4;
          }
        }
      } else {
        valid := false;
      }
      assert valid ==> index - start == Advance(rest) && rest[index - start..] == text[index..];
      assert !valid ==> Advance(rest) == 0;
    }
  }
}

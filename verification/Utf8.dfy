/**
 UTF-8 as section 3 of RFC 3629 defines it, and decoding that ignores what it cannot
 decode.
 */
module Utf8 {
  import opened Basics

  /** How many bytes a character takes. */
  function Size(c: char): (n: nat)
    ensures 1 <= n <= 4
  {
    var v := c as int;
    if v < 0x80 then 1 else if v < 0x800 then 2 else if v < 0x1_0000 then 3 else 4
  }

  /** A continuation byte that carries six bits. */
  function Tail(bits: int): byte
    requires 0 <= bits < 0x40
  {
    (0x80 + bits) as byte
  }

  function EncodeChar(c: char): (s: Bytes)
    ensures |s| == Size(c)
  {
    var v := c as int;
    if v < 0x80 then [v as byte]
    else if v < 0x800 then [(0xC0 + v / 0x40) as byte, Tail(v % 0x40)]
    else if v < 0x1_0000 then [(0xE0 + v / 0x1000) as byte, Tail(v / 0x40 % 0x40), Tail(v % 0x40)]
    else [(0xF0 + v / 0x4_0000) as byte, Tail(v / 0x1000 % 0x40), Tail(v / 0x40 % 0x40), Tail(v % 0x40)]
  }

  function Encode(text: string): Bytes {
    if text == "" then [] else EncodeChar(text[0]) + Encode(text[1..])
  }

  predicate Continues(s: Bytes, i: nat) {
    i < |s| && 0x80 <= s[i] < 0xC0
  }

  function Bits(s: Bytes, i: nat): int
    requires Continues(s, i)
  {
    s[i] as int - 0x80
  }

  predicate Scalar(v: int) {
    0 <= v < 0xD800 || 0xE000 <= v < 0x11_0000
  }

  /** The character a sequence starts with, if it starts with a well-formed one: the shortest
      form of a scalar value. */
  function FirstChar(s: Bytes): (c: Option<char>)
    ensures c.Some? ==> Size(c.value) <= |s|
  {
    if s == [] then None
    else if s[0] < 0x80 then Some(s[0] as char)
    else if s[0] < 0xC0 then None
    else if s[0] < 0xE0 then
      if !Continues(s, 1) then None
      else
        var v := (s[0] as int - 0xC0) * 0x40 + Bits(s, 1);
        if 0x80 <= v then Some(v as char) else None
    else if s[0] < 0xF0 then
      if !Continues(s, 1) || !Continues(s, 2) then None
      else
        var v := (s[0] as int - 0xE0) * 0x1000 + Bits(s, 1) * 0x40 + Bits(s, 2);
        if 0x800 <= v && Scalar(v) then Some(v as char) else None
    else if !Continues(s, 1) || !Continues(s, 2) || !Continues(s, 3) then None
    else
      var v := (s[0] as int - 0xF0) * 0x4_0000 + Bits(s, 1) * 0x1000 + Bits(s, 2) * 0x40 + Bits(s, 3);
      if 0x1_0000 <= v && Scalar(v) then Some(v as char) else None
  }

  /** Decodes, skipping every byte that starts no well-formed character. */
  function DecodeIgnoring(s: Bytes): string
    decreases |s|
  {
    if s == [] then ""
    else
      match FirstChar(s)
      case Some(c) => [c] + DecodeIgnoring(s[Size(c)..])
      case None => DecodeIgnoring(s[1..])
  }

  /** Taking a value apart into groups of six bits and putting it together again. */
  lemma SixBits(v: int)
    requires 0 <= v
    ensures v == v / 0x40 * 0x40 + v % 0x40
    ensures v == v / 0x1000 * 0x1000 + v / 0x40 % 0x40 * 0x40 + v % 0x40
    ensures v == v / 0x4_0000 * 0x4_0000 + v / 0x1000 % 0x40 * 0x1000 + v / 0x40 % 0x40 * 0x40 + v % 0x40
  {
    assert v / 0x40 / 0x40 == v / 0x1000;
    assert v / 0x1000 / 0x40 == v / 0x4_0000;
  }

  lemma TwoByteChar(c: char, s: Bytes)
    requires 0x80 <= c as int < 0x800 && EncodeChar(c) <= s
    ensures FirstChar(s) == Some(c)
  {
    SixBits(c as int);
    assert s[0] == EncodeChar(c)[0] && s[1] == EncodeChar(c)[1];
    assert (s[0] as int - 0xC0) * 0x40 + Bits(s, 1) == c as int;
  }

  lemma ThreeByteChar(c: char, s: Bytes)
    requires 0x800 <= c as int < 0x1_0000 && EncodeChar(c) <= s
    ensures FirstChar(s) == Some(c)
  {
    SixBits(c as int);
    assert s[0] == EncodeChar(c)[0] && s[1] == EncodeChar(c)[1] && s[2] == EncodeChar(c)[2];
    assert (s[0] as int - 0xE0) * 0x1000 + Bits(s, 1) * 0x40 + Bits(s, 2) == c as int;
  }

  lemma FourByteChar(c: char, s: Bytes)
    requires 0x1_0000 <= c as int && EncodeChar(c) <= s
    ensures FirstChar(s) == Some(c)
  {
    SixBits(c as int);
    assert s[0] == EncodeChar(c)[0] && s[1] == EncodeChar(c)[1] && s[2] == EncodeChar(c)[2] && s[3] == EncodeChar(c)[3];
    assert (s[0] as int - 0xF0) * 0x4_0000 + Bits(s, 1) * 0x1000 + Bits(s, 2) * 0x40 + Bits(s, 3) == c as int;
  }

  lemma CharRoundTrips(c: char, rest: Bytes)
    ensures FirstChar(EncodeChar(c) + rest) == Some(c)
  {
    var s := EncodeChar(c) + rest;
    if c as int < 0x80 {
    } else if c as int < 0x800 {
      TwoByteChar(c, s);
    } else if c as int < 0x1_0000 {
      ThreeByteChar(c, s);
    } else {
      FourByteChar(c, s);
    }
  }

  /** Part of a character decodes to nothing. */
  lemma PartialCharVanishes(c: char, n: nat)
    requires n < Size(c)
    ensures DecodeIgnoring(EncodeChar(c)[..n]) == ""
  {
    var s := EncodeChar(c)[..n];
    if n > 0 {
      assert FirstChar(s).None?;
      TailsVanish(s[1..]);
    }
  }

  lemma {:induction false} TailsVanish(s: Bytes)
    requires forall i | 0 <= i < |s| :: 0x80 <= s[i] < 0xC0
    ensures DecodeIgnoring(s) == ""
  {
    if s == [] {
    } else {
      assert FirstChar(s).None?;
      TailsVanish(s[1..]);
    }
  }

  /** The longest whole-character prefix that fits in `n` bytes. */
  function Fit(text: string, n: nat): (prefix: string)
    ensures prefix <= text
  {
    if text == "" || Size(text[0]) > n then "" else [text[0]] + Fit(text[1..], n - Size(text[0]))
  }

  /** No longer prefix fits, and this one does. */
  lemma {:induction false} FitIsLongest(text: string, n: nat)
    ensures |Encode(Fit(text, n))| <= n
    ensures forall k | |Fit(text, n)| < k <= |text| :: |Encode(text[..k])| > n
  {
    if text != "" {
      if Size(text[0]) > n {
        forall k | 0 < k <= |text| ensures |Encode(text[..k])| > n {
          assert text[..k][0] == text[0];
        }
      } else {
        var rest := text[1..];
        FitIsLongest(rest, n - Size(text[0]));
        var fit := Fit(rest, n - Size(text[0]));
        assert ([text[0]] + fit)[1..] == fit;
        forall k | |Fit(text, n)| < k <= |text| ensures |Encode(text[..k])| > n {
          assert text[..k][1..] == rest[..k - 1];
        }
      }
    }
  }

  /** Cutting the bytes of a text and decoding what is left, errors ignored, gives its
      longest whole-character prefix that fits. */
  lemma {:induction false} CutDecodes(text: string, n: nat)
    requires n <= |Encode(text)|
    ensures DecodeIgnoring(Encode(text)[..n]) == Fit(text, n)
  {
    if text != "" {
      var c, rest := text[0], Encode(text[1..]);
      var s := Encode(text)[..n];
      if Size(c) <= n {
        assert s == EncodeChar(c) + rest[..n - Size(c)];
        CharRoundTrips(c, rest[..n - Size(c)]);
        assert s[Size(c)..] == rest[..n - Size(c)];
        CutDecodes(text[1..], n - Size(c));
      } else {
        assert s == EncodeChar(c)[..n];
        PartialCharVanishes(c, n);
      }
    }
  }

  lemma {:induction false} EncodeConcat(a: string, b: string)
    ensures Encode(a + b) == Encode(a) + Encode(b)
  {
    if a == "" {
      assert a + b == b;
    } else {
      var s := a + b;
      assert s[0] == a[0] && s[1..] == a[1..] + b;
      EncodeConcat(a[1..], b);
    }
  }

  lemma Rejoin(a: string, b: string)
    requires a != ""
    ensures [a[0]] + (a[1..] + b) == a + b
  {
  }

  /** The length of an encoding, character by character. */
  function Width(text: string): nat {
    if text == "" then 0 else Size(text[0]) + Width(text[1..])
  }

  lemma {:induction false} WidthIsLength(text: string)
    ensures |Encode(text)| == Width(text)
  {
    if text == "" {
    } else {
      WidthIsLength(text[1..]);
    }
  }

  lemma {:induction false} FitAcross(a: string, b: string, n: nat)
    requires Width(a) <= n
    ensures Fit(a + b, n) == a + Fit(b, n - Width(a))
  {
    if a == "" {
      assert a + b == b;
    } else {
      var s, rest := a + b, a[1..];
      assert s[0] == a[0] && s[1..] == rest + b;
      FitAcross(rest, b, n - Size(a[0]));
      Rejoin(a, Fit(b, n - Width(a)));
    }
  }

  /** A text that fits is followed by what fits in the room it leaves. */
  lemma FitConcat(a: string, b: string, n: nat)
    requires |Encode(a)| <= n
    ensures Fit(a + b, n) == a + Fit(b, n - |Encode(a)|)
  {
    WidthIsLength(a);
    FitAcross(a, b, n);
  }

  /** A text that does not fit stays cut whatever follows. */
  lemma {:induction false} FitStays(a: string, b: string, n: nat)
    requires |Encode(a)| > n
    ensures Fit(a + b, n) == Fit(a, n)
  {
    var s := a + b;
    if a != "" && Size(a[0]) <= n {
      assert s[0] == a[0] && s[1..] == a[1..] + b;
      FitStays(a[1..], b, n - Size(a[0]));
    } else if a != "" {
      assert s[0] == a[0];
    }
  }

  /** What fits whole is not cut. */
  lemma {:induction false} FitWhole(text: string, n: nat)
    ensures |Encode(text)| <= n <==> Fit(text, n) == text
  {
    if text != "" && Size(text[0]) <= n {
      FitWhole(text[1..], n - Size(text[0]));
      assert [text[0]] + text[1..] == text;
      assert Fit(text, n)[1..] == Fit(text[1..], n - Size(text[0]));
    }
  }
}

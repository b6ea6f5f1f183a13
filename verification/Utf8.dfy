/**
  UTF-8 as defined by RFC 3629: the encoder of its section 3, the byte-sequence table of its
  section 4, and a decoder that drops every byte which is not part of a well-formed sequence.
  A Dafny `char` is a Unicode scalar value, the domain of the encoding.
 */
module Utf8 {

  type Byte = b: int | 0 <= b < 0x100

  /** Number of bytes that encode `c`. */
  function Width(c: char): (n: nat)
    ensures 1 <= n <= 4
  {
    var v := c as int;
    if v < 0x80 then 1 else if v < 0x800 then 2 else if v < 0x1_0000 then 3 else 4
  }

  function EncodeChar(c: char): (bs: seq<Byte>)
    ensures |bs| == Width(c)
  {
    var v := c as int;
    if v < 0x80 then [v]
    else if v < 0x800 then [0xC0 + v / 0x40, 0x80 + v % 0x40]
    else if v < 0x1_0000 then [0xE0 + v / 0x1000, 0x80 + v / 0x40 % 0x40, 0x80 + v % 0x40]
    else [0xF0 + v / 0x4_0000, 0x80 + v / 0x1000 % 0x40, 0x80 + v / 0x40 % 0x40, 0x80 + v % 0x40]
  }

  function Encode(s: string): seq<Byte> {
    if s == "" then [] else EncodeChar(s[0]) + Encode(s[1..])
  }

  /** Length of the UTF-8 encoding of `s`. */
  function Bytes(s: string): (n: nat)
    ensures n == |Encode(s)|
  {
    if s == "" then 0 else Width(s[0]) + Bytes(s[1..])
  }

  predicate Tail(b: Byte) {
    0x80 <= b < 0xC0
  }

  /** Length of the well-formed sequence at the head of `bs`, or 0 when there is none. */
  function SequenceLength(bs: seq<Byte>): (n: nat)
    ensures n <= |bs| && n <= 4
  {
    if |bs| == 0 then 0
    else if bs[0] < 0x80 then 1
    else if |bs| >= 2 && 0xC2 <= bs[0] <= 0xDF && Tail(bs[1]) then 2
    else if |bs| >= 3 && 0xE0 <= bs[0] <= 0xEF && Tail(bs[1]) && Tail(bs[2])
            && (bs[0] == 0xE0 ==> bs[1] >= 0xA0) && (bs[0] == 0xED ==> bs[1] < 0xA0) then 3
    else if |bs| >= 4 && 0xF0 <= bs[0] <= 0xF4 && Tail(bs[1]) && Tail(bs[2]) && Tail(bs[3])
            && (bs[0] == 0xF0 ==> bs[1] >= 0x90) && (bs[0] == 0xF4 ==> bs[1] < 0x90) then 4
    else 0
  }

  /** The character encoded by the well-formed sequence at the head of `bs`. */
  function DecodeHead(bs: seq<Byte>): char
    requires SequenceLength(bs) > 0
  {
    var n := SequenceLength(bs);
    var v: int := bs[0];
    if n == 1 then v as char
    else if n == 2 then Join(v - 0xC0, bs[1]) as char
    else if n == 3 then Join(Join(v - 0xE0, bs[1]), bs[2]) as char
    else Join(Join(Join(v - 0xF0, bs[1]), bs[2]), bs[3]) as char
  }

  /** Appends the six payload bits of a tail byte to the bits read so far. */
  function Join(high: int, tail: int): int {
    high * 0x40 + (tail - 0x80)
  }

  /**
    Decoding with errors ignored. An ill-formed lead byte and the tail bytes after it are skipped one
    by one, which drops the same bytes as skipping them together: a tail byte never starts a sequence.
   */
  function DecodeIgnore(bs: seq<Byte>): string {
    if bs == [] then ""
    else
      var n := SequenceLength(bs);
      if n == 0 then DecodeIgnore(bs[1..]) else [DecodeHead(bs)] + DecodeIgnore(bs[n..])
  }

  /** The encoder's output for one character is recognised and read back, whatever follows. */
  lemma HeadRoundTrip(c: char, rest: seq<Byte>)
    ensures SequenceLength(EncodeChar(c) + rest) == Width(c)
    ensures DecodeHead(EncodeChar(c) + rest) == c
  {
    var v := c as int;
    var e := EncodeChar(c);
    var bs := e + rest;
    assert forall i :: 0 <= i < |e| ==> bs[i] == e[i];
    if v < 0x80 {
    } else if v < 0x800 {
      DigitsOf(v);
    } else if v < 0x1_0000 {
      DigitsOf(v);
      DigitsOf(v / 0x40);
      assert v / 0x1000 == v / 0x40 / 0x40;
    } else {
      DigitsOf(v);
      DigitsOf(v / 0x40);
      DigitsOf(v / 0x1000);
      assert v / 0x1000 == v / 0x40 / 0x40;
      assert v / 0x4_0000 == v / 0x1000 / 0x40;
    }
  }

  lemma DigitsOf(v: nat)
    ensures v == v / 0x40 * 0x40 + v % 0x40 && 0 <= v % 0x40 < 0x40
  {
  }

  lemma {:induction false} EncodeSplits(s: string, t: string)
    ensures Encode(s + t) == Encode(s) + Encode(t)
    ensures Bytes(s + t) == Bytes(s) + Bytes(t)
  {
    hide EncodeChar, Width;
    if s == "" {
      assert s + t == t;
    } else {
      assert (s + t)[1..] == s[1..] + t;
      EncodeSplits(s[1..], t);
    }
  }

  /** Tail bytes on their own decode to nothing. */
  lemma {:induction false} TailsAreDropped(bs: seq<Byte>)
    requires forall i :: 0 <= i < |bs| ==> Tail(bs[i])
    ensures DecodeIgnore(bs) == ""
  {
    if bs != [] {
      TailsAreDropped(bs[1..]);
    }
  }

  /** A character cut short decodes to nothing. */
  lemma CutCharIsDropped(c: char, k: nat)
    requires k < Width(c)
    ensures DecodeIgnore(EncodeChar(c)[..k]) == ""
  {
    var bs := EncodeChar(c)[..k];
    if k > 0 {
      assert SequenceLength(bs) == 0;
      TailsAreDropped(bs[1..]);
    }
  }

  /** The longest prefix of `s` whose encoding fits in `k` bytes, taken character by character. */
  function Fit(s: string, k: nat): string {
    if s == "" || Width(s[0]) > k then "" else [s[0]] + Fit(s[1..], k - Width(s[0]))
  }

  /** `Fit` is a prefix that fits; it is all of `s` when `s` fits, else at most 3 bytes stay unused. */
  lemma {:induction false} FitIsPrefix(s: string, k: nat)
    ensures Fit(s, k) <= s
    ensures Bytes(Fit(s, k)) <= k
    ensures Fit(s, k) != s ==> k < Bytes(Fit(s, k)) + 4
    ensures Bytes(s) <= k <==> Fit(s, k) == s
  {
    hide Encode, EncodeChar, Width;
    if s != "" && Width(s[0]) <= k {
      FitIsPrefix(s[1..], k - Width(s[0]));
      assert Fit(s, k)[1..] == Fit(s[1..], k - Width(s[0]));
      assert s == [s[0]] + s[1..];
    }
  }

  /** No prefix that fits is longer than `Fit`. */
  lemma {:induction false} FitIsLongest(s: string, q: string, k: nat)
    requires q <= s && Bytes(q) <= k
    ensures q <= Fit(s, k)
  {
    hide Encode, EncodeChar, Width;
    if q != "" {
      assert q[0] == s[0] && q[1..] <= s[1..];
      FitIsLongest(s[1..], q[1..], k - Width(s[0]));
      assert q == [q[0]] + q[1..];
    }
  }

  /** Cutting an encoding anywhere and decoding with errors ignored keeps exactly the whole characters. */
  lemma {:induction false} CutDecodesToFit(s: string, k: nat)
    requires k <= Bytes(s)
    ensures DecodeIgnore(Encode(s)[..k]) == Fit(s, k)
  {
    hide EncodeChar, Width, SequenceLength, DecodeHead;
    if s != "" {
      var w := Width(s[0]);
      if w <= k {
        var rest := Encode(s[1..])[..k - w];
        assert Encode(s)[..k] == EncodeChar(s[0]) + rest;
        HeadRoundTrip(s[0], rest);
        assert (EncodeChar(s[0]) + rest)[w..] == rest;
        CutDecodesToFit(s[1..], k - w);
      } else {
        assert Encode(s)[..k] == EncodeChar(s[0])[..k];
        CutCharIsDropped(s[0], k);
      }
    }
  }

  /**
    Independently of `Fit`: the decoded cut is a prefix of the text, loses at most 3 of the kept bytes,
    and is at least as long as every prefix whose encoding fits in the kept bytes.
   */
  lemma CutKeepsLongestPrefix(s: string, k: nat)
    requires k <= Bytes(s)
    ensures var p := DecodeIgnore(Encode(s)[..k]);
            && p <= s
            && Bytes(p) <= k <= Bytes(p) + 3
            && forall q :: q <= s && Bytes(q) <= k ==> q <= p
  {
    hide *;
    CutDecodesToFit(s, k);
    FitIsPrefix(s, k);
    forall q | q <= s && Bytes(q) <= k
      ensures q <= Fit(s, k)
    {
      FitIsLongest(s, q, k);
    }
  }

  /** Decoding undoes encoding. */
  lemma DecodeUndoesEncode(s: string)
    ensures DecodeIgnore(Encode(s)) == s
  {
    hide DecodeIgnore, Fit, Encode;
    CutDecodesToFit(s, Bytes(s));
    FitIsPrefix(s, Bytes(s));
    assert Encode(s)[..Bytes(s)] == Encode(s);
  }

  lemma FitHead(c: char, rest: string, k: nat)
    ensures Fit([c] + rest, k) == if Width(c) > k then "" else [c] + Fit(rest, k - Width(c))
    ensures Bytes([c] + rest) == Width(c) + Bytes(rest)
  {
    hide EncodeChar, Width;
    assert ([c] + rest)[1..] == rest;
  }

  /** Text that already fits is kept whole in front of whatever part of the next text still fits. */
  lemma {:induction false} FitSplits(s: string, t: string, k: nat)
    requires Bytes(s) <= k
    ensures Fit(s + t, k) == s + Fit(t, k - Bytes(s))
  {
    hide Fit, Bytes, Width;
    if s == "" {
      NoBytes();
      assert s + t == t && "" + Fit(t, k) == Fit(t, k);
    } else {
      var (c, rest) := (s[0], s[1..]);
      assert s == [c] + rest && s + t == [c] + (rest + t);
      FitHead(c, rest, k);
      FitHead(c, rest + t, k);
      FitSplits(rest, t, k - Width(c));
      assert [c] + (rest + Fit(t, k - Bytes(s))) == s + Fit(t, k - Bytes(s));
    }
  }

  lemma NoBytes()
    ensures Bytes("") == 0
  {
  }

  /** Text that overflows `k` bytes hides everything after it. */
  lemma {:induction false} FitIgnoresRest(s: string, t: string, k: nat)
    requires Bytes(s) > k
    ensures Fit(s + t, k) == Fit(s, k)
  {
    hide Encode, EncodeChar, Width;
    assert (s + t)[1..] == s[1..] + t;
    if Width(s[0]) <= k {
      FitIgnoresRest(s[1..], t, k - Width(s[0]));
    }
  }

  lemma {:induction false} CharsFitInBytes(s: string)
    ensures |s| <= Bytes(s)
  {
    if s != "" {
      CharsFitInBytes(s[1..]);
    }
  }
}

/**
 UTF-8 as section 3 of RFC 3629 writes it and as the decoder of the WHATWG Encoding Standard reads it,
 one byte at a time. A string is a sequence of Unicode scalar values.
 */
module Utf8 {
  newtype byte = b: int | 0 <= b < 256

  const REPLACEMENT: char := '\U{FFFD}'

  function EncodeChar(c: char): (bs: seq<byte>)
    ensures 1 <= |bs| <= 4
  {
    var n := c as int;
    if n < 0x80 then [n as byte]
    else if n < 0x800 then [(0xC0 + n / 64) as byte, (0x80 + n % 64) as byte]
    else if n < 0x1_0000 then [(0xE0 + n / 4096) as byte, (0x80 + n / 64 % 64) as byte, (0x80 + n % 64) as byte]
    else [(0xF0 + n / 262144) as byte, (0x80 + n / 4096 % 64) as byte, (0x80 + n / 64 % 64) as byte, (0x80 + n % 64) as byte]
  }

  function Encode(s: string): seq<byte> {
    if s == "" then [] else EncodeChar(s[0]) + Encode(s[1..])
  }

  /** The examples of section 7 of RFC 3629, and one of each length. */
  lemma EncodedExamples()
    ensures EncodeChar('A') == [0x41] && EncodeChar('\U{00E9}') == [0xC3, 0xA9]
    ensures EncodeChar('\U{2262}') == [0xE2, 0x89, 0xA2] && EncodeChar('\U{0391}') == [0xCE, 0x91]
    ensures EncodeChar('\U{65E5}') == [0xE6, 0x97, 0xA5] && EncodeChar('\U{233B4}') == [0xF0, 0xA3, 0x8E, 0xB4]
  {
  }

  /** `needed` continuation bytes are missing; the next one must lie in lower..upper. */
  datatype Decoder = Decoder(needed: nat, point: nat, lower: int, upper: int)

  const READY := Decoder(0, 0, 0x80, 0xBF)

  /** A decoder's answer to some bytes: its new state, the text, and whether any of it was malformed. */
  datatype Decoded = Decoded(next: Decoder, text: string, malformed: bool) {
    function Then(more: Decoded): Decoded {
      Decoded(more.next, text + more.text, malformed || more.malformed)
    }
  }

  lemma ThenAssociates(x: Decoded, y: Decoded, z: Decoded)
    ensures x.Then(y).Then(z) == x.Then(y.Then(z))
  {
    assert (x.text + y.text) + z.text == x.text + (y.text + z.text);
  }

  function Scalar(n: nat): char {
    if n < 0xD800 || 0xE000 <= n < 0x11_0000 then n as char else REPLACEMENT
  }

  function Lead(b: byte): Decoded {
    var n := b as int;
    if n < 0x80 then Decoded(READY, [n as char], false)
    else if 0xC2 <= n <= 0xDF then Decoded(Decoder(1, n - 0xC0, 0x80, 0xBF), "", false)
    else if 0xE0 <= n <= 0xEF then
      Decoded(Decoder(2, n - 0xE0, if n == 0xE0 then 0xA0 else 0x80, if n == 0xED then 0x9F else 0xBF), "", false)
    else if 0xF0 <= n <= 0xF4 then
      Decoded(Decoder(3, n - 0xF0, if n == 0xF0 then 0x90 else 0x80, if n == 0xF4 then 0x8F else 0xBF), "", false)
    else Decoded(READY, [REPLACEMENT], true)
  }

  function Step(d: Decoder, b: byte): Decoded {
    var n := b as int;
    if d.needed == 0 then Lead(b)
    else if !(d.lower <= n <= d.upper) || n < 0x80 then
      var again := Lead(b);
      Decoded(again.next, [REPLACEMENT] + again.text, true)
    else
      var point := d.point * 64 + (n - 0x80);
      if d.needed == 1 then Decoded(READY, [Scalar(point)], false)
      else Decoded(Decoder(d.needed - 1, point, 0x80, 0xBF), "", false)
  }

  function Decode(d: Decoder, bs: seq<byte>): Decoded
    decreases |bs|
  {
    if bs == [] then Decoded(d, "", false)
    else
      var first := Step(d, bs[0]);
      first.Then(Decode(first.next, bs[1..]))
  }

  /** Decoding a stream chunk by chunk is decoding it whole. */
  lemma {:induction false} DecodeAppend(d: Decoder, a: seq<byte>, b: seq<byte>)
    ensures Decode(d, a + b) == Decode(d, a).Then(Decode(Decode(d, a).next, b))
    decreases |a|
  {
    if a == [] {
      assert a + b == b;
    } else {
      var first := Step(d, a[0]);
      var rest := Decode(first.next, a[1..]);
      DecodeAppend(first.next, a[1..], b);
      assert (a + b)[1..] == a[1..] + b;
      ThenAssociates(first, rest, Decode(rest.next, b));
    }
  }

  lemma ConcatAssociates<T>(a: seq<T>, b: seq<T>, c: seq<T>)
    ensures (a + b) + c == a + (b + c)
  {
  }

  lemma {:induction false} EncodeAppend(s: string, t: string)
    ensures Encode(s + t) == Encode(s) + Encode(t)
  {
    if s == "" {
      assert s + t == t;
    } else {
      EncodeAppend(s[1..], t);
      assert (s + t)[1..] == s[1..] + t;
      ConcatAssociates(EncodeChar(s[0]), Encode(s[1..]), Encode(t));
    }
  }

  lemma DecodeSnoc(d: Decoder, bs: seq<byte>, b: byte)
    ensures Decode(d, bs + [b]) == Decode(d, bs).Then(Step(Decode(d, bs).next, b))
  {
    DecodeAppend(d, bs, [b]);
    var y := Step(Decode(d, bs).next, b);
    assert Decode(y.next, []) == Decoded(y.next, "", false);
    assert y.text + "" == y.text;
  }

  /** The decoder is inside a character: it has said nothing yet. */
  predicate Pending(d: Decoded) {
    d.text == "" && !d.malformed && d.next.needed > 0
  }

  lemma TwoBytes(c: char)
    requires |EncodeChar(c)| == 2
    ensures Pending(Decode(READY, EncodeChar(c)[..1])) && Decode(READY, EncodeChar(c)) == Decoded(READY, [c], false)
  {
    var bs, n := EncodeChar(c), c as int;
    var d1 := Decoder(1, n / 64, 0x80, 0xBF);
    assert Lead(bs[0]) == Decoded(d1, "", false);
    assert Step(d1, bs[1]) == Decoded(READY, [c], false);
    DecodeSnoc(READY, [], bs[0]);
    DecodeSnoc(READY, [bs[0]], bs[1]);
    assert bs[..1] == [] + [bs[0]] == [bs[0]] && bs == [bs[0]] + [bs[1]];
  }

  lemma ThreeSteps(c: char)
    requires |EncodeChar(c)| == 3
    ensures var bs, n := EncodeChar(c), c as int;
            var d1 := Lead(bs[0]).next;
            var d2 := Decoder(1, n / 64, 0x80, 0xBF);
            && Lead(bs[0]) == Decoded(d1, "", false) && d1.needed == 2
            && Step(d1, bs[1]) == Decoded(d2, "", false) && Step(d2, bs[2]) == Decoded(READY, [c], false)
  {
    var n := c as int;
    assert n / 4096 * 64 + n / 64 % 64 == n / 64;
  }

  lemma ThreeBytes(c: char)
    requires |EncodeChar(c)| == 3
    ensures Pending(Decode(READY, EncodeChar(c)[..1])) && Pending(Decode(READY, EncodeChar(c)[..2]))
    ensures Decode(READY, EncodeChar(c)) == Decoded(READY, [c], false)
  {
    var bs := EncodeChar(c);
    ThreeSteps(c);
    DecodeSnoc(READY, [], bs[0]);
    DecodeSnoc(READY, [bs[0]], bs[1]);
    DecodeSnoc(READY, [bs[0], bs[1]], bs[2]);
    assert bs[..1] == [] + [bs[0]] == [bs[0]] && bs[..2] == [bs[0]] + [bs[1]] == [bs[0], bs[1]] && bs == [bs[0], bs[1]] + [bs[2]];
  }

  lemma FourSteps(c: char)
    requires |EncodeChar(c)| == 4
    ensures var bs, n := EncodeChar(c), c as int;
            var d1 := Lead(bs[0]).next;
            var d2, d3 := Decoder(2, n / 4096, 0x80, 0xBF), Decoder(1, n / 64, 0x80, 0xBF);
            && Lead(bs[0]) == Decoded(d1, "", false) && d1.needed == 3
            && Step(d1, bs[1]) == Decoded(d2, "", false) && Step(d2, bs[2]) == Decoded(d3, "", false)
            && Step(d3, bs[3]) == Decoded(READY, [c], false)
  {
    var n := c as int;
    assert n / 262144 * 64 + n / 4096 % 64 == n / 4096;
    assert n / 4096 * 64 + n / 64 % 64 == n / 64;
  }

  lemma FourBytes(c: char)
    requires |EncodeChar(c)| == 4
    ensures Pending(Decode(READY, EncodeChar(c)[..1])) && Pending(Decode(READY, EncodeChar(c)[..2]))
    ensures Pending(Decode(READY, EncodeChar(c)[..3])) && Decode(READY, EncodeChar(c)) == Decoded(READY, [c], false)
  {
    var bs := EncodeChar(c);
    FourSteps(c);
    DecodeSnoc(READY, [], bs[0]);
    DecodeSnoc(READY, [bs[0]], bs[1]);
    DecodeSnoc(READY, [bs[0], bs[1]], bs[2]);
    DecodeSnoc(READY, [bs[0], bs[1], bs[2]], bs[3]);
    assert bs[..1] == [] + [bs[0]] == [bs[0]] && bs[..2] == [bs[0]] + [bs[1]] == [bs[0], bs[1]];
    assert bs[..3] == [bs[0], bs[1]] + [bs[2]] == [bs[0], bs[1], bs[2]] && bs == [bs[0], bs[1], bs[2]] + [bs[3]];
  }

  /** Whole characters decode to themselves; a cut one decodes to nothing yet. */
  lemma CharRoundTrip(c: char)
    ensures Decode(READY, EncodeChar(c)) == Decoded(READY, [c], false)
    ensures forall k :: 0 < k < |EncodeChar(c)| ==> Pending(Decode(READY, EncodeChar(c)[..k]))
  {
    var bs := EncodeChar(c);
    if |bs| == 1 {
      DecodeSnoc(READY, [], bs[0]);
      assert bs == [] + [bs[0]];
    } else if |bs| == 2 {
      TwoBytes(c);
    } else if |bs| == 3 {
      ThreeBytes(c);
    } else {
      FourBytes(c);
    }
  }

  /** How many characters of s have arrived with the first p bytes. */
  function Arrived(s: string, p: nat): (k: nat)
    requires p <= |Encode(s)|
    ensures k <= |s|
  {
    if s == "" || p < |EncodeChar(s[0])| then 0 else 1 + Arrived(s[1..], p - |EncodeChar(s[0])|)
  }

  lemma PeelPrefix(s: string, k: nat)
    requires 1 <= k <= |s|
    ensures Encode(s[..k]) == EncodeChar(s[0]) + Encode(s[1..][..k - 1])
  {
    assert s[..k][1..] == s[1..][..k - 1];
  }

  /** The characters that have arrived are those whose every byte lies in the first p. */
  lemma {:induction false} ArrivedWhole(s: string, p: nat)
    requires p <= |Encode(s)|
    ensures var k := Arrived(s, p); |Encode(s[..k])| <= p && (k < |s| ==> p < |Encode(s[..k + 1])|)
  {
    var k := Arrived(s, p);
    if s != "" {
      if k > 0 {
        ArrivedWhole(s[1..], p - |EncodeChar(s[0])|);
        PeelPrefix(s, k);
      }
      if k < |s| { PeelPrefix(s, k + 1); }
    }
  }

  lemma {:induction false} RoundTrip(s: string)
    ensures Decode(READY, Encode(s)) == Decoded(READY, s, false)
  {
    if s != "" {
      CharRoundTrip(s[0]);
      RoundTrip(s[1..]);
      DecodeAppend(READY, EncodeChar(s[0]), Encode(s[1..]));
      assert [s[0]] + s[1..] == s;
    }
  }

  /** What the first p bytes of an encoded text decode to: the characters that have arrived whole. The
      decoder is left inside a character exactly if the cut is inside one. */
  lemma {:induction false} PrefixRoundTrip(s: string, p: nat)
    requires p <= |Encode(s)|
    ensures var d, k := Decode(READY, Encode(s)[..p]), Arrived(s, p);
            d.text == s[..k] && !d.malformed && (d.next == READY <==> |Encode(s[..k])| == p)
  {
    var k := Arrived(s, p);
    if s == "" {
    } else if p < |EncodeChar(s[0])| {
      CharRoundTrip(s[0]);
      assert Encode(s)[..p] == EncodeChar(s[0])[..p];
    } else {
      var n := |EncodeChar(s[0])|;
      var tail := Encode(s[1..])[..p - n];
      PrefixRoundTrip(s[1..], p - n);
      TakeBeyond(EncodeChar(s[0]), Encode(s[1..]), p);
      FirstThen(s[0], tail);
      TakeBeyond([s[0]], s[1..], k);
      assert [s[0]] + s[1..] == s;
      PeelPrefix(s, k);
    }
  }

  lemma TakeBeyond<T>(a: seq<T>, b: seq<T>, n: nat)
    requires |a| <= n <= |a| + |b|
    ensures (a + b)[..n] == a + b[..n - |a|]
  {
  }

  lemma FirstThen(c: char, tail: seq<byte>)
    ensures Decode(READY, EncodeChar(c) + tail) == Decoded(READY, [c], false).Then(Decode(READY, tail))
  {
    CharRoundTrip(c);
    DecodeAppend(READY, EncodeChar(c), tail);
  }
}

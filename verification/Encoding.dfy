/** Length-prefixed concatenation of exact bytes, and canonical base64. */
module Encoding {
  import opened Bytes
  import opened Json

  /******* Big-endian numbers *******/

  function Power(k: nat): (p: nat)
    ensures p > 0
  {
    if k == 0 then 1 else 256 * Power(k - 1)
  }

  function BigEndian(n: nat, k: nat): (b: Bytes)
    ensures |b| == k
    decreases k
  {
    if k == 0 then [] else BigEndian(n / 256, k - 1) + [n % 256]
  }

  function Number(b: Bytes): nat {
    if b == [] then 0 else Number(b[..|b| - 1]) * 256 + b[|b| - 1]
  }

  lemma {:induction false} NumberOfBigEndian(n: nat, k: nat)
    requires n < Power(k)
    ensures Number(BigEndian(n, k)) == n
    decreases k
  {
    if k > 0 {
      var high := BigEndian(n / 256, k - 1);
      NumberOfBigEndian(n / 256, k - 1);
      assert (high + [n % 256])[..k - 1] == high;
    }
  }

  lemma {:induction false} BigEndianOfNumber(b: Bytes)
    ensures Number(b) < Power(|b|) && BigEndian(Number(b), |b|) == b
  {
    if b != [] {
      var k := |b| - 1;
      BigEndianOfNumber(b[..k]);
      assert b == b[..k] + [b[k]];
    }
  }

  /******* Length-prefixed concatenation *******/

  const PREFIX: nat := 8

  predicate Fits(b: Bytes) {
    |b| < Power(PREFIX)
  }

  /** Each value behind its length in eight big-endian bytes. */
  function Combined(values: seq<Bytes>): Bytes {
    if values == [] then [] else BigEndian(|values[0]|, PREFIX) + values[0] + Combined(values[1..])
  }

  /** Reads a concatenation back; None if it is not one. */
  function Split(b: Bytes): Option<seq<Bytes>> {
    if b == [] then Some([])
    else if |b| < PREFIX then None
    else
      var n := Number(b[..PREFIX]);
      if |b| < PREFIX + n then None
      else match Split(b[PREFIX + n..])
        case None => None
        case Some(rest) => Some([b[PREFIX..PREFIX + n]] + rest)
  }

  lemma Parts(head: Bytes, value: Bytes, rest: Bytes)
    ensures
      var b := head + value + rest;
      var k, n := |head|, |head| + |value|;
      b[..k] == head && b[k..n] == value && b[n..] == rest
  {
  }

  lemma {:induction false} SplitCombined(values: seq<Bytes>)
    requires forall v | v in values :: Fits(v)
    ensures Split(Combined(values)) == Some(values)
  {
    hide Power, BigEndian, Number;
    if values != [] {
      var v := values[0];
      assert Fits(v);
      NumberOfBigEndian(|v|, PREFIX);
      SplitCombined(values[1..]);
      Parts(BigEndian(|v|, PREFIX), v, Combined(values[1..]));
      assert values == [v] + values[1..];
    }
  }

  /** Nothing but a concatenation reads back, and it reads back as the values it was made of. */
  lemma {:induction false} CombinedSplit(b: Bytes)
    ensures Split(b).Some? ==> Combined(Split(b).value) == b && forall v | v in Split(b).value :: Fits(v)
    decreases |b|
  {
    hide Power, BigEndian, Number;
    if b != [] && Split(b).Some? {
      BigEndianOfNumber(b[..PREFIX]);
      var n := Number(b[..PREFIX]);
      var rest := b[PREFIX + n..];
      CombinedSplit(rest);
      var values := [b[PREFIX..PREFIX + n]] + Split(rest).value;
      assert values[1..] == Split(rest).value;
      assert b == b[..PREFIX] + b[PREFIX..PREFIX + n] + rest;
    }
  }

  /** The combined bytes determine the list, however the values are cut. */
  lemma CombinedIsInjective(xs: seq<Bytes>, ys: seq<Bytes>)
    requires (forall x | x in xs :: Fits(x)) && (forall y | y in ys :: Fits(y))
    ensures Combined(xs) == Combined(ys) <==> xs == ys
  {
    SplitCombined(xs);
    SplitCombined(ys);
  }

  /******* Base64 *******/

  type Sextet = i: int | 0 <= i < 64

  function Letter(i: Sextet): char {
    if i < 26 then 'A' + i as char
    else if i < 52 then 'a' + (i - 26) as char
    else if i < 62 then '0' + (i - 52) as char
    else if i == 62 then '+' else '/'
  }

  function SextetOf(c: char): Option<Sextet> {
    if 'A' <= c <= 'Z' then Some(c as int - 'A' as int)
    else if 'a' <= c <= 'z' then Some(c as int - 'a' as int + 26)
    else if '0' <= c <= '9' then Some(c as int - '0' as int + 52)
    else if c == '+' then Some(62) else if c == '/' then Some(63) else None
  }

  lemma LetterRoundTrip(i: Sextet)
    ensures SextetOf(Letter(i)) == Some(i) && Letter(i) != '='
  {
  }

  function Base64(b: Bytes): string {
    if b == [] then ""
    else if |b| == 1 then [Letter(b[0] / 4), Letter(b[0] % 4 * 16), '=', '=']
    else if |b| == 2 then [Letter(b[0] / 4), Letter(b[0] % 4 * 16 + b[1] / 16), Letter(b[1] % 16 * 4), '=']
    else [Letter(b[0] / 4), Letter(b[0] % 4 * 16 + b[1] / 16), Letter(b[1] % 16 * 4 + b[2] / 64), Letter(b[2] % 64)]
         + Base64(b[3..])
  }

  /** A decoder that, like the library's, ignores the unused low bits of the last letter. */
  function FromBase64(s: string): Option<Bytes> {
    if s == "" then Some([])
    else if |s| < 4 then None
    else
      match (SextetOf(s[0]), SextetOf(s[1]))
      case (Some(p), Some(q)) =>
        var first: Byte := p * 4 + q / 16;
        if |s| == 4 && s[2] == '=' && s[3] == '=' then Some([first])
        else
          (match SextetOf(s[2])
           case None => None
           case Some(r) =>
             var second: Byte := q % 16 * 16 + r / 4;
             if |s| == 4 && s[3] == '=' then Some([first, second])
             else
               (match (SextetOf(s[3]), FromBase64(s[4..]))
                case (Some(t), Some(rest)) => Some([first, second, r % 4 * 64 + t] + rest)
                case _ => None))
      case _ => None
  }

  lemma DecodeGroup(w: char, x: char, y: char, z: char, tail: string, p: Sextet, q: Sextet, r: Sextet, t: Sextet)
    requires SextetOf(w) == Some(p) && SextetOf(x) == Some(q) && SextetOf(y) == Some(r) && SextetOf(z) == Some(t) && z != '='
    ensures
      FromBase64([w, x, y, z] + tail) ==
      match FromBase64(tail)
      case None => None
      case Some(rest) => Some([p * 4 + q / 16, q % 16 * 16 + r / 4, r % 4 * 64 + t] + rest)
  {
    hide SextetOf;
    assert ([w, x, y, z] + tail)[4..] == tail;
  }

  lemma Regroup(a: Byte, b: Byte, c: Byte)
    ensures
      var p, q, r, t := a / 4, a % 4 * 16 + b / 16, b % 16 * 4 + c / 64, c % 64;
      p * 4 + q / 16 == a && q % 16 * 16 + r / 4 == b && r % 4 * 64 + t == c
  {
  }

  lemma FullGroup(a: Byte, b: Byte, c: Byte, tail: string)
    ensures
      var s := [Letter(a / 4), Letter(a % 4 * 16 + b / 16), Letter(b % 16 * 4 + c / 64), Letter(c % 64)] + tail;
      FromBase64(s) == match FromBase64(tail) case None => None case Some(rest) => Some([a, b, c] + rest)
  {
    hide *;
    var p, q, r, t := a / 4, a % 4 * 16 + b / 16, b % 16 * 4 + c / 64, c % 64;
    LetterRoundTrip(p);
    LetterRoundTrip(q);
    LetterRoundTrip(r);
    LetterRoundTrip(t);
    DecodeGroup(Letter(p), Letter(q), Letter(r), Letter(t), tail, p, q, r, t);
    Regroup(a, b, c);
  }

  lemma LastGroup(a: Byte, b: Byte)
    ensures FromBase64([Letter(a / 4), Letter(a % 4 * 16), '=', '=']) == Some([a])
    ensures FromBase64([Letter(a / 4), Letter(a % 4 * 16 + b / 16), Letter(b % 16 * 4), '=']) == Some([a, b])
  {
    LetterRoundTrip(a / 4);
    LetterRoundTrip(a % 4 * 16);
    LetterRoundTrip(a % 4 * 16 + b / 16);
    LetterRoundTrip(b % 16 * 4);
    hide Letter, SextetOf;
  }

  lemma {:induction false} Base64RoundTrip(b: Bytes)
    ensures FromBase64(Base64(b)) == Some(b)
  {
    hide FromBase64, Letter;
    if b == [] {
      EmptyText();
    } else if |b| == 1 {
      LastGroup(b[0], 0);
      assert b == [b[0]];
    } else if |b| == 2 {
      LastGroup(b[0], b[1]);
      assert b == [b[0], b[1]];
    } else {
      Base64RoundTrip(b[3..]);
      FullGroup(b[0], b[1], b[2], Base64(b[3..]));
      assert b == [b[0], b[1], b[2]] + b[3..];
    }
  }

  lemma EmptyText()
    ensures FromBase64("") == Some([])
  {
  }

  /** What the code accepts: text that decodes to bytes which encode to that very text. */
  function DecodeCanonical(s: string): Option<Bytes> {
    match FromBase64(s)
    case None => None
    case Some(b) => if Base64(b) == s then Some(b) else None
  }

  /** Every byte string has exactly one accepted text. */
  lemma OneAcceptedText(s: string, b: Bytes)
    ensures DecodeCanonical(s) == Some(b) <==> s == Base64(b)
  {
    Base64RoundTrip(b);
    hide FromBase64, Base64;
  }

  /** Without the comparison there would be more: the unused bits of the last letter are free. */
  lemma LenientDecoderIsNotInjective()
    ensures FromBase64("QQ==") == FromBase64("QR==") == Some([65]) && DecodeCanonical("QR==") == None
  {
    assert SextetOf('Q') == Some(16) && SextetOf('R') == Some(17);
    assert Base64([65]) == [Letter(16), Letter(16), '=', '='];
  }
}

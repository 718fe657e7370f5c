/** The unpadded base64url text of a byte string (app/core/admin_auth.py:43-49;
    sections 3.2 and 5 of RFC 4648). The decoder is the lenient one the program
    calls: it skips characters outside the alphabet and takes '+' and '/' too. */
module Base64Url {
  import opened Payloads

  type byte = x: int | 0 <= x < 256
  type sextet = x: int | 0 <= x < 64

  function CharOf(x: sextet): char {
    if x < 26 then 'A' + x as char
    else if x < 52 then 'a' + (x - 26) as char
    else if x < 62 then '0' + (x - 52) as char
    else if x == 62 then '-' else '_'
  }

  function CodeOf(c: char): Option<sextet> {
    if 'A' <= c <= 'Z' then Some((c - 'A') as int)
    else if 'a' <= c <= 'z' then Some((c - 'a') as int + 26)
    else if '0' <= c <= '9' then Some((c - '0') as int + 52)
    else if c == '-' || c == '+' then Some(62)
    else if c == '_' || c == '/' then Some(63)
    else None
  }

  function Pair(a: byte): string { [CharOf(a / 4), CharOf(a % 4 * 16)] }

  function Triple(a: byte, b: byte): string {
    [CharOf(a / 4), CharOf(a % 4 * 16 + b / 16), CharOf(b % 16 * 4)]
  }

  function Quad(a: byte, b: byte, c: byte): string {
    [CharOf(a / 4), CharOf(a % 4 * 16 + b / 16), CharOf(b % 16 * 4 + c / 64), CharOf(c % 64)]
  }

  /** The padded text: three bytes become four characters. */
  function Padded(data: seq<byte>): string {
    if data == [] then ""
    else if |data| == 1 then Pair(data[0]) + "=="
    else if |data| == 2 then Triple(data[0], data[1]) + "="
    else
      Quad(data[0], data[1], data[2]) + Padded(data[3..])
  }

  function Pads(n: nat): string { seq(n, _ => '=') }

  function StripPads(s: string): string {
    if s != [] && s[|s| - 1] == '=' then StripPads(s[..|s| - 1]) else s
  }

  function Encode(data: seq<byte>): string { StripPads(Padded(data)) }

  /** The decoder's position: the bytes so far, how many characters of the
      current group were read, the bits left over, the '=' signs seen in a row,
      and whether padding ended the text. */
  datatype Scan = Scan(out: seq<byte>, group: nat, left: nat, pads: nat, done: bool)

  predicate ScanOk(s: Scan) {
    match s.group
    case 0 => true
    case 1 => s.left < 64
    case 2 => s.left < 16
    case 3 => s.left < 4
    case _ => false
  }

  function Feed(s: Scan, c: char): (next: Scan)
    requires ScanOk(s)
    ensures ScanOk(next)
  {
    if s.done then s
    else if c == '=' then
      if s.group < 2 then s
      else if s.group + s.pads + 1 >= 4 then s.(pads := s.pads + 1, done := true)
      else s.(pads := s.pads + 1)
    else
      match CodeOf(c)
      case None => s
      case Some(code) =>
        match s.group
        case 0 => Scan(s.out, 1, code, 0, false)
        case 1 => Scan(s.out + [s.left * 4 + code / 16], 2, code % 16, 0, false)
        case 2 => Scan(s.out + [s.left * 16 + code / 4], 3, code % 4, 0, false)
        case _ => Scan(s.out + [s.left * 64 + code], 0, 0, 0, false)
  }

  function FeedAll(s: Scan, text: string): (next: Scan)
    requires ScanOk(s)
    ensures ScanOk(next)
    decreases |text|
  {
    if text == [] then s else FeedAll(Feed(s, text[0]), text[1..])
  }

  /** None when the text ends inside a group: the decoder raises an error. */
  function DecodePadded(text: string): Option<seq<byte>> {
    var s := FeedAll(Scan([], 0, 0, 0, false), text);
    if s.done || s.group == 0 then Some(s.out) else None
  }

  function Decode(text: string): Option<seq<byte>> { DecodePadded(text + Pads((-|text|) % 4)) }

  // ---------------------------------------------------------------- round trip

  lemma CodeOfChar(x: sextet)
    ensures CodeOf(CharOf(x)) == Some(x)
    ensures CharOf(x) != '=' && CharOf(x) != '.' && CharOf(x) != ' '
  {
  }

  lemma FeedTwo(s: Scan, a: char, b: char, rest: string)
    requires ScanOk(s)
    ensures FeedAll(s, [a, b] + rest) == FeedAll(Feed(Feed(s, a), b), rest)
  {
  }

  /** The first two characters of a group yield its first byte. */
  lemma FeedHalf(out: seq<byte>, w: sextet, x: sextet, rest: string)
    ensures FeedAll(Scan(out, 0, 0, 0, false), [CharOf(w), CharOf(x)] + rest)
            == FeedAll(Scan(out + [w * 4 + x / 16], 2, x % 16, 0, false), rest)
  {
    CodeOfChar(w); CodeOfChar(x);
    FeedTwo(Scan(out, 0, 0, 0, false), CharOf(w), CharOf(x), rest);
  }

  /** The last two characters of a group yield the other two bytes. */
  lemma FeedRest(out: seq<byte>, left: nat, y: sextet, z: sextet, rest: string)
    requires left < 16
    ensures FeedAll(Scan(out, 2, left, 0, false), [CharOf(y), CharOf(z)] + rest)
            == FeedAll(Scan(out + [left * 16 + y / 4, y % 4 * 64 + z], 0, 0, 0, false), rest)
  {
    CodeOfChar(y); CodeOfChar(z);
    FeedTwo(Scan(out, 2, left, 0, false), CharOf(y), CharOf(z), rest);
    assert out + [left * 16 + y / 4] + [y % 4 * 64 + z] == out + [left * 16 + y / 4, y % 4 * 64 + z];
  }

  /** A whole group of four characters yields three bytes. */
  lemma FeedSextets(out: seq<byte>, w: sextet, x: sextet, y: sextet, z: sextet, rest: string)
    ensures FeedAll(Scan(out, 0, 0, 0, false), [CharOf(w), CharOf(x), CharOf(y), CharOf(z)] + rest)
            == FeedAll(Scan(out + [w * 4 + x / 16, x % 16 * 16 + y / 4, y % 4 * 64 + z], 0, 0, 0, false), rest)
  {
    var last := [CharOf(y), CharOf(z)] + rest;
    assert [CharOf(w), CharOf(x), CharOf(y), CharOf(z)] + rest == [CharOf(w), CharOf(x)] + last;
    FeedHalf(out, w, x, last);
    FeedRest(out + [w * 4 + x / 16], x % 16, y, z, rest);
    assert out + [w * 4 + x / 16] + [x % 16 * 16 + y / 4, y % 4 * 64 + z]
        == out + [w * 4 + x / 16, x % 16 * 16 + y / 4, y % 4 * 64 + z];
  }

  lemma FeedQuad(out: seq<byte>, a: byte, b: byte, c: byte, rest: string)
    ensures FeedAll(Scan(out, 0, 0, 0, false), Quad(a, b, c) + rest)
            == FeedAll(Scan(out + [a, b, c], 0, 0, 0, false), rest)
  {
    FeedSextets(out, a / 4, a % 4 * 16 + b / 16, b % 16 * 4 + c / 64, c % 64, rest);
    TwoBits(a, b);
    FourBits(b, c / 64);
  }

  lemma TwoBits(a: byte, b: byte)
    ensures a / 4 * 4 + (a % 4 * 16 + b / 16) / 16 == a && (a % 4 * 16 + b / 16) % 16 == b / 16
  {
  }

  lemma FourBits(b: byte, top: nat)
    requires top < 4
    ensures (b % 16 * 4 + top) % 4 == top && b / 16 * 16 + (b % 16 * 4 + top) / 4 == b
  {
  }

  lemma FeedPair(out: seq<byte>, a: byte)
    ensures FeedAll(Scan(out, 0, 0, 0, false), Pair(a) + "==") == Scan(out + [a], 2, 0, 2, true)
  {
    FeedHalf(out, a / 4, a % 4 * 16, "==");
    assert "==" == ['=', '='] + "";
    FeedTwo(Scan(out + [a], 2, 0, 0, false), '=', '=', "");
  }

  /** Three characters and one '=' end the text with two bytes. */
  lemma FeedThree(out: seq<byte>, w: sextet, x: sextet, y: sextet)
    ensures FeedAll(Scan(out, 0, 0, 0, false), [CharOf(w), CharOf(x), CharOf(y)] + "=")
            == Scan(out + [w * 4 + x / 16, x % 16 * 16 + y / 4], 3, y % 4, 1, true)
  {
    var half := Scan(out + [w * 4 + x / 16], 2, x % 16, 0, false);
    assert [CharOf(w), CharOf(x), CharOf(y)] + "=" == [CharOf(w), CharOf(x)] + ([CharOf(y), '='] + "");
    FeedHalf(out, w, x, [CharOf(y), '='] + "");
    CodeOfChar(y);
    FeedTwo(half, CharOf(y), '=', "");
    assert out + [w * 4 + x / 16] + [x % 16 * 16 + y / 4] == out + [w * 4 + x / 16, x % 16 * 16 + y / 4];
  }

  lemma FeedTriple(out: seq<byte>, a: byte, b: byte)
    ensures FeedAll(Scan(out, 0, 0, 0, false), Triple(a, b) + "=") == Scan(out + [a, b], 3, 0, 1, true)
  {
    FeedThree(out, a / 4, a % 4 * 16 + b / 16, b % 16 * 4);
    TwoBits(a, b);
    FourBits(b, 0);
  }

  lemma {:induction false} DecodeGroups(out: seq<byte>, data: seq<byte>)
    ensures var s := FeedAll(Scan(out, 0, 0, 0, false), Padded(data));
            s.out == out + data && (s.done || s.group == 0)
    decreases |data|
  {
    if data == [] {
    } else if |data| == 1 {
      FeedPair(out, data[0]);
      assert data == [data[0]];
    } else if |data| == 2 {
      FeedTriple(out, data[0], data[1]);
      assert data == [data[0], data[1]];
    } else {
      FeedQuad(out, data[0], data[1], data[2], Padded(data[3..]));
      DecodeGroups(out + [data[0], data[1], data[2]], data[3..]);
      Regroup(out, data);
    }
  }

  lemma Regroup(out: seq<byte>, data: seq<byte>)
    requires |data| >= 3
    ensures out + [data[0], data[1], data[2]] + data[3..] == out + data
  {
  }

  /** How many '=' signs end the padded text. */
  function PadCount(n: nat): nat { (3 - n % 3) % 3 }

  predicate InAlphabet(c: char) { exists x: sextet :: CharOf(x) == c }

  predicate AllInAlphabet(s: string) { forall i :: 0 <= i < |s| ==> InAlphabet(s[i]) }

  /** The characters before the padding. */
  function Body(data: seq<byte>): string {
    if data == [] then ""
    else if |data| == 1 then Pair(data[0])
    else if |data| == 2 then Triple(data[0], data[1])
    else
      Quad(data[0], data[1], data[2]) + Body(data[3..])
  }

  lemma {:induction false} PaddedIsBodyAndPads(data: seq<byte>)
    ensures Padded(data) == Body(data) + Pads(PadCount(|data|))
    decreases |data|
  {
    if |data| == 1 {
      assert Pads(2) == "==";
    } else if |data| == 2 {
      assert Pads(1) == "=";
    } else if |data| >= 3 {
      PaddedIsBodyAndPads(data[3..]);
      PadCountEveryThree(|data|);
    }
  }

  lemma PadCountEveryThree(n: nat)
    requires n >= 3
    ensures PadCount(n - 3) == PadCount(n)
  {
  }

  /** The unpadded length: four characters for three bytes, rounded up. */
  function TextLength(n: nat): nat { (4 * n + 2) / 3 }

  lemma TextLengthEveryThree(n: nat)
    requires n >= 3
    ensures TextLength(n) == TextLength(n - 3) + 4
  {
  }

  lemma {:induction false} TextFillsGroups(n: nat)
    ensures (TextLength(n) + PadCount(n)) % 4 == 0
  {
    if n >= 3 {
      TextLengthEveryThree(n);
      PadCountEveryThree(n);
      TextFillsGroups(n - 3);
    }
  }

  lemma {:induction false} BodyLength(data: seq<byte>)
    ensures |Body(data)| == TextLength(|data|)
    decreases |data|
  {
    if |data| >= 3 {
      BodyLength(data[3..]);
      TextLengthEveryThree(|data|);
    }
  }

  lemma {:induction false} BodyInAlphabet(data: seq<byte>)
    ensures AllInAlphabet(Body(data))
    decreases |data|
  {
    if |data| >= 3 {
      BodyInAlphabet(data[3..]);
      assert AllInAlphabet(Quad(data[0], data[1], data[2]));
    }
  }

  lemma {:induction false} StripPadsDropsPads(s: string, n: nat)
    requires AllInAlphabet(s)
    ensures StripPads(s + Pads(n)) == s
  {
    if n == 0 {
      assert s + Pads(0) == s;
      if s != [] {
        var x: sextet :| CharOf(x) == s[|s| - 1];
        CodeOfChar(x);
      }
    } else {
      assert (s + Pads(n))[..|s| + n - 1] == s + Pads(n - 1);
      StripPadsDropsPads(s, n - 1);
    }
  }

  /** The unpadded text is made of the alphabet alone, so it holds neither '.'
      nor '=' nor a blank; its length follows from the number of bytes, and
      putting the missing '=' signs back restores the padded text. */
  lemma EncodedText(data: seq<byte>)
    ensures AllInAlphabet(Encode(data))
    ensures |Encode(data)| == TextLength(|data|)
    ensures Encode(data) + Pads((-|Encode(data)|) % 4) == Padded(data)
  {
    EncodeIsBody(data);
    BodyInAlphabet(data);
    BodyLength(data);
    MissingPads(|Body(data)|, |data|);
  }

  lemma EncodeIsBody(data: seq<byte>)
    ensures Encode(data) == Body(data) && Padded(data) == Body(data) + Pads(PadCount(|data|))
  {
    PaddedIsBodyAndPads(data);
    BodyInAlphabet(data);
    StripPadsDropsPads(Body(data), PadCount(|data|));
  }

  lemma MissingPads(length: int, n: nat)
    requires length == TextLength(n)
    ensures (-length) % 4 == PadCount(n)
  {
    TextFillsGroups(n);
    Remainder(length, PadCount(n));
  }

  lemma Remainder(n: int, k: nat)
    requires k < 4 && (n + k) % 4 == 0
    ensures (-n) % 4 == k
  {
  }

  /** Decoding gives back every byte string. */
  lemma DecodeEncode(data: seq<byte>)
    ensures Decode(Encode(data)) == Some(data)
  {
    EncodedText(data);
    DecodePaddedText(data);
  }

  lemma DecodePaddedText(data: seq<byte>)
    ensures DecodePadded(Padded(data)) == Some(data)
  {
    DecodeGroups([], data);
    assert [] + data == data;
  }

  /** Different byte strings have different texts. */
  lemma EncodeIsInjective(a: seq<byte>, b: seq<byte>)
    requires Encode(a) == Encode(b)
    ensures a == b
  {
    DecodeEncode(a);
    DecodeEncode(b);
  }

  // ---------------------------------------------------------- canonical texts

  /** A possible length, and a last character with no bits beyond the last byte. */
  predicate Tight(t: string) {
    match |t| % 4
    case 0 => true
    case 1 => false
    case 2 => CodeOf(t[|t| - 1]).Some? && CodeOf(t[|t| - 1]).value % 16 == 0
    case _ => CodeOf(t[|t| - 1]).Some? && CodeOf(t[|t| - 1]).value % 4 == 0
  }

  /** A tight text of the alphabet alone. */
  predicate Canonical(t: string) { AllInAlphabet(t) && Tight(t) }

  lemma TightGroup(group: string, rest: string)
    requires |group| == 4
    ensures Tight(group + rest) <==> Tight(rest)
  {
    var t := group + rest;
    assert |t| % 4 == |rest| % 4;
    assert rest != "" ==> t[|t| - 1] == rest[|rest| - 1];
  }

  lemma {:induction false} BodyIsTight(data: seq<byte>)
    ensures Tight(Body(data))
    decreases |data|
  {
    if |data| == 1 {
      CodeOfChar(data[0] % 4 * 16);
    } else if |data| == 2 {
      CodeOfChar(data[1] % 16 * 4);
    } else if |data| >= 3 {
      BodyIsTight(data[3..]);
      TightGroup(Quad(data[0], data[1], data[2]), Body(data[3..]));
    }
  }

  /** The bytes that a group of codes stands for. */
  function FirstByte(w: sextet, x: sextet): byte { w as int * 4 + x as int / 16 }

  function SecondByte(x: sextet, y: sextet): byte { x as int % 16 * 16 + y as int / 4 }

  function ThirdByte(y: sextet, z: sextet): byte { y as int % 4 * 64 + z as int }

  lemma FirstBits(w: sextet, x: sextet)
    ensures FirstByte(w, x) / 4 == w && FirstByte(w, x) % 4 * 16 == x / 16 * 16
  {
  }

  lemma SecondBits(x: sextet, y: sextet)
    ensures SecondByte(x, y) / 16 == x % 16 && SecondByte(x, y) % 16 * 4 == y / 4 * 4
  {
  }

  lemma ThirdBits(y: sextet, z: sextet)
    ensures ThirdByte(y, z) / 64 == y % 4 && ThirdByte(y, z) % 64 == z
  {
  }

  lemma PairOfCodes(w: sextet, x: sextet)
    requires x % 16 == 0
    ensures Pair(FirstByte(w, x)) == [CharOf(w), CharOf(x)]
  {
    FirstBits(w, x);
  }

  lemma TripleOfCodes(w: sextet, x: sextet, y: sextet)
    requires y % 4 == 0
    ensures Triple(FirstByte(w, x), SecondByte(x, y)) == [CharOf(w), CharOf(x), CharOf(y)]
  {
    FirstBits(w, x);
    SecondBits(x, y);
  }

  lemma QuadOfCodes(w: sextet, x: sextet, y: sextet, z: sextet)
    ensures Quad(FirstByte(w, x), SecondByte(x, y), ThirdByte(y, z)) == [CharOf(w), CharOf(x), CharOf(y), CharOf(z)]
  {
    FirstBits(w, x);
    SecondBits(x, y);
    ThirdBits(y, z);
  }

  lemma CodeOfMember(t: string, i: nat) returns (x: sextet)
    requires AllInAlphabet(t) && i < |t|
    ensures CharOf(x) == t[i] && CodeOf(t[i]) == Some(x)
  {
    x :| CharOf(x) == t[i];
    CodeOfChar(x);
  }

  /** Every canonical text is the text of some bytes. */
  lemma {:induction false} CanonicalIsBody(t: string) returns (data: seq<byte>)
    requires Canonical(t)
    ensures Body(data) == t
    decreases |t|
  {
    if t == "" {
      data := [];
    } else if |t| < 4 {
      data := ShortIsBody(t);
    } else {
      var group := GroupIsQuad(t[..4]);
      assert t == t[..4] + t[4..];
      TightGroup(t[..4], t[4..]);
      var rest := CanonicalIsBody(t[4..]);
      data := group + rest;
      assert data[3..] == rest;
    }
  }

  lemma ShortIsBody(t: string) returns (data: seq<byte>)
    requires Canonical(t) && 0 < |t| < 4
    ensures Body(data) == t
  {
    assert |t| != 1;
    var w := CodeOfMember(t, 0);
    var x := CodeOfMember(t, 1);
    if |t| == 2 {
      PairOfCodes(w, x);
      data := [FirstByte(w, x)];
    } else {
      var y := CodeOfMember(t, 2);
      TripleOfCodes(w, x, y);
      data := [FirstByte(w, x), SecondByte(x, y)];
    }
  }

  lemma GroupIsQuad(t: string) returns (data: seq<byte>)
    requires AllInAlphabet(t) && |t| == 4
    ensures |data| == 3 && Quad(data[0], data[1], data[2]) == t
  {
    var w := CodeOfMember(t, 0);
    var x := CodeOfMember(t, 1);
    var y := CodeOfMember(t, 2);
    var z := CodeOfMember(t, 3);
    QuadOfCodes(w, x, y, z);
    data := [FirstByte(w, x), SecondByte(x, y), ThirdByte(y, z)];
  }

  /** A text that decodes is the text of its bytes iff it is canonical: the
      decoder takes other spellings, and these are all of them. */
  lemma CanonicalTextsRoundTrip(t: string, data: seq<byte>)
    requires Decode(t) == Some(data)
    ensures Encode(data) == t <==> Canonical(t)
  {
    EncodeIsBody(data);
    BodyInAlphabet(data);
    BodyIsTight(data);
    if Canonical(t) {
      var source := CanonicalIsBody(t);
      EncodeIsBody(source);
      DecodeEncode(source);
    }
  }

  /** Two spellings of one byte; only the first is canonical. */
  lemma DecodersAcceptManySpellings()
    ensures Decode("QQ") == Some([65]) && Decode("QR") == Some([65])
  {
    FeedAllOfTwo('Q', 'Q');
    FeedAllOfTwo('Q', 'R');
  }

  lemma FeedAllOfTwo(a: char, b: char)
    requires 'A' <= a <= 'Z' && 'A' <= b <= 'Z'
    ensures Decode([a, b]) == Some([(a - 'A') as int * 4 + (b - 'A') as int / 16])
  {
    var x, y := (a - 'A') as int, (b - 'A') as int;
    assert Pads(2) == ['=', '='] + "";
    FeedHalf([], x, y, ['=', '='] + "");
    FeedTwo(Scan([x * 4 + y / 16], 2, y % 16, 0, false), '=', '=', "");
    assert [] + [x * 4 + y / 16] == [x * 4 + y / 16];
    var s := FeedAll(Scan([], 0, 0, 0, false), [a, b] + Pads(2));
    assert CharOf(x) == a && CharOf(y) == b;
    assert s == Scan([x * 4 + y / 16], 2, y % 16, 2, true);
  }

  // ------------------------------------------------------------- the alphabet

  /** The URL-safe alphabet of RFC 4648, section 5: capitals, small letters,
      digits, minus and underscore. */
  lemma AlphabetTable(x: sextet)
    ensures x < 26 ==> CharOf(x) as int == 65 + x
    ensures 26 <= x < 52 ==> CharOf(x) as int == 97 + (x - 26)
    ensures 52 <= x < 62 ==> CharOf(x) as int == 48 + (x - 52)
    ensures CharOf(62) as int == 45 && CharOf(63) as int == 95
    ensures CodeOf('+') == CodeOf('-') == Some(62) && CodeOf('/') == CodeOf('_') == Some(63)
  {
  }

  /** The first vectors of RFC 4648, section 10, unpadded, and one that needs the
      two characters peculiar to the URL-safe alphabet. */
  lemma TestVectors()
    ensures Encode([]) == "" && Encode([102]) == "Zg" && Encode([102, 111]) == "Zm8" && Encode([102, 111, 111]) == "Zm9v"
    ensures Encode([251, 255]) == "-_8"
  {
    EncodeIsBody([]);
    EncodeIsBody([102]);
    EncodeIsBody([102, 111]);
    EncodeIsBody([102, 111, 111]);
    EncodeIsBody([251, 255]);
    assert Body([102, 111, 111]) == Quad(102, 111, 111) + Body([]);
  }
}

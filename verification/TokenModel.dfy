/** The state-token format: standard base64 (section 4 of RFC 4648) in which every run of
    'A' is replaced by a marker and a little-endian base-64 count. */
module TokenModel {
  import opened Common
  import opened Bytes

  const MAXIMUM_TOKEN_BYTES: nat := 0x200_0000
  const MAXIMUM_EXPANDED_BYTES: nat := 0x400_0000
  const MAXIMUM_DECODED_BYTES: nat := 0x200_0000
  const MAXIMUM_VECTOR_ELEMENTS: nat := 0x10_0000

  // ---------------------------------------------------------------- the alphabet

  /** Value of a base64 digit, -1 for any other character. */
  function Base64Value(c: char): (v: int)
    ensures -1 <= v < 64
  {
    if 'A' <= c <= 'Z' then c as int - 'A' as int
    else if 'a' <= c <= 'z' then c as int - 'a' as int + 26
    else if '0' <= c <= '9' then c as int - '0' as int + 52
    else if c == '+' then 62
    else if c == '/' then 63
    else -1
  }

  function Digit(v: nat): char
    requires v < 64
  {
    if v < 26 then (v + 'A' as int) as char
    else if v < 52 then (v - 26 + 'a' as int) as char
    else if v < 62 then (v - 52 + '0' as int) as char
    else if v == 62 then '+' else '/'
  }

  lemma DigitRoundTrip(v: nat)
    requires v < 64
    ensures Base64Value(Digit(v)) == v && Digit(v) != '='
  {
  }

  lemma ValueRoundTrip64(c: char)
    requires Base64Value(c) >= 0
    ensures Digit(Base64Value(c)) == c && c != '='
  {
  }

  // ---------------------------------------------------------------- compressed runs

  /** A token is a string of pieces: a character that stands for itself, or a run. */
  datatype Piece = Plain(c: char) | Run(digits: string)

  function RunDigits(c: char): nat {
    if c == 'A' then 1 else if c == '-' then 2 else if c == '*' then 3 else 0
  }

  function Marker(n: nat): char {
    if n == 1 then 'A' else if n == 2 then '-' else '*'
  }

  /** Little-endian base-64 number. */
  function Count(digits: string): int {
    if digits == [] then 0 else Base64Value(digits[0]) + 64 * Count(digits[1..])
  }

  predicate AllDigits(s: string) {
    forall i :: 0 <= i < |s| ==> Base64Value(s[i]) >= 0
  }

  predicate PieceOk(p: Piece) {
    match p
    case Plain(c) => RunDigits(c) == 0 && (c == '=' || Base64Value(c) >= 0)
    case Run(digits) => 1 <= |digits| <= 3 && AllDigits(digits) && Count(digits) > 0
  }

  function As(n: nat): (s: string)
    ensures |s| == n
  {
    seq(n, i => 'A')
  }

  function RenderPiece(p: Piece): string {
    match p
    case Plain(c) => [c]
    case Run(digits) => [Marker(|digits|)] + digits
  }

  function MeaningOf(p: Piece): string {
    match p
    case Plain(c) => [c]
    case Run(digits) => As(Max(0, Count(digits)))
  }

  function Render(ps: seq<Piece>): string {
    if ps == [] then [] else RenderPiece(ps[0]) + Render(ps[1..])
  }

  function Meaning(ps: seq<Piece>): string {
    if ps == [] then [] else MeaningOf(ps[0]) + Meaning(ps[1..])
  }

  predicate PiecesOk(ps: seq<Piece>) {
    forall i :: 0 <= i < |ps| ==> PieceOk(ps[i])
  }

  /** The first piece of a token. */
  function ScanPiece(token: string): (r: Option<Piece>)
    requires token != []
    ensures r.Some? ==> PieceOk(r.value) && |RenderPiece(r.value)| <= |token|
                        && token[..|RenderPiece(r.value)|] == RenderPiece(r.value)
  {
    var n := RunDigits(token[0]);
    if n == 0 then
      if token[0] == '=' || Base64Value(token[0]) >= 0 then Some(Plain(token[0])) else None
    else if 1 + n <= |token| && AllDigits(token[1..1 + n]) && Count(token[1..1 + n]) > 0 then Some(Run(token[1..1 + n]))
    else None
  }

  function Scan(token: string): Option<seq<Piece>>
    decreases |token|
  {
    if token == [] then Some([])
    else
      match ScanPiece(token)
      case None => None
      case Some(p) =>
        match Scan(token[|RenderPiece(p)|..])
        case None => None
        case Some(rest) => Some([p] + rest)
  }

  /** Piece lists that a token can render: the renderings are uniquely decodable. */
  lemma {:induction false} ScanRender(ps: seq<Piece>)
    requires PiecesOk(ps)
    ensures Scan(Render(ps)) == Some(ps)
  {
    hide ScanPiece, RenderPiece, PieceOk;
    if ps != [] {
      var token, head := Render(ps), RenderPiece(ps[0]);
      ScanRenderPiece(ps[0], Render(ps[1..]));
      assert token[|head|..] == Render(ps[1..]);
      ScanRender(ps[1..]);
      assert ps == [ps[0]] + ps[1..];
    }
  }

  lemma ScanRenderPiece(p: Piece, rest: string)
    requires PieceOk(p)
    ensures ScanPiece(RenderPiece(p) + rest) == Some(p) && RenderPiece(p) != []
  {
    var token := RenderPiece(p) + rest;
    match p
    case Plain(c) =>
    case Run(digits) =>
      assert token[1..1 + |digits|] == digits;
  }

  lemma {:induction false} ScanSound(token: string)
    requires Scan(token).Some?
    ensures PiecesOk(Scan(token).value) && Render(Scan(token).value) == token
    decreases |token|
  {
    hide ScanPiece, RenderPiece, PieceOk;
    if token != [] {
      var p := ScanPiece(token).value;
      var n := |RenderPiece(p)|;
      ScanSound(token[n..]);
      assert token == token[..n] + token[n..];
      assert ([p] + Scan(token[n..]).value)[1..] == Scan(token[n..]).value;
    }
  }

  /** What expansion yields: the meaning of the only piece list that renders the token,
      provided token and meaning respect their caps. */
  function ExpandSpec(token: string): Option<string> {
    if |token| == 0 || |token| > MAXIMUM_TOKEN_BYTES then None
    else
      match Scan(token)
      case None => None
      case Some(ps) => if |Meaning(ps)| <= MAXIMUM_EXPANDED_BYTES then Some(Meaning(ps)) else None
  }

  /** Expansion accepts exactly the renderings of piece lists, within the caps. */
  lemma ExpandAcceptsExactly(token: string, text: string)
    ensures ExpandSpec(token) == Some(text) <==>
            0 < |token| <= MAXIMUM_TOKEN_BYTES && |text| <= MAXIMUM_EXPANDED_BYTES
            && exists ps :: PiecesOk(ps) && Render(ps) == token && Meaning(ps) == text
  {
    if ExpandSpec(token) == Some(text) {
      ScanSound(token);
    }
    if ps :| PiecesOk(ps) && Render(ps) == token && Meaning(ps) == text {
      ScanRender(ps);
    }
  }

  // ---------------------------------------------------------------- base64

  function Byte3(v0: nat, v1: nat, v2: nat, v3: nat): nat {
    ((v0 * 64 + v1) * 64 + v2) * 64 + v3
  }

  /** Section 4 of RFC 4648. */
  function Encode64(b: bytes): string {
    if b == [] then []
    else if |b| == 1 then [Digit(b[0] / 4), Digit(b[0] % 4 * 16), '=', '=']
    else if |b| == 2 then [Digit(b[0] / 4), Digit(b[0] % 4 * 16 + b[1] / 16), Digit(b[1] % 16 * 4), '=']
    else [Digit(b[0] / 4), Digit(b[0] % 4 * 16 + b[1] / 16), Digit(b[1] % 16 * 4 + b[2] / 64), Digit(b[2] % 64)]
         + Encode64(b[3..])
  }

  function Padding(text: string): nat
    requires |text| >= 2
  {
    (if text[|text| - 1] == '=' then 1 else 0) + (if text[|text| - 2] == '=' then 1 else 0)
  }

  predicate WellPadded(text: string) {
    && |text| >= 4 && |text| % 4 == 0
    && (forall i :: 0 <= i < |text| - Padding(text) ==> text[i] != '=' && Base64Value(text[i]) >= 0)
    && (forall i :: |text| - Padding(text) <= i < |text| ==> text[i] == '=')
  }

  function Bits(c: char): (v: nat)
    ensures v < 64
  {
    if c == '=' then 0 else Max(0, Base64Value(c))
  }

  function Block(text: string): nat
    requires |text| >= 4
  {
    Byte3(Bits(text[0]), Bits(text[1]), Bits(text[2]), Bits(text[3]))
  }

  /** Three bytes for every four characters, '=' counting as zero bits. */
  function AllBytes(text: string): (b: bytes)
    requires |text| % 4 == 0
    ensures |b| == |text| / 4 * 3
  {
    if text == [] then []
    else [ByteOf(Block(text) / 65536), ByteOf(Block(text) / 256), ByteOf(Block(text))] + AllBytes(text[4..])
  }

  function DecodedSize(text: string): int
    requires |text| >= 2
  {
    |text| / 4 * 3 - Padding(text)
  }

  function DecodeSpec(text: string): Option<bytes> {
    if WellPadded(text) && DecodedSize(text) <= MAXIMUM_DECODED_BYTES then Some(AllBytes(text)[..DecodedSize(text)])
    else None
  }

  lemma TripleRoundTrip(b0: byte, b1: byte, b2: byte)
    ensures Byte3(b0 / 4, b0 % 4 * 16 + b1 / 16, b1 % 16 * 4 + b2 / 64, b2 % 64) == b0 * 65536 + b1 * 256 + b2
  {
  }

  lemma BlockBytes(b0: byte, b1: byte, b2: byte)
    ensures var x := b0 * 65536 + b1 * 256 + b2;
      ByteOf(x / 65536) == b0 && ByteOf(x / 256) == b1 && ByteOf(x) == b2
  {
  }

  lemma SameBlock(s: string, t: string)
    requires |s| >= 4 && |t| >= 4 && s[0] == t[0] && s[1] == t[1] && s[2] == t[2] && s[3] == t[3]
    ensures Block(s) == Block(t)
  {
  }

  /** A full block in front of well-padded text. */
  lemma PrependBlock(head: string, rest: string)
    requires |head| == 4 && WellPadded(rest)
    requires forall i :: 0 <= i < 4 ==> head[i] != '=' && Base64Value(head[i]) >= 0
    ensures WellPadded(head + rest) && Padding(head + rest) == Padding(rest)
    ensures AllBytes(head + rest) == AllBytes(head) + AllBytes(rest)
  {
    hide Base64Value, Block, Byte3;
    var text := head + rest;
    assert text[4..] == rest && head[4..] == [];
    SameBlock(text, head);
    forall i | 0 <= i < |text| - Padding(rest) ensures text[i] != '=' && Base64Value(text[i]) >= 0 {
      assert text[i] == if i < 4 then head[i] else rest[i - 4];
    }
  }

  lemma {:induction false} EncodedIsWellPadded(b: bytes)
    requires b != []
    ensures WellPadded(Encode64(b)) && |Encode64(b)| == (|b| + 2) / 3 * 4
    ensures AllBytes(Encode64(b))[..|b|] == b && DecodedSize(Encode64(b)) == |b|
  {
    hide Digit, Base64Value, WellPadded, AllBytes;
    if |b| <= 3 {
      EncodedOneBlock(b);
    } else {
      EncodedIsWellPadded(b[3..]);
      EncodedOneBlock(b[..3]);
      EncodeSplits(b);
      PrependBlock(Encode64(b[..3]), Encode64(b[3..]));
      assert b == b[..3] + b[3..];
    }
  }

  lemma EncodeSplits(b: bytes)
    requires |b| > 3
    ensures Encode64(b) == Encode64(b[..3]) + Encode64(b[3..])
    ensures |Encode64(b[..3])| == 4
  {
    hide Digit;
    assert b[..3][3..] == [];
  }

  lemma EncodedOneBlock(b: bytes)
    requires 0 < |b| <= 3
    ensures var text := Encode64(b);
      && |text| == 4 && WellPadded(text) && AllBytes(text)[..|b|] == b && Padding(text) == 3 - |b|
      && (|b| == 3 ==> AllBytes(text) == b && forall i :: 0 <= i < 4 ==> text[i] != '=' && Base64Value(text[i]) >= 0)
  {
    hide Digit, Base64Value, AllBytes, Bits;
    var b1, b2 := if |b| > 1 then b[1] else 0, if |b| > 2 then b[2] else 0;
    DigitBits(b[0] / 4);
    DigitBits(b[0] % 4 * 16 + b1 / 16);
    DigitBits(b1 % 16 * 4 + b2 / 64);
    DigitBits(b2 % 64);
    assert Bits('=') == 0 by {
      PadBits();
    }
    var text := Encode64(b);
    OneBlock(text, b[0], b1, b2);
    assert AllBytes(text)[..|b|] == b;
  }

  lemma DigitBits(v: nat)
    requires v < 64
    ensures Digit(v) != '=' && Base64Value(Digit(v)) == v && Bits(Digit(v)) == v
  {
    DigitRoundTrip(v);
  }

  lemma PadBits()
    ensures Bits('=') == 0
  {
  }

  /** The three bytes of a block whose digits carry them. */
  lemma OneBlock(text: string, b0: byte, b1: byte, b2: byte)
    requires |text| == 4
    requires Bits(text[0]) == b0 / 4 && Bits(text[1]) == b0 % 4 * 16 + b1 / 16
    requires Bits(text[2]) == b1 % 16 * 4 + b2 / 64 && Bits(text[3]) == b2 % 64
    ensures AllBytes(text) == [b0, b1, b2]
  {
    hide Bits, Byte3;
    TripleRoundTrip(b0, b1, b2);
    BlockBytes(b0, b1, b2);
    assert text[4..] == [];
  }

  /** Decoding inverts encoding, for every byte string within the cap. */
  lemma DecodeInvertsEncode(b: bytes)
    requires 0 < |b| <= MAXIMUM_DECODED_BYTES
    ensures DecodeSpec(Encode64(b)) == Some(b)
  {
    EncodedIsWellPadded(b);
  }

  /** The unused low bits of the last digit are zero. */
  predicate Canonical(text: string)
    requires |text| >= 4
  {
    && (Padding(text) == 1 ==> Bits(text[|text| - 2]) % 4 == 0)
    && (Padding(text) == 2 ==> Bits(text[|text| - 3]) % 16 == 0)
  }

  /** The decoder ignores those bits, so it is not injective on accepted text. */
  lemma DecoderAcceptsNonCanonicalText()
    ensures DecodeSpec("QR==") == DecodeSpec("QQ==") == Some([65])
  {
    assert AllBytes("QR==") == [65, 16, 0] && AllBytes("QQ==") == [65, 0, 0];
    assert AllBytes("QR==")[..1] == [65] && AllBytes("QQ==")[..1] == [65];
  }

  lemma JoinBlock(v0: nat, v1: nat, v2: nat, v3: nat)
    requires v0 < 64 && v1 < 64 && v2 < 64 && v3 < 64
    ensures var b0, b1, b2 := v0 * 4 + v1 / 16, v1 % 16 * 16 + v2 / 4, v2 % 4 * 64 + v3;
      && b0 / 4 == v0 && b0 % 4 * 16 == v1 - v1 % 16 && b0 % 4 * 16 + b1 / 16 == v1
      && b1 % 16 * 4 == v2 - v2 % 4 && b1 % 16 * 4 + b2 / 64 == v2 && b2 % 64 == v3
  {
  }

  lemma DigitInjective(a: nat, b: nat)
    requires a < 64 && b < 64
    ensures Digit(a) == Digit(b) ==> a == b
  {
    DigitRoundTrip(a);
    DigitRoundTrip(b);
  }

  lemma BitsRoundTrip(c: char)
    requires c != '=' && Base64Value(c) >= 0
    ensures Bits(c) < 64 && Digit(Bits(c)) == c
  {
    ValueRoundTrip64(c);
  }

  lemma ReencodeBlock(text: string)
    requires |text| == 4 && WellPadded(text)
    ensures Encode64(AllBytes(text)[..3 - Padding(text)]) == text <==> Canonical(text)
  {
    hide Digit, Base64Value, Byte3, Bits;
    assert text[0] != '=' && text[1] != '=';
    BitsRoundTrip(text[0]);
    BitsRoundTrip(text[1]);
    if text[2] != '=' {
      BitsRoundTrip(text[2]);
    }
    if text[3] != '=' {
      BitsRoundTrip(text[3]);
    }
    ReencodeBits(text, Bits(text[0]), Bits(text[1]), Bits(text[2]), Bits(text[3]));
  }

  lemma ReencodeBits(text: string, v0: nat, v1: nat, v2: nat, v3: nat)
    requires |text| == 4 && WellPadded(text)
    requires Bits(text[0]) == v0 < 64 && Bits(text[1]) == v1 < 64 && Bits(text[2]) == v2 < 64
    requires Bits(text[3]) == v3 < 64
    requires Digit(v0) == text[0] && Digit(v1) == text[1]
    requires text[2] != '=' ==> Digit(v2) == text[2]
    requires text[3] != '=' ==> Digit(v3) == text[3]
    ensures Encode64(AllBytes(text)[..3 - Padding(text)]) == text <==> Canonical(text)
  {
    hide Digit, Base64Value, Byte3, Bits, WellPadded, AllBytes;
    JoinBlock(v0, v1, v2, v3);
    DigitInjective(v2, v2 - v2 % 4);
    DigitInjective(v1, v1 - v1 % 16);
    PaddingShape(text);
    var b0, b1, b2 := v0 * 4 + v1 / 16, v1 % 16 * 16 + v2 / 4, v2 % 4 * 64 + v3;
    OneBlock(text, b0, b1, b2);
    assert text == [text[0], text[1], text[2], text[3]];
    if Padding(text) == 0 {
      assert AllBytes(text)[..3] == [b0, b1, b2] && [b0, b1, b2][3..] == [];
    } else if Padding(text) == 1 {
      assert AllBytes(text)[..2] == [b0, b1];
    } else {
      assert AllBytes(text)[..1] == [b0];
    }
  }

  lemma PaddingShape(text: string)
    requires |text| == 4 && WellPadded(text)
    ensures Padding(text) == 0 ==> text[2] != '=' && text[3] != '='
    ensures Padding(text) == 1 ==> text[2] != '=' && text[3] == '='
    ensures Padding(text) == 2 ==> text[2] == '=' && text[3] == '='
  {
    hide Base64Value;
  }

  /** Re-encoding what was decoded gives the text back exactly when it was canonical. */
  lemma {:induction false} ReencodeExactly(text: string)
    requires WellPadded(text)
    ensures Encode64(AllBytes(text)[..DecodedSize(text)]) == text <==> Canonical(text)
    decreases |text|
  {
    hide Base64Value, AllBytes, Encode64, Bits;
    if |text| == 4 {
      ReencodeBlock(text);
    } else {
      TailIsWellPadded(text);
      ReencodeExactly(text[4..]);
      ReencodeBlock(text[..4]);
      AllBytesSplit(text);
      var front, back := AllBytes(text[..4]), AllBytes(text[4..])[..DecodedSize(text[4..])];
      assert front[..3] == front;
      ReencodeJoin(front, back, text);
    }
  }

  lemma TailIsWellPadded(text: string)
    requires WellPadded(text) && |text| > 4
    ensures WellPadded(text[4..]) && Padding(text[4..]) == Padding(text)
    ensures WellPadded(text[..4]) && Padding(text[..4]) == 0
    ensures Canonical(text[..4]) && (Canonical(text[4..]) <==> Canonical(text))
  {
    hide Base64Value, Bits;
    var rest := text[4..];
    forall i | 0 <= i < |rest| ensures rest[i] == text[i + 4] {
    }
  }

  lemma AllBytesSplit(text: string)
    requires WellPadded(text) && |text| > 4
    ensures AllBytes(text)[..DecodedSize(text)] == AllBytes(text[..4]) + AllBytes(text[4..])[..DecodedSize(text) - 3]
  {
    hide Base64Value, Bits, Byte3, Block;
    SameBlock(text, text[..4]);
    assert text[..4][4..] == [];
  }

  lemma ReencodeJoin(front: bytes, back: bytes, text: string)
    requires |front| == 3 && back != [] && |text| > 4
    requires Encode64(front) == text[..4]
    ensures Encode64(front + back) == text <==> Encode64(back) == text[4..]
  {
    hide Encode64;
    EncodeSplits(front + back);
    assert (front + back)[..3] == front && (front + back)[3..] == back;
    assert text == text[..4] + text[4..];
    if Encode64(front + back) == text {
      SplitEqual(Encode64(front), Encode64(back), text[..4], text[4..]);
    }
  }
}

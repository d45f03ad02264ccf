/** The decoder of state tokens as the loops of the source: expansion of runs and base64
    decoding. */
module StateToken {
  import opened Common
  import opened Bytes
  import opened TokenModel

  // ---------------------------------------------------------------- expansion

  function Prepend(ps: seq<Piece>, rest: Option<seq<Piece>>): Option<seq<Piece>> {
    match rest
    case None => None
    case Some(r) => Some(ps + r)
  }

  lemma {:induction false} MeaningAppend(ps: seq<Piece>, qs: seq<Piece>)
    ensures Meaning(ps + qs) == Meaning(ps) + Meaning(qs)
  {
    if ps == [] {
      assert ps + qs == qs;
    } else {
      assert (ps + qs)[1..] == ps[1..] + qs;
      MeaningAppend(ps[1..], qs);
    }
  }

  /** One more piece has been read. */
  lemma ScanStep(token: string, index: nat, ps: seq<Piece>, p: Piece)
    requires index < |token| && Scan(token) == Prepend(ps, Scan(token[index..]))
    requires ScanPiece(token[index..]) == Some(p)
    ensures Scan(token) == Prepend(ps + [p], Scan(token[index + |RenderPiece(p)|..]))
    ensures Meaning(ps + [p]) == Meaning(ps) + MeaningOf(p)
  {
    hide ScanPiece, RenderPiece, MeaningOf;
    var tail := Scan(token[index + |RenderPiece(p)|..]);
    assert Scan(token[index..]) == Prepend([p], tail) by {
      assert token[index..][|RenderPiece(p)|..] == token[index + |RenderPiece(p)|..];
    }
    hide Scan;
    PrependTwice(ps, [p], tail);
    MeaningAppend(ps, [p]);
    assert Meaning([p]) == MeaningOf(p) + Meaning([p][1..]);
    assert [p][1..] == [];
  }

  lemma PrependTwice(a: seq<Piece>, b: seq<Piece>, rest: Option<seq<Piece>>)
    ensures Prepend(a, Prepend(b, rest)) == Prepend(a + b, rest)
  {
    if rest.Some? {
      assert a + (b + rest.value) == (a + b) + rest.value;
    }
  }

  /** What the expansion loop knows: the pieces read so far, and what is left. */
  ghost predicate Reading(token: string, index: nat, ps: seq<Piece>, text: string) {
    && index <= |token|
    && Scan(token) == Prepend(ps, Scan(token[index..]))
    && text == Meaning(ps) && |text| <= MAXIMUM_EXPANDED_BYTES
  }

  lemma ReadingStarts(token: string)
    ensures Reading(token, 0, [], "")
  {
    hide ScanPiece, RenderPiece;
    assert token[0..] == token;
    if Scan(token).Some? {
      assert [] + Scan(token).value == Scan(token).value;
    }
  }

  lemma ReadingEnds(token: string, ps: seq<Piece>, text: string)
    requires Reading(token, |token|, ps, text) && 0 < |token| <= MAXIMUM_TOKEN_BYTES
    ensures ExpandSpec(token) == Some(text)
  {
    assert token[|token|..] == "";
    assert ps + [] == ps;
  }

  /** An unreadable piece spoils the whole token. */
  lemma ReadingFails(token: string, index: nat, ps: seq<Piece>, text: string)
    requires Reading(token, index, ps, text) && index < |token| && ScanPiece(token[index..]) == None
    ensures ExpandSpec(token) == None
  {
  }

  lemma PieceIsInside(token: string, index: nat, p: Piece)
    requires index < |token| && ScanPiece(token[index..]) == Some(p)
    ensures 0 < |RenderPiece(p)| <= |token| - index
  {
  }

  lemma ReadingGoesOn(token: string, index: nat, ps: seq<Piece>, text: string, p: Piece)
    requires Reading(token, index, ps, text) && index < |token| && ScanPiece(token[index..]) == Some(p)
    ensures |text + MeaningOf(p)| <= MAXIMUM_EXPANDED_BYTES ==>
      Reading(token, index + |RenderPiece(p)|, ps + [p], text + MeaningOf(p))
    ensures |text + MeaningOf(p)| > MAXIMUM_EXPANDED_BYTES ==> ExpandSpec(token) == None
    ensures 0 < |RenderPiece(p)| <= |token| - index
  {
    hide ScanPiece, RenderPiece, MeaningOf, Scan, Meaning, ExpandSpec;
    PieceIsInside(token, index, p);
    ScanStep(token, index, ps, p);
    if |text + MeaningOf(p)| > MAXIMUM_EXPANDED_BYTES {
      CapIsFinal(token, index + |RenderPiece(p)|, ps + [p]);
    }
  }

  /** Once the pieces read so far exceed the cap, the whole token does. */
  lemma CapIsFinal(token: string, index: nat, ps: seq<Piece>)
    requires index <= |token| && Scan(token) == Prepend(ps, Scan(token[index..]))
    requires |Meaning(ps)| > MAXIMUM_EXPANDED_BYTES
    ensures ExpandSpec(token) == None
  {
    hide Scan, Meaning;
    match Scan(token[index..]) {
      case None =>
      case Some(rest) => MeaningAppend(ps, rest);
    }
  }

  lemma CountStep(multiplier: nat, v: int, rest: int)
    ensures multiplier * (v + 64 * rest) == v * multiplier + (multiplier * 64) * rest
  {
  }

  lemma CountOfRest(digits: string, k: nat)
    requires k < |digits|
    ensures Count(digits[k..]) == Base64Value(digits[k]) + 64 * Count(digits[k + 1..])
  {
    assert digits[k..][1..] == digits[k + 1..];
  }

  lemma CountOfNothing(digits: string)
    ensures Count(digits[|digits|..]) == 0
  {
  }

  /** The digit loop of a compressed run; None when a digit is invalid. */
  method ReadRun(token: string, start: nat, runDigits: nat) returns (count: Option<nat>)
    requires start + runDigits <= |token|
    ensures count == if AllDigits(token[start..start + runDigits])
                     then Some(Max(0, Count(token[start..start + runDigits]))) else None
  {
    hide Base64Value, Count;
    ghost var digits := token[start..start + runDigits];
    var total, multiplier: nat := 0, 1;
    assert digits[0..] == digits;
    for digit := 0 to runDigits
      invariant total >= 0 && AllDigits(digits[..digit])
      invariant total + multiplier * Count(digits[digit..]) == Count(digits)
    {
      var decoded := Base64Value(token[start + digit]);
      assert token[start + digit] == digits[digit];
      if decoded < 0 {
        return None;
      }
      CountOfRest(digits, digit);
      CountStep(multiplier, decoded, Count(digits[digit + 1..]));
      total := total + decoded * multiplier;
      multiplier := multiplier * 64;
    }
    assert digits[..runDigits] == digits;
    CountOfNothing(digits);
    return Some(total);
  }

  lemma TokenSize(token: string)
    ensures |token| == 0 || |token| > MAXIMUM_TOKEN_BYTES ==> ExpandSpec(token) == None
  {
  }

  method ExpandToken(token: string) returns (expanded: Option<string>)
    ensures expanded == ExpandSpec(token)
  {
    hide *;
    TokenSize(token);
    if |token| == 0 || |token| > MAXIMUM_TOKEN_BYTES {
      return None;
    }
    var text, index := "", 0;
    ghost var pieces: seq<Piece> := [];
    ReadingStarts(token);
    while index < |token|
      invariant index <= |token| && Reading(token, index, pieces, text)
    {
      var piece := NextPiece(token, index);
      if piece.None? {
        ReadingFails(token, index, pieces, text);
        return None;
      }
      ReadingGoesOn(token, index, pieces, text, piece.value);
      pieces := pieces + [piece.value];
      text := text + MeaningOf(piece.value);
      if |text| > MAXIMUM_EXPANDED_BYTES {
        return None;
      }
      index := index + |RenderPiece(piece.value)|;
    }
    ReadingEnds(token, pieces, text);
    return Some(text);
  }

  /** One turn of the expansion loop: a run with its digits, or a plain character. */
  method NextPiece(token: string, index: nat) returns (piece: Option<Piece>)
    requires index < |token|
    ensures piece == ScanPiece(token[index..])
  {
    hide Base64Value, Count;
    var value := token[index];
    var runDigits := RunDigits(value);
    ghost var rest := token[index..];
    if runDigits > 0 {
      if index + runDigits >= |token| {
        return None;
      }
      assert token[index + 1..index + 1 + runDigits] == rest[1..1 + runDigits];
      var count := ReadRun(token, index + 1, runDigits);
      if count.None? || count.value == 0 {
        return None;
      }
      return Some(Run(token[index + 1..index + 1 + runDigits]));
    }
    if value != '=' && Base64Value(value) < 0 {
      return None;
    }
    return Some(Plain(value));
  }

  /** Every base64 text has a token: each 'A' becomes a run of one. */
  function Compress(text: string): seq<Piece> {
    if text == [] then [] else [if text[0] == 'A' then Run("B") else Plain(text[0])] + Compress(text[1..])
  }

  lemma {:induction false} CompressMeans(text: string)
    requires forall i :: 0 <= i < |text| ==> text[i] == '=' || Base64Value(text[i]) >= 0
    ensures PiecesOk(Compress(text)) && Meaning(Compress(text)) == text
  {
    if text != [] {
      CompressMeans(text[1..]);
      assert Count("B") == 1;
      assert As(1) == "A";
      assert text == [text[0]] + text[1..];
    }
  }

  // ---------------------------------------------------------------- decoding

  lemma {:induction false} AllBytesAt(text: string, k: nat)
    requires |text| % 4 == 0 && 4 * k < |text|
    ensures AllBytes(text)[3 * k..3 * k + 3]
            == [ByteOf(Block(text[4 * k..]) / 65536), ByteOf(Block(text[4 * k..]) / 256), ByteOf(Block(text[4 * k..]))]
  {
    hide Block;
    if k == 0 {
      assert text[0..] == text;
    } else {
      AllBytesAt(text[4..], k - 1);
      assert text[4..][4 * (k - 1)..] == text[4 * k..];
      assert AllBytes(text)[3 * k..3 * k + 3] == AllBytes(text[4..])[3 * (k - 1)..3 * (k - 1) + 3];
    }
  }

  method CheckPadding(text: string) returns (ok: bool)
    requires |text| >= 4 && |text| % 4 == 0
    ensures ok == WellPadded(text)
  {
    hide Base64Value;
    var padding := 0;
    if text[|text| - 1] == '=' {
      padding := padding + 1;
    }
    if text[|text| - 2] == '=' {
      padding := padding + 1;
    }
    for index := 0 to |text| - padding
      invariant forall i :: 0 <= i < index ==> text[i] != '=' && Base64Value(text[i]) >= 0
    {
      if text[index] == '=' || Base64Value(text[index]) < 0 {
        return false;
      }
    }
    for index := |text| - padding to |text|
      invariant forall i :: |text| - padding <= i < index ==> text[i] == '='
    {
      if text[index] != '=' {
        return false;
      }
    }
    return true;
  }

  method DecodeBase64(text: string) returns (decoded: Option<bytes>)
    ensures decoded == DecodeSpec(text)
  {
    if |text| < 4 || |text| % 4 != 0 {
      return None;
    }
    var padded := CheckPadding(text);
    if !padded {
      return None;
    }
    var size := |text| / 4 * 3 - Padding(text);
    if size == 0 || size > MAXIMUM_DECODED_BYTES {
      return None;
    }
    var output := FillBytes(text, size);
    return Some(output);
  }

  lemma WellPaddedCharacters(text: string)
    requires WellPadded(text)
    ensures |text| % 4 == 0 && forall i :: 0 <= i < |text| ==> text[i] == '=' || Base64Value(text[i]) >= 0
  {
    hide Base64Value;
    forall i | 0 <= i < |text| ensures text[i] == '=' || Base64Value(text[i]) >= 0 {
      assert i < |text| - Padding(text) || text[i] == '=';
    }
  }

  /** The output loop: three bytes per block, stopping at the decoded size. */
  method FillBytes(text: string, size: nat) returns (decoded: bytes)
    requires WellPadded(text) && size <= |text| / 4 * 3
    ensures decoded == AllBytes(text)[..size]
  {
    hide WellPadded, AllBytes, Block;
    WellPaddedCharacters(text);
    decoded := [];
    var index := 0;
    while index < |text|
      invariant index <= |text| && index % 4 == 0 && |text| % 4 == 0
      invariant decoded == AllBytes(text)[..Min(size, index / 4 * 3)]
      decreases |text| - index
    {
      var block := BlockValue(text, index);
      ghost var k := index / 4;
      AllBytesAt(text, k);
      assert index == 4 * k && (index + 4) / 4 == k + 1;
      ghost var group := AllBytes(text)[3 * k..3 * k + 3];
      assert group[0] == AllBytes(text)[3 * k] && group[1] == AllBytes(text)[3 * k + 1]
          && group[2] == AllBytes(text)[3 * k + 2];
      if |decoded| < size {
        decoded := decoded + [ByteOf(block / 65536)];
      }
      if |decoded| < size {
        decoded := decoded + [ByteOf(block / 256)];
      }
      if |decoded| < size {
        decoded := decoded + [ByteOf(block)];
      }
      index := index + 4;
    }
  }

  /** Four digits shifted into one 24-bit block. */
  method BlockValue(text: string, index: nat) returns (block: nat)
    requires index + 4 <= |text|
    requires forall i :: index <= i < index + 4 ==> text[i] == '=' || Base64Value(text[i]) >= 0
    ensures block == Block(text[index..])
  {
    hide Base64Value;
    block := 0;
    for digit := 0 to 4
      invariant digit == 0 ==> block == 0
      invariant digit == 1 ==> block == Bits(text[index])
      invariant digit == 2 ==> block == Bits(text[index]) * 64 + Bits(text[index + 1])
      invariant digit == 3 ==> block == (Bits(text[index]) * 64 + Bits(text[index + 1])) * 64 + Bits(text[index + 2])
      invariant digit == 4 ==> block == Block(text[index..])
    {
      var value := text[index + digit];
      var base64 := if value == '=' then 0 else Base64Value(value);
      block := block * 64 + base64;
    }
  }

  /** The whole codec: any token that renders base64 text of b, however its runs of 'A'
      were chosen, expands to that text and decodes to b. */
  lemma TokenRoundTrip(b: bytes, ps: seq<Piece>)
    requires 0 < |b| <= MAXIMUM_DECODED_BYTES
    requires PiecesOk(ps) && Meaning(ps) == Encode64(b) && |Render(ps)| <= MAXIMUM_TOKEN_BYTES
    ensures ExpandSpec(Render(ps)) == Some(Encode64(b)) && DecodeSpec(Encode64(b)) == Some(b)
  {
    hide Encode64, Meaning, PieceOk;
    EncodedIsWellPadded(b);
    DecodeInvertsEncode(b);
    NonEmptyRender(ps);
    ScanRender(ps);
  }

  lemma NonEmptyRender(ps: seq<Piece>)
    requires Meaning(ps) != []
    ensures Render(ps) != []
  {
  }
}

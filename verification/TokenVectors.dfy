/** The token format against its standard: the alphabet as RFC 4648 prints it, the test vectors of its
    section 10, and what each kind of compressed run stands for. */
module TokenVectors {
  import opened Common
  import opened Bytes
  import opened TokenModel

  const UPPER := "ABCDEFGHIJKLMNOPQRSTUVWXYZ"
  const LOWER := "abcdefghijklmnopqrstuvwxyz"
  const FIGURES := "0123456789"
  const LAST := "+/"

  /** Table 1 of RFC 4648. */
  function AlphabetAt(v: nat): char
    requires v < 64
  {
    if v < 26 then UPPER[v] else if v < 52 then LOWER[v - 26] else if v < 62 then FIGURES[v - 52] else LAST[v - 62]
  }

  lemma UpperLetters(v: nat)
    requires v < 26
    ensures UPPER[v] == ('A' as int + v) as char
  {
  }

  lemma LowerLetters(v: nat)
    requires v < 26
    ensures LOWER[v] == ('a' as int + v) as char
  {
  }

  lemma Figures(v: nat)
    requires v < 10
    ensures FIGURES[v] == ('0' as int + v) as char
  {
  }

  /** The digit of a value is the character the table prints for it, and a character has that value
      and no other. */
  lemma AlphabetIsStandard(v: nat, c: char)
    requires v < 64
    ensures Digit(v) == AlphabetAt(v) && (Base64Value(c) == v <==> c == AlphabetAt(v))
  {
    DigitRoundTrip(v);
    if v < 26 {
      UpperLetters(v);
    } else if v < 52 {
      LowerLetters(v - 26);
    } else if v < 62 {
      Figures(v - 52);
    }
    if Base64Value(c) == v {
      ValueRoundTrip64(c);
    }
  }

  /** The test vectors of section 10 of RFC 4648: "f", "fo", "foo" and so on to "foobar". */
  lemma StandardVectors()
    ensures Encode64([102]) == "Zg==" && Encode64([102, 111]) == "Zm8="
    ensures Encode64([102, 111, 111]) == "Zm9v" && Encode64([102, 111, 111, 98]) == "Zm9vYg=="
    ensures Encode64([102, 111, 111, 98, 97]) == "Zm9vYmE="
    ensures Encode64([102, 111, 111, 98, 97, 114]) == "Zm9vYmFy"
  {
    hide Digit, Encode64;
    ShortVectors();
    FirstThree([]);
    FirstThree([98]);
    FirstThree([98, 97]);
    FirstThree([98, 97, 114]);
    assert [102, 111, 111] + [] == [102, 111, 111] && "Zm9v" + "" == "Zm9v";
    assert [102, 111, 111] + [98] == [102, 111, 111, 98] && "Zm9v" + "Yg==" == "Zm9vYg==";
    assert [102, 111, 111] + [98, 97] == [102, 111, 111, 98, 97] && "Zm9v" + "YmE=" == "Zm9vYmE=";
    assert [102, 111, 111] + [98, 97, 114] == [102, 111, 111, 98, 97, 114] && "Zm9v" + "YmFy" == "Zm9vYmFy";
  }

  lemma ShortVectors()
    ensures Encode64([]) == "" && Encode64([102]) == "Zg==" && Encode64([102, 111]) == "Zm8="
    ensures Encode64([98]) == "Yg==" && Encode64([98, 97]) == "YmE=" && Encode64([98, 97, 114]) == "YmFy"
  {
    assert [98, 97, 114][3..] == [];
  }

  lemma FirstThree(rest: bytes)
    ensures Encode64([102, 111, 111] + rest) == "Zm9v" + Encode64(rest)
  {
    hide Digit;
    FooDigits();
    var b := [102, 111, 111] + rest;
    assert b[3..] == rest;
    assert b[0] == 102 && b[1] == 111 && b[2] == 111;
  }

  lemma FooDigits()
    ensures Digit(25) == 'Z' && Digit(38) == 'm' && Digit(61) == '9' && Digit(47) == 'v'
  {
  }

  /** A run stands for as many letters A as its digits say, least significant first: one digit after
      an A, two after a minus sign, three after an asterisk.  A run of none is refused. */
  lemma RunsStandFor(a: nat, b: nat, c: nat)
    requires a < 64 && b < 64 && c < 64
    ensures ExpandSpec(['A', AlphabetAt(a)]) == Letters(a)
    ensures ExpandSpec(['-', AlphabetAt(a), AlphabetAt(b)]) == Letters(a + 64 * b)
    ensures ExpandSpec(['*', AlphabetAt(a), AlphabetAt(b), AlphabetAt(c)]) == Letters(a + 64 * b + 4096 * c)
  {
    hide Base64Value, Digit, AlphabetAt, ExpandSpec, Count;
    AlphabetIsStandard(a, AlphabetAt(a));
    AlphabetIsStandard(b, AlphabetAt(b));
    AlphabetIsStandard(c, AlphabetAt(c));
    CountDigits([AlphabetAt(a), AlphabetAt(b), AlphabetAt(c)]);
    OneRun('A', [AlphabetAt(a)]);
    OneRun('-', [AlphabetAt(a), AlphabetAt(b)]);
    OneRun('*', [AlphabetAt(a), AlphabetAt(b), AlphabetAt(c)]);
    assert ['A'] + [AlphabetAt(a)] == ['A', AlphabetAt(a)];
    assert ['-'] + [AlphabetAt(a), AlphabetAt(b)] == ['-', AlphabetAt(a), AlphabetAt(b)];
    assert ['*'] + [AlphabetAt(a), AlphabetAt(b), AlphabetAt(c)]
        == ['*', AlphabetAt(a), AlphabetAt(b), AlphabetAt(c)];
  }

  function Letters(n: nat): Option<string> {
    if n > 0 then Some(seq(n, i => 'A')) else None
  }

  lemma CountDigits(d: string)
    requires |d| == 3
    ensures Count([d[0]]) == Base64Value(d[0]) && Count([d[0], d[1]]) == Base64Value(d[0]) + 64 * Base64Value(d[1])
    ensures Count([d[0], d[1], d[2]]) == Base64Value(d[0]) + 64 * Base64Value(d[1]) + 4096 * Base64Value(d[2])
  {
    hide Base64Value, Count;
    CountFirst(d[0], []);
    CountFirst(d[0], [d[1]]);
    CountFirst(d[0], [d[1], d[2]]);
    CountFirst(d[1], []);
    CountFirst(d[1], [d[2]]);
    CountFirst(d[2], []);
    assert [d[0]] + [d[1], d[2]] == [d[0], d[1], d[2]] && [d[0]] + [d[1]] == [d[0], d[1]];
    assert [d[1]] + [d[2]] == [d[1], d[2]];
  }

  lemma CountFirst(c: char, rest: string)
    ensures Count([c] + rest) == Base64Value(c) + 64 * Count(rest) && Count([]) == 0 && [c] + [] == [c]
  {
    assert ([c] + rest)[1..] == rest;
  }

  /** A token of one run. */
  lemma OneRun(marker: char, digits: string)
    requires RunDigits(marker) == |digits| > 0 && AllDigits(digits) && 0 <= Count(digits) <= MAXIMUM_EXPANDED_BYTES
    ensures ExpandSpec([marker] + digits) == Letters(Count(digits))
  {
    hide AllDigits, Base64Value, Count;
    var token, run := [marker] + digits, Run(digits);
    assert token[1..1 + |digits|] == digits;
    if Count(digits) > 0 {
      assert Marker(|digits|) == marker && RenderPiece(run) == token;
      Alone(token, run);
    }
  }

  lemma Alone(token: string, p: Piece)
    requires 0 < |token| <= MAXIMUM_TOKEN_BYTES && RenderPiece(p) == token && ScanPiece(token) == Some(p)
    requires |MeaningOf(p)| <= MAXIMUM_EXPANDED_BYTES
    ensures ExpandSpec(token) == Some(MeaningOf(p))
  {
    hide RenderPiece, MeaningOf, ScanPiece;
    assert token[|token|..] == [] && Scan([]) == Some([]);
    assert Scan(token) == Some([p] + []) && [p] + [] == [p];
    assert [p][1..] == [] && Meaning([]) == [] && Meaning([p]) == MeaningOf(p) + Meaning([p][1..]);
    assert MeaningOf(p) + [] == MeaningOf(p);
  }

  /** Every other character of the alphabet, and the padding, stands for itself. */
  lemma OthersStandForThemselves(c: char)
    ensures ExpandSpec([c])
         == if c != 'A' && (c == '=' || exists v: nat :: v < 64 && c == AlphabetAt(v)) then Some([c]) else None
  {
    hide Base64Value, Digit, AlphabetAt, ExpandSpec;
    if Base64Value(c) >= 0 {
      AlphabetIsStandard(Base64Value(c), c);
    }
    if v: nat :| v < 64 && c == AlphabetAt(v) {
      AlphabetIsStandard(v, c);
    }
    AloneIsPlain(c);
    MarkersBesideA(c);
  }

  lemma MarkersBesideA(c: char)
    ensures RunDigits(c) != 0 && c != 'A' ==> Base64Value(c) < 0 && c != '='
  {
  }

  lemma AloneIsPlain(c: char)
    ensures ExpandSpec([c]) == if RunDigits(c) == 0 && (c == '=' || Base64Value(c) >= 0) then Some([c]) else None
  {
    hide Base64Value;
    if ScanPiece([c]).Some? {
      Alone([c], Plain(c));
    }
  }
}

/** Licence keys (licensing/keys.py): QSR-XXXX-XXXX-XXXX-XXXX over the Crockford alphabet.
    Upper-casing and white space are those of ASCII text. */
module LicenseKeys {
  import opened Wrappers

  const PREFIX := "QSR"
  const ALPHABET := "0123456789ABCDEFGHJKMNPQRSTVWXYZ"
  const KEY_LENGTH := 16

  /** Two to the eightieth: five random bits for each character. */
  const ENTROPY := 0x1_0000_0000_0000_0000_0000

  /** The symbol at a position of the alphabet, and the position of a symbol. */
  function Symbol(v: nat): char
    requires v < 32
  {
    if v < 10 then ('0' as int + v) as char
    else if v < 18 then ('A' as int + v - 10) as char
    else if v < 20 then ('J' as int + v - 18) as char
    else if v < 22 then ('M' as int + v - 20) as char
    else if v < 27 then ('P' as int + v - 22) as char
    else ('V' as int + v - 27) as char
  }

  predicate IsSymbol(c: char) {
    '0' <= c <= '9' || 'A' <= c <= 'H' || 'J' <= c <= 'K' || 'M' <= c <= 'N' || 'P' <= c <= 'T' || 'V' <= c <= 'Z'
  }

  function Digit(c: char): nat
    requires IsSymbol(c)
  {
    if c <= '9' then c as int - '0' as int
    else if c <= 'H' then c as int - 'A' as int + 10
    else if c <= 'K' then c as int - 'J' as int + 18
    else if c <= 'N' then c as int - 'M' as int + 20
    else if c <= 'T' then c as int - 'P' as int + 22
    else c as int - 'V' as int + 27
  }

  lemma AlphabetIsSymbols(v: nat)
    requires v < 32
    ensures |ALPHABET| == 32 && ALPHABET[v] == Symbol(v)
    ensures IsSymbol(Symbol(v)) && Digit(Symbol(v)) == v
  {
  }

  lemma SymbolsAreAlphabet(c: char)
    ensures IsSymbol(c) <==> c in ALPHABET
    ensures IsSymbol(c) ==> Digit(c) < 32 && Symbol(Digit(c)) == c
  {
    if IsSymbol(c) {
      AlphabetIsSymbols(Digit(c));
    }
    if c in ALPHABET {
      var v :| 0 <= v < |ALPHABET| && ALPHABET[v] == c;
      AlphabetIsSymbols(v);
    }
  }

  // ---- reading typed input ----

  predicate IsSpace(c: char) {
    '\t' <= c <= '\r' || 28 as char <= c <= ' '
  }

  function Upper(c: char): char {
    if 'a' <= c <= 'z' then (c as int - 32) as char else c
  }

  /** The documented input equivalences of the alphabet. */
  function Confusable(c: char): char {
    if c == 'O' || c == 'o' then '0'
    else if c == 'I' || c == 'i' || c == 'L' || c == 'l' then '1'
    else c
  }

  function Fold(c: char): char {
    Confusable(Upper(c))
  }

  predicate IsSeparator(c: char) {
    IsSpace(c) || c == '-' || c == '_'
  }

  function StripLeft(s: string): string {
    if s != "" && IsSpace(s[0]) then StripLeft(s[1..]) else s
  }

  function StripRight(s: string): string {
    if s != "" && IsSpace(s[|s| - 1]) then StripRight(s[..|s| - 1]) else s
  }

  function FoldAll(s: string): string {
    if s == "" then "" else [Fold(s[0])] + FoldAll(s[1..])
  }

  function DropSeparators(s: string): string {
    if s == "" then ""
    else if IsSeparator(s[0]) then DropSeparators(s[1..])
    else [s[0]] + DropSeparators(s[1..])
  }

  predicate StartsWithPrefix(s: string) {
    |s| >= |PREFIX| && s[..|PREFIX|] == PREFIX
  }

  function FoldInput(raw: string): string {
    var cleaned := DropSeparators(FoldAll(StripRight(StripLeft(raw))));
    if StartsWithPrefix(cleaned) then cleaned[|PREFIX|..] else cleaned
  }

  predicate AllSymbols(s: string) {
    forall i :: 0 <= i < |s| ==> IsSymbol(s[i])
  }

  predicate IsBody(s: string) {
    |s| == KEY_LENGTH && AllSymbols(s)
  }

  function Format(body: string): string
    requires |body| == KEY_LENGTH
  {
    PREFIX + "-" + body[..4] + "-" + body[4..8] + "-" + body[8..12] + "-" + body[12..]
  }

  /** None where the original raises ValueError. */
  function Normalize(raw: string): Option<string> {
    var cleaned := FoldInput(raw);
    if raw == "" || !IsBody(cleaned) then None else Some(Format(cleaned))
  }

  /** A key in its one canonical spelling. */
  predicate Canonical(key: string) {
    |key| == 23 && IsBody(BodyOf(key)) && key == Format(BodyOf(key))
  }

  function BodyOf(key: string): string
    requires |key| == 23
  {
    key[4..8] + key[9..13] + key[14..18] + key[19..]
  }

  /** The pattern match also lets one line feed through at the end. */
  predicate IsWellFormed(candidate: string) {
    Canonical(candidate)
    || (candidate != "" && candidate[|candidate| - 1] == '\n' && Canonical(candidate[..|candidate| - 1]))
  }

  // ---- only the folded characters that are not separators matter ----

  function Bare(s: string): string {
    if s == "" then ""
    else if IsSeparator(s[0]) then Bare(s[1..])
    else [Fold(s[0])] + Bare(s[1..])
  }

  lemma FoldKeepsSeparators(c: char)
    ensures IsSeparator(Fold(c)) <==> IsSeparator(c)
    ensures IsSeparator(c) ==> Fold(c) == c
  {
  }

  lemma {:induction false} DropFoldIsBare(s: string)
    ensures DropSeparators(FoldAll(s)) == Bare(s)
  {
    if s != "" {
      FoldKeepsSeparators(s[0]);
      DropFoldIsBare(s[1..]);
    }
  }

  lemma {:induction false} BareConcat(a: string, b: string)
    ensures Bare(a + b) == Bare(a) + Bare(b)
  {
    if a == "" {
      assert a + b == b;
    } else {
      assert (a + b)[1..] == a[1..] + b;
      BareConcat(a[1..], b);
    }
  }

  lemma {:induction false} StripLeftIrrelevant(s: string)
    ensures Bare(StripLeft(s)) == Bare(s)
  {
    if s != "" && IsSpace(s[0]) {
      StripLeftIrrelevant(s[1..]);
    }
  }

  lemma {:induction false} StripRightIrrelevant(s: string)
    ensures Bare(StripRight(s)) == Bare(s)
  {
    if s != "" && IsSpace(s[|s| - 1]) {
      var init, last := s[..|s| - 1], s[|s| - 1];
      StripRightIrrelevant(init);
      assert s == init + [last];
      BareConcat(init, [last]);
    }
  }

  lemma FoldInputIsBare(raw: string)
    ensures FoldInput(raw) == if StartsWithPrefix(Bare(raw)) then Bare(raw)[|PREFIX|..] else Bare(raw)
  {
    DropFoldIsBare(StripRight(StripLeft(raw)));
    StripRightIrrelevant(StripLeft(raw));
    StripLeftIrrelevant(raw);
  }

  lemma SameBareSameKey(a: string, b: string)
    requires Bare(a) == Bare(b)
    ensures Normalize(a) == Normalize(b)
  {
    FoldInputIsBare(a);
    FoldInputIsBare(b);
    if a == "" || b == "" {
      assert Bare("") == "";
    }
  }

  // ---- what a typist may change ----

  /** Spaces, dashes and underscores may be added or left out anywhere. */
  lemma SeparatorsIgnored(a: string, c: char, b: string)
    requires IsSeparator(c)
    ensures Normalize(a + [c] + b) == Normalize(a + b)
  {
    BareConcat(a + [c], b);
    BareConcat(a, [c]);
    BareConcat(a, b);
    assert Bare([c]) == "";
    SameBareSameKey(a + [c] + b, a + b);
  }

  /** A letter may be typed in either case, and O, I and L in place of 0 and 1. */
  lemma SpellingIgnored(a: string, c: char, c': char, b: string)
    requires Fold(c) == Fold(c')
    ensures Normalize(a + [c] + b) == Normalize(a + [c'] + b)
  {
    FoldKeepsSeparators(c);
    FoldKeepsSeparators(c');
    BareConcat(a + [c], b);
    BareConcat(a, [c]);
    BareConcat(a + [c'], b);
    BareConcat(a, [c']);
    assert Bare([c]) == Bare([c']);
    SameBareSameKey(a + [c] + b, a + [c'] + b);
  }

  /** Which characters are interchangeable: the two cases of a letter, and the documented confusables. */
  lemma FoldTogether(c: char, c': char)
    requires c <= '~' && c' <= '~'
    ensures Fold(c) == Fold(c') <==>
              || Upper(c) == Upper(c')
              || (Upper(c) in {'0', 'O'} && Upper(c') in {'0', 'O'})
              || (Upper(c) in {'1', 'I', 'L'} && Upper(c') in {'1', 'I', 'L'})
  {
  }

  // ---- canonical keys ----

  lemma {:induction false} BareOfSymbols(s: string)
    requires AllSymbols(s)
    ensures Bare(s) == s
  {
    if s != "" {
      BareOfSymbols(s[1..]);
    }
  }

  lemma BareDashed(a: string, b: string)
    ensures Bare(a + "-" + b) == Bare(a) + Bare(b)
  {
    BareConcat(a + "-", b);
    BareConcat(a, "-");
    assert Bare("-") == "";
  }

  function Groups(body: string): string
    requires |body| == KEY_LENGTH
  {
    body[..4] + "-" + body[4..8] + "-" + body[8..12] + "-" + body[12..]
  }

  lemma BareOfGroups(body: string)
    requires IsBody(body)
    ensures Bare(Groups(body)) == body
  {
    var a, b, c, d := body[..4], body[4..8], body[8..12], body[12..];
    BareDashed(a, b);
    BareDashed(a + "-" + b, c);
    BareDashed(a + "-" + b + "-" + c, d);
    BareOfSymbols(a);
    BareOfSymbols(b);
    BareOfSymbols(c);
    BareOfSymbols(d);
    assert a + b + c + d == body;
  }

  lemma BareOfKey(body: string)
    requires IsBody(body)
    ensures Bare(Format(body)) == PREFIX + body
  {
    assert Format(body) == PREFIX + "-" + Groups(body);
    BareOfGroups(body);
    BareDashed(PREFIX, Groups(body));
    BareOfSymbols(PREFIX);
  }

  lemma FormatSplits(body: string)
    requires |body| == KEY_LENGTH
    ensures |Format(body)| == 23 && BodyOf(Format(body)) == body
  {
    var k := Format(body);
    assert k[4..8] == body[..4];
    assert k[9..13] == body[4..8];
    assert k[14..18] == body[8..12];
    assert k[19..] == body[12..];
  }

  /** Normalizing returns canonical keys only, leaves canonical keys alone, and so is idempotent. */
  lemma NormalizeCanonicalizes(raw: string)
    ensures Normalize(raw).Some? ==>
            Canonical(Normalize(raw).value) && Normalize(Normalize(raw).value) == Normalize(raw)
    ensures Canonical(raw) <==> Normalize(raw) == Some(raw)
  {
    if Normalize(raw).Some? {
      FormatSplits(FoldInput(raw));
      CanonicalFixed(Normalize(raw).value);
    }
    if Canonical(raw) {
      CanonicalFixed(raw);
    }
  }

  lemma CanonicalFixed(key: string)
    requires Canonical(key)
    ensures Normalize(key) == Some(key)
  {
    var body := BodyOf(key);
    BareOfKey(body);
    FoldInputIsBare(key);
    assert (PREFIX + body)[..3] == PREFIX && (PREFIX + body)[3..] == body;
  }

  /** A candidate that passes the pattern is fixed by normalizing exactly when it has no line feed at
      the end; with one, normalizing takes it off. */
  lemma WellFormedFixedExactly(candidate: string)
    requires IsWellFormed(candidate)
    ensures Normalize(candidate) == Some(candidate) <==> candidate[|candidate| - 1] != '\n'
    ensures candidate[|candidate| - 1] == '\n' ==> Normalize(candidate) == Some(candidate[..|candidate| - 1])
  {
    if Canonical(candidate) {
      CanonicalFixed(candidate);
      LastIsSymbol(candidate);
    } else {
      TrailingLineFeed(candidate[..|candidate| - 1]);
      assert candidate == candidate[..|candidate| - 1] + ['\n'];
    }
  }

  lemma TrailingLineFeed(key: string)
    requires Canonical(key)
    ensures Normalize(key + ['\n']) == Some(key)
  {
    SeparatorsIgnored(key, '\n', "");
    assert key + ['\n'] + "" == key + ['\n'] && key + "" == key;
    CanonicalFixed(key);
  }

  lemma LastIsSymbol(key: string)
    requires Canonical(key)
    ensures IsSymbol(key[22])
  {
    assert key[22] == BodyOf(key)[15];
  }

  /** The prefix may be left out exactly when the body does not itself begin with it. */
  lemma PrefixOptionalExactly(key: string)
    requires Canonical(key)
    ensures Normalize(key[4..]) == Some(key) <==> BodyOf(key)[..3] != PREFIX
    ensures BodyOf(key)[..3] == PREFIX ==> Normalize(key[4..]) == None
  {
    var body := BodyOf(key);
    assert key[4..] == Groups(body);
    BareOfGroups(body);
    FoldInputIsBare(Groups(body));
  }

  // ---- generation ----

  /** raw >> 5i. */
  function ShiftRight(raw: nat, i: nat): nat {
    if i == 0 then raw else ShiftRight(raw / 32, i - 1)
  }

  function Chars(raw: nat): (s: string)
    ensures |s| == KEY_LENGTH
  {
    seq(KEY_LENGTH, i requires 0 <= i < KEY_LENGTH => Symbol(ShiftRight(raw, i) % 32))
  }

  function Generate(raw: nat): string {
    Format(Chars(raw))
  }

  function Pow32(n: nat): nat {
    if n == 0 then 1 else 32 * Pow32(n - 1)
  }

  /** The number whose five-bit groups a string of symbols spells, lowest group first. */
  function Value(s: string): nat
    requires AllSymbols(s)
  {
    if s == "" then 0 else Digit(s[0]) + 32 * Value(s[1..])
  }

  /** A number is what its five-bit groups spell, as long as they are all there. */
  lemma {:induction false} ValueOfGroups(raw: nat, s: string)
    requires raw < Pow32(|s|) && forall i :: 0 <= i < |s| ==> s[i] == Symbol(ShiftRight(raw, i) % 32)
    ensures AllSymbols(s) && Value(s) == raw
  {
    forall i | 0 <= i < |s| ensures IsSymbol(s[i]) {
      AlphabetIsSymbols(ShiftRight(raw, i) % 32);
    }
    if s != "" {
      AlphabetIsSymbols(raw % 32);
      var rest := s[1..];
      forall i | 0 <= i < |rest| ensures rest[i] == Symbol(ShiftRight(raw / 32, i) % 32) {
        assert rest[i] == s[i + 1];
      }
      ValueOfGroups(raw / 32, rest);
    }
  }

  lemma LowGroup(low: nat, high: nat)
    requires low < 32
    ensures (low + 32 * high) % 32 == low && (low + 32 * high) / 32 == high
  {
  }

  /** And a string of symbols is the groups of the number it spells. */
  lemma {:induction false} GroupsOfValue(s: string, i: nat)
    requires AllSymbols(s) && i < |s|
    ensures s[i] == Symbol(ShiftRight(Value(s), i) % 32)
  {
    SymbolsAreAlphabet(s[0]);
    LowGroup(Digit(s[0]), Value(s[1..]));
    if i > 0 {
      GroupsOfValue(s[1..], i - 1);
    }
  }

  lemma {:induction false} ValueBounded(s: string)
    requires AllSymbols(s)
    ensures Value(s) < Pow32(|s|)
  {
    if s != "" {
      SymbolsAreAlphabet(s[0]);
      ValueBounded(s[1..]);
    }
  }

  /** Every generated key is canonical, and its body spells the random number it came from: distinct
      80-bit numbers give distinct keys. */
  lemma GenerateInjective(raw: nat)
    requires raw < ENTROPY
    ensures Canonical(Generate(raw)) && Value(BodyOf(Generate(raw))) == raw
  {
    EightyBits();
    ValueOfGroups(raw, Chars(raw));
    FormatSplits(Chars(raw));
  }

  /** Every canonical key is generated, by the 80-bit number its body spells. */
  lemma GenerateSurjective(key: string)
    requires Canonical(key)
    ensures Value(BodyOf(key)) < ENTROPY && Generate(Value(BodyOf(key))) == key
  {
    EightyBits();
    var body := BodyOf(key);
    ValueBounded(body);
    forall i | 0 <= i < KEY_LENGTH ensures Chars(Value(body))[i] == body[i] {
      GroupsOfValue(body, i);
    }
    assert Chars(Value(body)) == body;
  }

  lemma EightyBits()
    ensures Pow32(KEY_LENGTH) == ENTROPY
  {
    assert Pow32(4) == 0x10_0000;
    assert Pow32(8) == 0x100_0000_0000;
    assert Pow32(12) == 0x1000_0000_0000_0000;
  }

  // ---- character by character ----

  /** Where the j-th character of a body stands in its key. */
  function Place(j: nat): nat {
    4 + j + j / 4
  }

  lemma PlaceBack(i: nat)
    requires 3 < i < 23 && i % 5 != 3
    ensures var j := i - 4 - (i - 4) / 5; 0 <= j < 16 && Place(j) == i
  {
  }

  lemma BodyAt(key: string)
    requires |key| == 23
    ensures |BodyOf(key)| == 16 && forall j :: 0 <= j < 16 ==> BodyOf(key)[j] == key[Place(j)]
  {
  }

  lemma FormatAt(body: string)
    requires |body| == 16
    ensures |Format(body)| == 23 && Format(body)[..3] == "QSR"
    ensures forall i :: 3 <= i < 23 && i % 5 == 3 ==> Format(body)[i] == '-'
    ensures forall j :: 0 <= j < 16 ==> Format(body)[Place(j)] == body[j]
  {
  }

  predicate Shaped(key: string) {
    && |key| == 23 && key[..3] == "QSR"
    && forall i :: 3 <= i < 23 ==> if i % 5 == 3 then key[i] == '-' else key[i] in ALPHABET
  }

  lemma ShapedIfCanonical(key: string)
    requires Canonical(key)
    ensures Shaped(key)
  {
    var body := BodyOf(key);
    FormatAt(body);
    forall i | 3 <= i < 23 ensures if i % 5 == 3 then key[i] == '-' else key[i] in ALPHABET {
      if i % 5 != 3 {
        PlaceBack(i);
        SymbolsAreAlphabet(key[i]);
      }
    }
  }

  lemma ShapedBody(key: string)
    requires Shaped(key)
    ensures IsBody(BodyOf(key))
  {
    BodyAt(key);
    forall j | 0 <= j < 16 ensures IsSymbol(BodyOf(key)[j]) {
      PlaceApart(j);
      SymbolsAreAlphabet(key[Place(j)]);
    }
  }

  lemma PlaceApart(j: nat)
    requires j < 16
    ensures 3 < Place(j) < 23 && Place(j) % 5 != 3
  {
  }

  lemma CanonicalIfShaped(key: string)
    requires Shaped(key)
    ensures Canonical(key)
  {
    ShapedBody(key);
    BodyAt(key);
    SpeltBy(key, BodyOf(key));
  }

  /** Dashes and body decide a key of the right length and prefix. */
  lemma SpeltBy(key: string, body: string)
    requires |key| == 23 && |body| == 16 && key[..3] == "QSR"
    requires forall i :: 3 <= i < 23 && i % 5 == 3 ==> key[i] == '-'
    requires forall j :: 0 <= j < 16 ==> body[j] == key[Place(j)]
    ensures key == Format(body)
  {
    FormatAt(body);
    forall i | 0 <= i < 23 ensures key[i] == Format(body)[i] {
      SpeltAt(key, body, i);
    }
  }

  lemma SpeltAt(key: string, body: string, i: nat)
    requires |key| == 23 && |body| == 16 && key[..3] == "QSR" && i < 23
    requires i >= 3 && i % 5 == 3 ==> key[i] == '-'
    requires forall j :: 0 <= j < 16 ==> body[j] == key[Place(j)]
    ensures |Format(body)| == 23 && key[i] == Format(body)[i]
  {
    FormatAt(body);
    if i < 3 {
      assert key[i] == key[..3][i] && Format(body)[i] == Format(body)[..3][i];
    } else if i % 5 != 3 {
      PlaceBack(i);
      var j := i - 4 - (i - 4) / 5;
      assert Format(body)[Place(j)] == body[j];
    }
  }

  /** A canonical key is QSR and four groups of four characters of the alphabet, each after a dash. */
  lemma CanonicalExactly(key: string)
    ensures Canonical(key) <==> Shaped(key)
  {
    if Canonical(key) {
      ShapedIfCanonical(key);
    }
    if Shaped(key) {
      CanonicalIfShaped(key);
    }
  }

  /** An input normalizes to a key exactly when, without separators and with its characters folded, it is the body of
      that key, with the prefix or, when it does not itself begin with it, without. */
  lemma NormalizeExactly(raw: string, key: string)
    ensures Normalize(raw) == Some(key)
       <==> Canonical(key) && (Bare(raw) == "QSR" + BodyOf(key) || (Bare(raw) == BodyOf(key) &&
                                                                    !StartsWithPrefix(Bare(raw))))
  {
    FoldInputIsBare(raw);
    var bare, cleaned := Bare(raw), FoldInput(raw);
    if Normalize(raw) == Some(key) {
      FormatSplits(cleaned);
      NormalizeCanonicalizes(raw);
      if StartsWithPrefix(bare) {
        assert bare == bare[..3] + bare[3..];
      }
    }
    if Canonical(key) && bare == "QSR" + BodyOf(key) {
      assert bare[..3] == PREFIX && cleaned == BodyOf(key);
    }
  }

  lemma DivideTwice(x: nat, n: nat)
    requires n >= 1
    ensures x / 32 / n == x / (32 * n)
  {
    var q, r := x / 32 / n, x / 32 % n;
    DivisionIs(x / 32, n);
    assert Times(q, 32 * n) == 32 * Times(q, n);
    QuotientIs(x, 32 * n, q, 32 * r + x % 32);
  }

  function Times(a: int, n: int): int {
    a * n
  }

  lemma TimesGap(a: int, b: int, n: int)
    requires a < b && n >= 1
    ensures Times(a, n) + n <= Times(b, n)
  {
    assert (b - a - 1) * n >= 0;
  }

  lemma DivisionIs(x: nat, n: nat)
    requires n >= 1
    ensures x == Times(x / n, n) + x % n && x % n < n
  {
  }

  lemma QuotientIs(x: nat, n: nat, q: nat, r: nat)
    requires n >= 1 && x == Times(q, n) + r && r < n
    ensures x / n == q
  {
    DivisionIs(x, n);
    if q < x / n {
      TimesGap(q, x / n, n);
    } else if x / n < q {
      TimesGap(x / n, q, n);
    }
  }

  lemma {:induction false} PowPositive(i: nat)
    ensures Pow32(i) >= 1
  {
    if i > 0 {
      PowPositive(i - 1);
    }
  }

  lemma {:induction false} ShiftIsQuotient(raw: nat, i: nat)
    ensures Pow32(i) >= 1 && ShiftRight(raw, i) == raw / Pow32(i)
  {
    PowPositive(i);
    if i > 0 {
      ShiftIsQuotient(raw / 32, i - 1);
      DivideTwice(raw, Pow32(i - 1));
    }
  }

  /** The i-th character of a generated body is the alphabet's at the i-th five-bit group of the number,
      lowest first. */
  lemma GeneratedCharacter(raw: nat, i: nat)
    requires i < 16
    ensures Pow32(i) >= 1 && |ALPHABET| == 32 && |Generate(raw)| == 23
    ensures Generate(raw)[4 + i + i / 4] == ALPHABET[raw / Pow32(i) % 32]
  {
    ShiftIsQuotient(raw, i);
    AlphabetIsSymbols(raw / Pow32(i) % 32);
    FormatAt(Chars(raw));
    assert Format(Chars(raw))[Place(i)] == Chars(raw)[i];
  }
}

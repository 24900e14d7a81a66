/**
 * Which typing errors the check digit catches: the arithmetic modulo 11 behind src/vin_validator.cpp,
 * with every exception spelled out.
 */
module VinErrors {
  import opened Types
  import opened Vin

  function Upper(vin: string): (upper: string)
    ensures |upper| == |vin|
    ensures forall i :: 0 <= i < |vin| ==> upper[i] == ToUpper(vin[i])
  {
    seq(|vin|, i requires 0 <= i < |vin| => ToUpper(vin[i]))
  }

  function Swap(vin: string, i: nat, j: nat): string
    requires i < |vin| && j < |vin|
  {
    vin[i := vin[j]][j := vin[i]]
  }

  // ----- Arithmetic of the weighted sum -----

  lemma {:induction false} DotBounds(values: seq<int>, weights: seq<int>, ones: seq<int>, n: nat)
    requires n <= |values| && n <= |weights| && n <= |ones|
    requires forall i :: 0 <= i < n ==> 0 <= values[i] <= 9 && 0 <= weights[i] && ones[i] == 1
    ensures 0 <= Dot(values, weights, n) <= 9 * Dot(ones, weights, n)
  {
    if n > 0 {
      DotBounds(values, weights, ones, n - 1);
      var v, w := values[n - 1], weights[n - 1];
      assert 0 <= v * w <= 9 * w;
    }
  }

  lemma {:induction false} DotOfConstant(values: seq<int>, weights: seq<int>, ones: seq<int>, n: nat, v: int)
    requires n <= |values| && n <= |weights| && n <= |ones|
    requires forall i :: 0 <= i < n ==> values[i] == v && ones[i] == 1
    ensures Dot(values, weights, n) == v * Dot(ones, weights, n)
  {
    if n > 0 {
      DotOfConstant(values, weights, ones, n - 1, v);
    }
  }

  lemma WeightTotal(ones: seq<int>)
    requires ones == seq(VIN_LENGTH, _ => 1)
    ensures Dot(ones, WEIGHTS, VIN_LENGTH) == 89
  {
    DotStep(ones, WEIGHTS, 3);
    DotStep(ones, WEIGHTS, 6);
    DotStep(ones, WEIGHTS, 9);
    DotStep(ones, WEIGHTS, 12);
    DotStep(ones, WEIGHTS, 15);
    assert Dot(ones, WEIGHTS, 16) == 87;
  }

  lemma DotStep(values: seq<int>, weights: seq<int>, n: nat)
    requires 3 <= n <= |values| && n <= |weights|
    ensures Dot(values, weights, n) == Dot(values, weights, n - 3) +
            values[n - 3] * weights[n - 3] + values[n - 2] * weights[n - 2] + values[n - 1] * weights[n - 1]
  {
    assert Dot(values, weights, n - 1) == Dot(values, weights, n - 2) + values[n - 2] * weights[n - 2];
  }

  /** The sum never leaves 0..801, and both ends are reached by strings of legal characters. */
  lemma SumTightBounds(vin: string)
    requires |vin| == VIN_LENGTH
    ensures 0 <= WeightedSum(vin) <= 801
    ensures var zeros := seq(VIN_LENGTH, _ => '0'); AllLegal(zeros) && WeightedSum(zeros) == 0
    ensures var nines := seq(VIN_LENGTH, _ => '9'); AllLegal(nines) && WeightedSum(nines) == 801
  {
    var ones := seq(VIN_LENGTH, _ => 1);
    WeightTotal(ones);
    DotBounds(Values(vin), WEIGHTS, ones, VIN_LENGTH);
    LegalIffKnown('0');
    LegalIffKnown('9');
    DotOfConstant(Values(seq(VIN_LENGTH, _ => '0')), WEIGHTS, ones, VIN_LENGTH, 0);
    DotOfConstant(Values(seq(VIN_LENGTH, _ => '9')), WEIGHTS, ones, VIN_LENGTH, 9);
  }

  // ----- The tables, written out -----

  predicate Between(c: char, first: char, last: char) {
    first <= c <= last
  }

  /** Digits and the letters but I, O and Q, in either case. */
  lemma LegalCharacters(c: char)
    ensures Legal(c) <==>
            || Between(c, '0', '9')
            || Between(c, 'A', 'H') || Between(c, 'J', 'N') || c == 'P' || Between(c, 'R', 'Z')
            || Between(c, 'a', 'h') || Between(c, 'j', 'n') || c == 'p' || Between(c, 'r', 'z')
  {
    LegalIffKnown(c);
  }

  /** The table, entry by entry; a small letter is worth what its capital is. */
  lemma LetterValues()
    ensures Value('A') == 1 && Value('B') == 2 && Value('C') == 3 && Value('D') == 4 && Value('E') == 5
    ensures Value('F') == 6 && Value('G') == 7 && Value('H') == 8
    ensures Value('J') == 1 && Value('K') == 2 && Value('L') == 3 && Value('M') == 4 && Value('N') == 5
    ensures Value('P') == 7 && Value('R') == 9
    ensures Value('S') == 2 && Value('T') == 3 && Value('U') == 4 && Value('V') == 5 && Value('W') == 6
    ensures Value('X') == 7 && Value('Y') == 8 && Value('Z') == 9
    ensures forall c :: 'a' <= c <= 'z' ==> Value(c) == Value((c as int - 32) as char)
  {
  }

  lemma DigitValues()
    ensures Value('0') == 0 && Value('1') == 1 && Value('2') == 2 && Value('3') == 3 && Value('4') == 4
    ensures Value('5') == 5 && Value('6') == 6 && Value('7') == 7 && Value('8') == 8 && Value('9') == 9
  {
  }

  lemma FirstProducts(v: seq<int>)
    requires |v| == 17
    ensures Dot(v, WEIGHTS, 9) ==
            8 * v[0] + 7 * v[1] + 6 * v[2] + 5 * v[3] + 4 * v[4] + 3 * v[5] + 2 * v[6] + 10 * v[7]
  {
    DotStep(v, WEIGHTS, 3);
    DotStep(v, WEIGHTS, 6);
    DotStep(v, WEIGHTS, 9);
  }

  lemma AllProducts(v: seq<int>)
    requires |v| == 17
    ensures Dot(v, WEIGHTS, 17) ==
            8 * v[0] + 7 * v[1] + 6 * v[2] + 5 * v[3] + 4 * v[4] + 3 * v[5] + 2 * v[6] + 10 * v[7]
            + 9 * v[9] + 8 * v[10] + 7 * v[11] + 6 * v[12] + 5 * v[13] + 4 * v[14] + 3 * v[15] + 2 * v[16]
  {
    FirstProducts(v);
    DotStep(v, WEIGHTS, 12);
    DotStep(v, WEIGHTS, 15);
    assert Dot(v, WEIGHTS, 16) == Dot(v, WEIGHTS, 15) + v[15] * WEIGHTS[15];
  }

  lemma RemainderCharacter(sum: int)
    ensures CheckCharacter(sum) == "0123456789X"[sum % 11]
  {
    RemainderListed(sum % 11);
  }

  lemma RemainderListed(r: nat)
    requires r < 11
    ensures "0123456789X"[r] == if r == 10 then 'X' else '0' + r as char
  {
  }

  /** The check digit rule as the standard writes it: sixteen products, and their remainder as a character. */
  lemma CheckDigitFormula(vin: string)
    requires |vin| == 17
    ensures var v := Values(vin);
            WeightedSum(vin) ==
            8 * v[0] + 7 * v[1] + 6 * v[2] + 5 * v[3] + 4 * v[4] + 3 * v[5] + 2 * v[6] + 10 * v[7]
            + 9 * v[9] + 8 * v[10] + 7 * v[11] + 6 * v[12] + 5 * v[13] + 4 * v[14] + 3 * v[15] + 2 * v[16]
    ensures Valid(vin) <==> AllLegal(vin) && ToUpper(vin[8]) == "0123456789X"[WeightedSum(vin) % 11]
  {
    AllProducts(Values(vin));
    RemainderCharacter(WeightedSum(vin));
  }

  lemma {:induction false} DotUpdate(values: seq<int>, weights: seq<int>, i: nat, v: int, n: nat)
    requires i < |values| && n <= |values| && n <= |weights|
    ensures Dot(values[i := v], weights, n) ==
            Dot(values, weights, n) + (if i < n then (v - values[i]) * weights[i] else 0)
  {
    if n > 0 {
      DotUpdate(values, weights, i, v, n - 1);
    }
  }

  /** Replacing one character moves the sum by its weight times the change in value. */
  lemma SumUpdate(vin: string, i: nat, c: char)
    requires |vin| == VIN_LENGTH && i < VIN_LENGTH
    ensures WeightedSum(vin[i := c]) == WeightedSum(vin) + (Value(c) - Value(vin[i])) * WEIGHTS[i]
  {
    DotUpdate(Values(vin), WEIGHTS, i, Value(c), VIN_LENGTH);
    assert Values(vin[i := c]) == Values(vin)[i := Value(c)];
  }

  /** The check position has no weight. */
  lemma CheckPositionAddsNothing(vin: string, c: char)
    requires |vin| == VIN_LENGTH
    ensures WeightedSum(vin[8 := c]) == WeightedSum(vin)
  {
    assert WEIGHTS[8] == 0;
    SumUpdate(vin, 8, c);
  }

  lemma SumAfterBoth(vin: string, i: nat, j: nat)
    requires |vin| == VIN_LENGTH && i < VIN_LENGTH && j < VIN_LENGTH && i != j
    ensures WeightedSum(Swap(vin, i, j)) ==
            WeightedSum(vin) + (Value(vin[j]) - Value(vin[i])) * WEIGHTS[i]
                             + (Value(vin[i]) - Value(vin[j])) * WEIGHTS[j]
  {
    SumUpdate(vin, i, vin[j]);
    SumUpdate(vin[i := vin[j]], j, vin[i]);
  }

  lemma SumSwap(vin: string, i: nat, j: nat)
    requires |vin| == VIN_LENGTH && i < VIN_LENGTH && j < VIN_LENGTH && i != j
    ensures WeightedSum(Swap(vin, i, j)) ==
            WeightedSum(vin) + (Value(vin[j]) - Value(vin[i])) * (WEIGHTS[i] - WEIGHTS[j])
  {
    SumAfterBoth(vin, i, j);
    Distribute(Value(vin[i]), Value(vin[j]), WEIGHTS[i], WEIGHTS[j]);
  }

  lemma Distribute(a: int, b: int, v: int, w: int)
    ensures (b - a) * v + (a - b) * w == (b - a) * (v - w)
  {
  }

  /** Eleven is prime: a product of two smaller factors is a multiple of it only when one is zero. */
  lemma NoZeroDivisors(d: int, w: int)
    requires -9 <= d <= 9 && -10 <= w <= 10
    ensures (d * w) % 11 == 0 <==> d == 0 || w == 0
  {
    if d < 0 {
      MultipleOfEleven(-d, w);
      assert d * w == -(-d * w);
      NegatedMultiple(d * w);
    } else {
      MultipleOfEleven(d, w);
    }
  }

  lemma NegatedMultiple(x: int)
    ensures x % 11 == 0 <==> (-x) % 11 == 0
  {
  }

  lemma MultipleOfEleven(d: nat, w: int)
    requires d <= 9 && -10 <= w <= 10
    ensures (d * w) % 11 == 0 <==> d == 0 || w == 0
  {
    match d
    case 0 => case 1 => case 2 => case 3 => case 4 => case 5 => case 6 => case 7 => case 8 => case 9 =>
  }

  lemma SameRemainder(a: int, b: int)
    ensures a % 11 == b % 11 <==> (b - a) % 11 == 0
  {
  }

  lemma RemainderGivesCharacter(r: int, s: int)
    requires 0 <= r < 11 && 0 <= s < 11
    ensures CheckCharacter(r) == CheckCharacter(s) <==> r == s
  {
  }

  lemma CheckCharacterInjective(a: int, b: int)
    ensures CheckCharacter(a) == CheckCharacter(b) <==> (b - a) % 11 == 0
  {
    SameRemainder(a, b);
    RemainderGivesCharacter(a % 11, b % 11);
  }

  lemma ValueInRange(c: char)
    ensures 0 <= Value(c) <= 9
    ensures Value(ToUpper(c)) == Value(c)
  {
  }

  /** A check character is legal, upper case, and worth its remainder unless it is 'X', which is worth 7. */
  lemma CheckCharacterValue(sum: int)
    ensures var c := CheckCharacter(sum);
            && Legal(c)
            && ToUpper(c) == c
            && (c == 'X' || IsDigit(c))
            && (c == 'X' <==> sum % 11 == 10)
            && Value(c) == (if c == 'X' then 7 else sum % 11)
  {
    var c := CheckCharacter(sum);
    LegalIffKnown(c);
  }

  lemma LegalAfter(vin: string, i: nat, c: char)
    requires |vin| == VIN_LENGTH && i < VIN_LENGTH && Legal(c)
    requires forall k :: 0 <= k < VIN_LENGTH && k != i ==> Legal(vin[k])
    ensures AllLegal(vin[i := c])
  {
  }

  // ----- The check character -----

  lemma ValidIffCheckCharacter(vin: string, b: char)
    requires |vin| == VIN_LENGTH
    requires forall i :: 0 <= i < VIN_LENGTH && i != 8 ==> Legal(vin[i])
    ensures Valid(vin[8 := b]) <==> ToUpper(b) == CheckCharacter(WeightedSum(vin))
  {
    CheckCharacterValue(WeightedSum(vin));
    CheckPositionAddsNothing(vin, b);
    if Legal(b) {
      LegalAfter(vin, 8, b);
    } else {
      assert !Legal(vin[8 := b][8]);
    }
    LegalIffKnown(b);
    LegalIffKnown(ToUpper(b));
  }

  /**
   * Whatever the sixteen other characters are, exactly one check character (up to case)
   * makes the VIN valid, and it is a digit or 'X'.
   */
  lemma CheckCharacterExistsAndIsUnique(vin: string)
    requires |vin| == VIN_LENGTH
    requires forall i :: 0 <= i < VIN_LENGTH && i != 8 ==> Legal(vin[i])
    ensures exists c ::
              && c in "0123456789X"
              && Valid(vin[8 := c])
              && (forall b :: Valid(vin[8 := b]) <==> ToUpper(b) == c)
  {
    var c := CheckCharacter(WeightedSum(vin));
    CheckCharacterValue(WeightedSum(vin));
    forall b
      ensures Valid(vin[8 := b]) <==> ToUpper(b) == c
    {
      ValidIffCheckCharacter(vin, b);
    }
    assert ToUpper(c) == c;
    DigitOrX(c);
  }

  lemma DigitOrX(c: char)
    requires c == 'X' || IsDigit(c)
    ensures c in "0123456789X"
  {
    var digits := "0123456789X";
    if c == 'X' {
      assert digits[10] == c;
    } else {
      assert digits[c as int - '0' as int] == c;
    }
  }

  /** Validation does not depend on the case of the letters. */
  lemma ValidationIgnoresCase(vin: string)
    ensures Valid(Upper(vin)) <==> Valid(vin)
  {
    forall i | 0 <= i < |vin|
      ensures Legal(Upper(vin)[i]) <==> Legal(vin[i])
    {
      LegalIffKnown(vin[i]);
      LegalIffKnown(ToUpper(vin[i]));
    }
    forall i | 0 <= i < |vin|
      ensures Value(Upper(vin)[i]) == Value(vin[i])
    {
      ValueInRange(vin[i]);
    }
    assert Values(Upper(vin)) == Values(vin);
  }

  const EXAMPLE_VIN := "1HGBH41JXMN109186"
  const EXAMPLE_VALUES := [1, 8, 7, 2, 8, 4, 1, 1, 7, 4, 5, 1, 0, 9, 1, 8, 6]

  lemma ExampleValues()
    ensures Values(EXAMPLE_VIN) == EXAMPLE_VALUES
  {
  }

  lemma ExampleLegal()
    ensures AllLegal(EXAMPLE_VIN)
  {
    AllLegalIffAllKnown(EXAMPLE_VIN);
  }

  lemma ExampleSum()
    ensures Dot(EXAMPLE_VALUES, WEIGHTS, VIN_LENGTH) == 340
  {
    DotStep(EXAMPLE_VALUES, WEIGHTS, 3);
    DotStep(EXAMPLE_VALUES, WEIGHTS, 6);
    DotStep(EXAMPLE_VALUES, WEIGHTS, 9);
    DotStep(EXAMPLE_VALUES, WEIGHTS, 12);
    DotStep(EXAMPLE_VALUES, WEIGHTS, 15);
    assert Dot(EXAMPLE_VALUES, WEIGHTS, 16) == 328;
  }

  lemma AllOnesValid()
    ensures Valid("11111111111111111")
  {
    var ones := "11111111111111111";
    var units := seq(VIN_LENGTH, _ => 1);
    WeightTotal(units);
    DotOfConstant(Values(ones), WEIGHTS, units, VIN_LENGTH, 1);
    AllLegalIffAllKnown(ones);
  }

  /** The verdicts the validator's tests expect. */
  lemma DocumentedVins()
    ensures Valid("11111111111111111") && Valid(EXAMPLE_VIN)
    ensures !Valid("1HGBH41JXMN10918") && !Valid("1HGBH41JXMN1091861") && !Valid("")
    ensures !Valid("1HGBH41JXMN1091I6") && !Valid("1HGBH41JXMN1091O6") && !Valid("1HGBH41JXMN1091Q6")
    ensures !Valid("1HGBH41JXMN109187")
  {
    assert !Legal("1HGBH41JXMN1091I6"[15]) && !Legal("1HGBH41JXMN1091O6"[15]) && !Legal("1HGBH41JXMN1091Q6"[15]);
    assert EXAMPLE_VIN[16 := '7'] == "1HGBH41JXMN109187";
    AllOnesValid();
    ExampleValues();
    ExampleLegal();
    ExampleSum();
    assert CheckCharacter(340) == 'X';
    LegalIffKnown('7');
    SingleCharacterErrors(EXAMPLE_VIN, 16, '7');
  }

  const VIN_WITH_R := "1GNEK13ZX3R298984"
  const VIN_WITH_P := "1M8GDM9AXKP042788"

  lemma ValuesWithR()
    ensures AllLegal(VIN_WITH_R) && Values(VIN_WITH_R) == [1, 7, 5, 5, 2, 1, 3, 9, 7, 3, 9, 2, 9, 8, 9, 8, 4]
  {
    forall i | 0 <= i < |VIN_WITH_R| ensures Legal(VIN_WITH_R[i]) {
      LegalCharacters(VIN_WITH_R[i]);
    }
  }

  lemma ValuesWithP()
    ensures AllLegal(VIN_WITH_P) && Values(VIN_WITH_P) == [1, 4, 8, 7, 4, 4, 9, 1, 7, 2, 7, 0, 4, 2, 7, 8, 8]
  {
    forall i | 0 <= i < |VIN_WITH_P| ensures Legal(VIN_WITH_P[i]) {
      LegalCharacters(VIN_WITH_P[i]);
    }
  }

  lemma ValidFromSum(vin: string, sum: int)
    requires |vin| == 17 && AllLegal(vin) && WeightedSum(vin) == sum && sum % 11 == 10 && vin[8] == 'X'
    ensures Valid(vin)
  {
    RemainderCharacter(sum);
  }

  /** Two VINs whose verdicts rest on the values of P and R. */
  lemma ExamplesWithPAndR()
    ensures Valid("1GNEK13ZX3R298984") && Valid("1M8GDM9AXKP042788")
  {
    ValuesWithR();
    CheckDigitFormula(VIN_WITH_R);
    ValidFromSum(VIN_WITH_R, 494);
    ValuesWithP();
    CheckDigitFormula(VIN_WITH_P);
    ValidFromSum(VIN_WITH_P, 351);
  }

  // ----- One wrong character -----

  /**
   * Replacing one character of a valid VIN by another legal one goes unnoticed exactly when both are
   * worth the same, or, at the check position, when they are the same character up to case.
   */
  lemma SingleCharacterErrors(vin: string, i: nat, c: char)
    requires Valid(vin) && i < VIN_LENGTH && Legal(c)
    ensures Valid(vin[i := c]) <==>
            if i == 8 then ToUpper(c) == ToUpper(vin[8]) else Value(c) == Value(vin[i])
  {
    LegalAfter(vin, i, c);
    SumUpdate(vin, i, c);
    ValueInRange(c);
    ValueInRange(vin[i]);
    NoZeroDivisors(Value(c) - Value(vin[i]), WEIGHTS[i]);
    CheckCharacterInjective(WeightedSum(vin), WeightedSum(vin[i := c]));
  }

  // ----- Two exchanged characters -----

  lemma SwapKeepsLegal(vin: string, i: nat, j: nat)
    requires |vin| == VIN_LENGTH && AllLegal(vin) && i < VIN_LENGTH && j < VIN_LENGTH
    ensures AllLegal(Swap(vin, i, j))
  {
  }

  lemma SwapKeepsRemainderIff(vin: string, i: nat, j: nat)
    requires |vin| == VIN_LENGTH && i < VIN_LENGTH && j < VIN_LENGTH && i != j
    ensures CheckCharacter(WeightedSum(Swap(vin, i, j))) == CheckCharacter(WeightedSum(vin)) <==>
            WEIGHTS[i] == WEIGHTS[j] || Value(vin[i]) == Value(vin[j])
  {
    SumSwap(vin, i, j);
    ValueInRange(vin[i]);
    ValueInRange(vin[j]);
    NoZeroDivisors(Value(vin[j]) - Value(vin[i]), WEIGHTS[i] - WEIGHTS[j]);
    CheckCharacterInjective(WeightedSum(vin), WeightedSum(Swap(vin, i, j)));
  }

  /** Exchanging two characters outside the check position is detected iff weights and values both differ. */
  lemma SwapsAwayFromCheckDigit(vin: string, i: nat, j: nat)
    requires Valid(vin) && i < VIN_LENGTH && j < VIN_LENGTH && i != j && i != 8 && j != 8
    ensures !Valid(Swap(vin, i, j)) <==> WEIGHTS[i] != WEIGHTS[j] && Value(vin[i]) != Value(vin[j])
    ensures j == i + 1 ==> (Valid(Swap(vin, i, j)) <==> Value(vin[i]) == Value(vin[j]))
  {
    SwapKeepsLegal(vin, i, j);
    SwapKeepsRemainderIff(vin, i, j);
  }

  /**
   * The check position exchanged with position i of weight w: the check character c moves into the sum
   * and leaves, as the new remainder, r + (value of c - value of the other) * w.
   */
  lemma SwapWithCheckDigit(vin: string, i: nat)
    requires Valid(vin) && i < VIN_LENGTH && i != 8
    ensures var sum := WeightedSum(vin);
            Valid(Swap(vin, 8, i)) <==>
            ToUpper(vin[i]) == CheckCharacter(sum + (Value(vin[8]) - Value(vin[i])) * WEIGHTS[i])
  {
    SwapKeepsLegal(vin, 8, i);
    CheckPositionAddsNothing(vin, vin[i]);
    SumUpdate(vin[8 := vin[i]], i, vin[8]);
  }

  /** What makes a legal upper-case character a check character of a given sum. */
  lemma CheckCharacterIs(u: char, sum: int)
    requires Legal(u) && ToUpper(u) == u
    ensures u == CheckCharacter(sum) <==>
            if u == 'X' then sum % 11 == 10 else IsDigit(u) && sum % 11 == Value(u)
  {
    LegalIffKnown(u);
  }

  lemma UpperIsLegal(c: char)
    requires Legal(c)
    ensures Legal(ToUpper(c)) && ToUpper(ToUpper(c)) == ToUpper(c)
    ensures Value(ToUpper(c)) == Value(c)
  {
  }

  /** Exchanging positions 8 and 9 goes unnoticed, for two different characters, iff both are digits. */
  lemma SwapEightAndNine(vin: string)
    requires Valid(vin) && ToUpper(vin[7]) != ToUpper(vin[8])
    ensures Valid(Swap(vin, 8, 7)) <==> IsDigit(vin[7]) && IsDigit(vin[8])
  {
    SwapWithCheckDigit(vin, 7);
    UpperIsLegal(vin[7]);
    UpperIsLegal(vin[8]);
    EightAndNine(ToUpper(vin[7]), ToUpper(vin[8]), WeightedSum(vin));
  }

  lemma EightAndNine(u: char, c: char, sum: int)
    requires Legal(u) && ToUpper(u) == u && Legal(c) && ToUpper(c) == c
    requires c == CheckCharacter(sum) && u != c
    ensures u == CheckCharacter(sum + (Value(c) - Value(u)) * 10) <==> IsDigit(u) && IsDigit(c)
  {
    CheckCharacterIs(c, sum);
    CheckCharacterIs(u, sum + (Value(c) - Value(u)) * 10);
    ValueInRange(u);
    ValueOfX();
    DigitValue(u);
    DigitValue(c);
  }

  /** Exchanging positions 9 and 10 goes unnoticed, for two different characters, iff they are 'X' and '4'. */
  lemma SwapNineAndTen(vin: string)
    requires Valid(vin) && ToUpper(vin[8]) != ToUpper(vin[9])
    ensures Valid(Swap(vin, 8, 9)) <==> {ToUpper(vin[8]), ToUpper(vin[9])} == {'X', '4'}
  {
    SwapWithCheckDigit(vin, 9);
    UpperIsLegal(vin[8]);
    UpperIsLegal(vin[9]);
    var c, u := ToUpper(vin[8]), ToUpper(vin[9]);
    NineAndTen(u, c, WeightedSum(vin));
    assert {c, u} == {'X', '4'} <==> (c == 'X' && u == '4') || (c == '4' && u == 'X');
  }

  lemma NineAndTen(u: char, c: char, sum: int)
    requires Legal(u) && ToUpper(u) == u && Legal(c) && ToUpper(c) == c
    requires c == CheckCharacter(sum) && u != c
    ensures u == CheckCharacter(sum + (Value(c) - Value(u)) * 9) <==>
            (c == 'X' && u == '4') || (c == '4' && u == 'X')
  {
    CheckCharacterIs(c, sum);
    CheckCharacterIs(u, sum + (Value(c) - Value(u)) * 9);
    ValueInRange(u);
    ValueOfX();
    DigitValue(u);
    DigitValue(c);
  }

  lemma ValueOfX()
    ensures Value('X') == 7 && Value('4') == 4 && !IsDigit('X') && IsDigit('4')
  {
  }

  lemma DigitValue(c: char)
    ensures IsDigit(c) ==> Value(c) == c as int - '0' as int
  {
  }
}

/** VinValidator: the length, character-set and check-digit rules of src/vin_validator.cpp. */
module Vin {
  import opened Types

  const VIN_LENGTH := 17
  const CHECK_DIGIT_POSITION := 9
  const EXCLUDED_CHARS := "IOQ"
  const WEIGHTS: seq<int> := [8, 7, 6, 5, 4, 3, 2, 10, 0, 9, 8, 7, 6, 5, 4, 3, 2]

  const LENGTH_MESSAGE := "VIN长度必须为17位"
  const CHARSET_MESSAGE := "VIN包含非法字符（I、O、Q不允许）"
  const CHECK_DIGIT_MESSAGE := "VIN校验位不正确"

  // The character classes are those of the "C" locale: nothing outside ASCII is alphanumeric.
  predicate IsDigit(c: char) {
    '0' <= c <= '9'
  }

  predicate IsAlnum(c: char) {
    IsDigit(c) || 'A' <= c <= 'Z' || 'a' <= c <= 'z'
  }

  function ToUpper(c: char): char {
    if 'a' <= c <= 'z' then (c as int - 32) as char else c
  }

  predicate Legal(c: char) {
    IsAlnum(c) && ToUpper(c) !in EXCLUDED_CHARS
  }

  /** The transliteration table, run by run; characters it does not list have no value. */
  function Transliterate(c: char): Option<int> {
    if '0' <= c <= '9' then Some(c as int - '0' as int)
    else if 'A' <= c <= 'H' then Some(c as int - 'A' as int + 1)
    else if 'J' <= c <= 'N' then Some(c as int - 'J' as int + 1)
    else if c == 'P' then Some(7)
    else if c == 'R' then Some(9)
    else if 'S' <= c <= 'Z' then Some(c as int - 'S' as int + 2)
    else None
  }

  function Value(c: char): int {
    match Transliterate(ToUpper(c))
    case Some(v) => v
    case None => 0
  }

  function Values(vin: string): (values: seq<int>)
    ensures |values| == |vin|
    ensures forall i :: 0 <= i < |vin| ==> values[i] == Value(vin[i])
  {
    seq(|vin|, i requires 0 <= i < |vin| => Value(vin[i]))
  }

  /** The first n products of the weighted sum. */
  function Dot(values: seq<int>, weights: seq<int>, n: nat): int
    requires n <= |values| && n <= |weights|
  {
    if n == 0 then 0 else Dot(values, weights, n - 1) + values[n - 1] * weights[n - 1]
  }

  function WeightedSum(vin: string): int
    requires |vin| == VIN_LENGTH
  {
    Dot(Values(vin), WEIGHTS, VIN_LENGTH)
  }

  /** The check character of a weighted sum: its remainder modulo 11, with 'X' for 10. */
  function CheckCharacter(sum: int): char {
    var remainder := sum % 11;
    if remainder == 10 then 'X' else '0' + remainder as char
  }

  predicate AllLegal(vin: string) {
    forall i :: 0 <= i < |vin| ==> Legal(vin[i])
  }

  predicate AllKnown(vin: string) {
    forall i :: 0 <= i < |vin| ==> Transliterate(ToUpper(vin[i])).Some?
  }

  predicate CheckDigitMatches(vin: string)
    requires |vin| == VIN_LENGTH
  {
    ToUpper(vin[CHECK_DIGIT_POSITION - 1]) == CheckCharacter(WeightedSum(vin))
  }

  predicate Valid(vin: string) {
    |vin| == VIN_LENGTH && AllLegal(vin) && CheckDigitMatches(vin)
  }

  /** The table lists exactly the characters the character-set rule lets through. */
  lemma LegalIffKnown(c: char)
    ensures Legal(c) <==> Transliterate(ToUpper(c)).Some?
  {
    assert EXCLUDED_CHARS == ['I', 'O', 'Q'];
    assert forall u :: u in EXCLUDED_CHARS <==> u == 'I' || u == 'O' || u == 'Q';
  }

  lemma AllLegalIffAllKnown(vin: string)
    ensures AllLegal(vin) <==> AllKnown(vin)
  {
    forall i | 0 <= i < |vin| ensures Legal(vin[i]) <==> Transliterate(ToUpper(vin[i])).Some? {
      LegalIffKnown(vin[i]);
    }
  }

  method CheckCharset(vin: string) returns (ok: bool)
    ensures ok <==> AllLegal(vin)
  {
    for i := 0 to |vin|
      invariant forall k :: 0 <= k < i ==> Legal(vin[k])
    {
      if !IsAlnum(vin[i]) {
        return false;
      }
      if ToUpper(vin[i]) in EXCLUDED_CHARS {
        return false;
      }
    }
    return true;
  }

  method CalculateCheckDigit(vin: string) returns (c: char)
    requires |vin| == VIN_LENGTH
    ensures AllLegal(vin) ==> c == CheckCharacter(WeightedSum(vin))
    ensures !AllLegal(vin) ==> c == 'X'
  {
    AllLegalIffAllKnown(vin);
    var sum := 0;
    for i := 0 to VIN_LENGTH
      invariant forall k :: 0 <= k < i ==> Transliterate(ToUpper(vin[k])).Some?
      invariant sum == Dot(Values(vin), WEIGHTS, i)
    {
      var it := Transliterate(ToUpper(vin[i]));
      if it.None? {
        return 'X';
      }
      sum := sum + it.value * WEIGHTS[i];
    }
    var remainder := sum % 11;
    if remainder == 10 {
      return 'X';
    }
    return '0' + remainder as char;
  }

  /** Decides for every string: where a character has no value, an X at the check position passes. */
  method CheckDigit(vin: string) returns (ok: bool)
    ensures AllLegal(vin) ==> (ok <==> Valid(vin))
    ensures |vin| != VIN_LENGTH ==> !ok
    ensures |vin| == VIN_LENGTH && !AllLegal(vin) ==> (ok <==> ToUpper(vin[CHECK_DIGIT_POSITION - 1]) == 'X')
  {
    if |vin| != VIN_LENGTH {
      return false;
    }
    var calculated := CalculateCheckDigit(vin);
    var provided := ToUpper(vin[CHECK_DIGIT_POSITION - 1]);
    return calculated == provided;
  }

  method Validate(vin: string) returns (ok: bool)
    ensures ok <==> Valid(vin)
  {
    if |vin| != VIN_LENGTH {
      return false;
    }
    ok := CheckCharset(vin);
    if ok {
      ok := CheckDigit(vin);
    }
  }

  /** The message names the first rule that fails, and is empty exactly for a valid VIN. */
  method GetValidationError(vin: string) returns (message: string)
    ensures message == "" <==> Valid(vin)
    ensures message == "VIN长度必须为17位" <==> |vin| != 17
    ensures message == "VIN包含非法字符（I、O、Q不允许）" <==> |vin| == 17 && !AllLegal(vin)
    ensures message == "VIN校验位不正确" <==> |vin| == 17 && AllLegal(vin) && !CheckDigitMatches(vin)
  {
    assert LENGTH_MESSAGE[3] != CHARSET_MESSAGE[3];
    assert LENGTH_MESSAGE[3] != CHECK_DIGIT_MESSAGE[3];
    assert CHARSET_MESSAGE[3] != CHECK_DIGIT_MESSAGE[3];
    if |vin| != VIN_LENGTH {
      return LENGTH_MESSAGE;
    }
    var legal := CheckCharset(vin);
    if !legal {
      return CHARSET_MESSAGE;
    }
    var matches := CheckDigit(vin);
    if !matches {
      return CHECK_DIGIT_MESSAGE;
    }
    return "";
  }
}

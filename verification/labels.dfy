/**
 Label resolution: the predicted class index is turned into its decimal
 string (Python's `str`) and looked up in the string-keyed label mapping.
 The web handler and the helper fall back differently on a missing key.
 */
module Labels {

  import opened Wrappers

  /** The decimal digit character for `d`. */
  function DigitChar(d: nat): (c: char)
    requires d < 10
    ensures '0' <= c <= '9'
  {
    (48 + d) as char
  }

  /** The number a decimal digit character stands for. */
  function DigitValue(c: char): (d: nat)
    requires '0' <= c <= '9'
    ensures d < 10
  {
    c as int - 48
  }

  /** The number a string of decimal digits denotes, read left to right. */
  function DecimalValue(s: string): nat
    requires forall i :: 0 <= i < |s| ==> '0' <= s[i] <= '9'
  {
    if |s| == 0 then 0 else DecimalValue(s[..|s| - 1]) * 10 + DigitValue(s[|s| - 1])
  }

  /** Decimal rendering of a natural number, without leading zeros. */
  function NatToDecimal(n: nat): (s: string)
    ensures |s| >= 1
    ensures n < 10 <==> |s| == 1
    ensures forall i :: 0 <= i < |s| ==> '0' <= s[i] <= '9'
    ensures |s| > 1 ==> s[0] != '0'
    ensures DecimalValue(s) == n
    decreases n
  {
    if n < 10 then
      var s := [DigitChar(n)];
      assert s[..0] == [];
      s
    else
      var s := NatToDecimal(n / 10) + [DigitChar(n % 10)];
      assert s[..|s| - 1] == NatToDecimal(n / 10);
      s
  }

  /** `str(i)` for an integer class index: a minus sign for negative
      indices, then the decimal digits of the magnitude. */
  function IntToDecimal(i: int): (s: string)
    ensures |s| >= 1
    ensures s[0] == '-' <==> i < 0
    ensures i >= 0 ==> '0' <= s[0] <= '9'
    ensures i >= 0 && |s| > 1 ==> s[0] != '0'
    ensures i < 0 ==> |s| >= 2 && s[1] != '0'
    ensures forall k :: 0 < k < |s| ==> '0' <= s[k] <= '9'
    ensures i < 0 ==> DecimalValue(s[1..]) == -i
    ensures i >= 0 ==> DecimalValue(s) == i
  {
    if i < 0 then
      var s := "-" + NatToDecimal(-i);
      assert s[1..] == NatToDecimal(-i);
      s
    else NatToDecimal(i)
  }

  /** Distinct numbers render to distinct strings. */
  lemma NatToDecimalInjective(a: nat, b: nat)
    requires NatToDecimal(a) == NatToDecimal(b)
    ensures a == b
  {
    assert a == DecimalValue(NatToDecimal(a)) == DecimalValue(NatToDecimal(b)) == b;
  }

  /** Distinct class indices are looked up under distinct keys. */
  lemma IntToDecimalInjective(a: int, b: int)
    requires IntToDecimal(a) == IntToDecimal(b)
    ensures a == b
  {
    var s := IntToDecimal(a);
    assert s == IntToDecimal(b);
    if a < 0 {
      assert b < 0;
      assert -a == DecimalValue(s[1..]) == -b;
    } else {
      assert b >= 0;
      assert a == DecimalValue(s) == b;
    }
  }

  /** The fallback name of `get_disease_name`. */
  const UnknownDisease: string := "Unknown Disease"

  /** The label lookup of the `/predict` handler: the mapped name, or the
      class's own decimal string when the mapping has no entry for it. */
  function ResolveOrRaw(predClass: int, labels: map<string, string>): (name: string)
    ensures IntToDecimal(predClass) in labels ==> name == labels[IntToDecimal(predClass)]
    ensures IntToDecimal(predClass) !in labels ==> name == IntToDecimal(predClass)
  {
    var key := IntToDecimal(predClass);
    ValueOr(Get(labels, key), key)
  }

  /** `get_disease_name`: the mapped name, or the fixed "Unknown Disease". */
  function ResolveOrUnknown(predIndex: int, labels: map<string, string>): (name: string)
    ensures IntToDecimal(predIndex) in labels ==> name == labels[IntToDecimal(predIndex)]
    ensures IntToDecimal(predIndex) !in labels ==> name == UnknownDisease
  {
    ValueOr(Get(labels, IntToDecimal(predIndex)), UnknownDisease)
  }

  /** The two resolvers agree exactly on the classes the mapping knows. */
  lemma ResolversAgreeExactlyWhenMapped(predClass: int, labels: map<string, string>)
    ensures ResolveOrRaw(predClass, labels) == ResolveOrUnknown(predClass, labels)
            <==> IntToDecimal(predClass) in labels
  {
    // The fallbacks differ: "Unknown Disease" starts with a letter, never '-' or a digit.
    assert UnknownDisease[0] == 'U';
  }

  /** With the raw fallback, an unmapped result still identifies the class:
      two unmapped classes that resolve to the same name are the same class. */
  lemma RawFallbackIdentifiesClass(a: int, b: int, labels: map<string, string>)
    requires IntToDecimal(a) !in labels && IntToDecimal(b) !in labels
    requires ResolveOrRaw(a, labels) == ResolveOrRaw(b, labels)
    ensures a == b
  {
    IntToDecimalInjective(a, b);
  }

  /** The "Unknown Disease" fallback forgets which class was predicted. */
  lemma UnknownFallbackForgetsClass(a: int, b: int, labels: map<string, string>)
    requires IntToDecimal(a) !in labels && IntToDecimal(b) !in labels
    ensures ResolveOrUnknown(a, labels) == ResolveOrUnknown(b, labels)
  {
  }
}

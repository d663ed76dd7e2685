/** Base-10 int64 text, as strconv.ParseInt and strconv.FormatInt treat it. */
module Decimals {
  import opened LogTypes
  import opened Texts

  const MIN_INT64: int := -0x8000_0000_0000_0000
  const MAX_INT64: int := 0x7fff_ffff_ffff_ffff

  predicate AllDigits(s: Text) {
    forall i :: 0 <= i < |s| ==> 48 <= s[i] <= 57
  }

  function DigitsValue(s: Text): nat
    requires AllDigits(s)
  {
    if s == [] then 0 else 10 * DigitsValue(s[..|s| - 1]) + (s[|s| - 1] - 48) as nat
  }

  /** An optional sign and at least one digit, within the int64 range. */
  function Parse(s: Text): Option<int> {
    var signed := s != [] && (s[0] == 43 || s[0] == 45);
    var digits := if signed then s[1..] else s;
    if digits == [] || !AllDigits(digits) then None
    else
      var d: int := DigitsValue(digits);
      var n := if signed && s[0] == 45 then -d else d;
      if Int64(n) then Some(n) else None
  }

  function FormatNat(n: nat): (s: Text)
    ensures s != [] && AllDigits(s) && DigitsValue(s) == n
  {
    if n < 10 then
      var s := [(n + 48) as byte];
      assert s[..0] == [];
      s
    else
      var front := FormatNat(n / 10);
      var s := front + [(n % 10 + 48) as byte];
      assert s[..|s| - 1] == front;
      s
  }

  function Format(n: int): (s: Text)
    ensures Int64(n) ==> Parse(s) == Some(n)
  {
    if n < 0 then
      var s := [45] + FormatNat(-n);
      assert s[1..] == FormatNat(-n);
      s
    else FormatNat(n)
  }
}

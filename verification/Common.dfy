// Value types, names of resources and decimal numbers shared by the models.
module Common {

  datatype Option<+T> = None | Some(value: T)

  datatype Result<+T, +E> = Success(value: T) | Failure(error: E)

  datatype GroupVersion = GroupVersion(group: string, version: string)

  datatype GroupResource = GroupResource(group: string, resource: string)

  datatype GroupVersionResource = GroupVersionResource(gr: GroupResource, version: string)

  // Names what a statement about all values of a type is meant to be used for.
  predicate About<T>(x: T) { true }

  predicate IsDigit(c: char) { '0' <= c <= '9' }

  predicate AllDigits(s: string) { forall i :: 0 <= i < |s| ==> IsDigit(s[i]) }

  function Decimal(s: string): nat
    requires AllDigits(s)
  {
    if s == "" then 0 else 10 * Decimal(s[..|s| - 1]) + (s[|s| - 1] - '0') as int
  }

  function Digits(n: nat): (s: string)
    ensures s != "" && AllDigits(s)
  {
    var last := ['0' + (n % 10) as char];
    if n < 10 then last else Digits(n / 10) + last
  }

  // Numbers survive being written out.
  lemma {:induction false} DigitsRoundTrip(n: nat)
    ensures Decimal(Digits(n)) == n
  {
    var s := Digits(n);
    if n >= 10 {
      DigitsRoundTrip(n / 10);
      assert s[..|s| - 1] == Digits(n / 10);
    }
  }
}

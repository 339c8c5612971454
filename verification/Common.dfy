/** What several modules share: octets, integer widths, options and lists without repetition. */
module Common {
  type byte = x: int | 0 <= x < 0x100

  const UINT16: nat := 0x1_0000
  const UINT32: nat := 0x1_0000_0000
  const UINT64: nat := 0x1_0000_0000_0000_0000

  datatype Option<+T> = None | Some(value: T)

  predicate Distinct<T(==)>(s: seq<T>) {
    forall i, j :: 0 <= i < j < |s| ==> s[i] != s[j]
  }

  /** The list without one element. */
  function Without<T(==,!new)>(s: seq<T>, x: T): (rest: seq<T>)
    ensures forall y :: y in rest <==> y in s && y != x
  {
    if s == [] then []
    else if s[0] == x then Without(s[1..], x)
    else [s[0]] + Without(s[1..], x)
  }

  lemma {:induction false} WithoutDistinct<T(!new)>(s: seq<T>, x: T)
    requires Distinct(s)
    ensures Distinct(Without(s, x))
  {
    if s != [] {
      assert forall k :: 0 <= k < |s[1..]| ==> s[1..][k] == s[k + 1];
      WithoutDistinct(s[1..], x);
      if s[0] != x {
        var rest := Without(s[1..], x);
        forall k | 0 <= k < |rest| ensures rest[k] != s[0] {
          assert rest[k] in s[1..];
        }
      }
    }
  }
}

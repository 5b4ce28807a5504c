/** Small datatypes and sequence functions shared by the other modules. */
module Common {

  datatype Option<+T> = None | Some(value: T)

  type byte = b: int | 0 <= b < 256

  /** The value type behind `NonZeroU32`. */
  type NonZeroU32 = n: int | 0 < n <= 0xFFFF_FFFF witness 1

  function Min(a: nat, b: nat): (m: nat)
    ensures m <= a && m <= b && (m == a || m == b)
  {
    if a <= b then a else b
  }

  function Max(a: nat, b: nat): (m: nat)
    ensures m >= a && m >= b && (m == a || m == b)
  {
    if a >= b then a else b
  }

  function Sum(s: seq<nat>): nat {
    if s == [] then 0 else Sum(s[..|s| - 1]) + s[|s| - 1]
  }

  function Last(s: seq<nat>): nat {
    if s == [] then 0 else s[|s| - 1]
  }

  /** The last element after one more. */
  lemma LastSnoc(s: seq<nat>, x: nat)
    ensures Last(s + [x]) == x && Last([]) == 0
  {
  }

  /** Sum after one more element. */
  lemma SumSnoc(s: seq<nat>, x: nat)
    ensures Sum(s + [x]) == Sum(s) + x
  {
    assert (s + [x])[..|s|] == s;
  }
}

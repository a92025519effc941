/** Shapes shared by the models: an optional value, how a remote call ends, and sums over a sequence. */
module Common {

  datatype Option<+T> = None | Some(value: T)

  /** How a remote call goes: a call that fails may have taken effect. */
  datatype Fate = Works | FailsBefore | FailsAfter

  /** The sum of a weight over the elements of a sequence. */
  function Sum<T>(weight: T -> nat, s: seq<T>): (total: nat)
  {
    if s == [] then 0 else Sum(weight, s[..|s| - 1]) + weight(s[|s| - 1])
  }

  /** Replacing one element changes the sum by the difference of the two weights. */
  lemma {:induction false} SumUpdate<T>(weight: T -> nat, s: seq<T>, i: nat, x: T)
    requires i < |s|
    ensures Sum(weight, s[i := x]) + weight(s[i]) == Sum(weight, s) + weight(x)
  {
    var last := |s| - 1;
    if i == last {
      assert s[i := x][..last] == s[..last];
    } else {
      SumUpdate(weight, s[..last], i, x);
      assert s[i := x][..last] == s[..last][i := x];
    }
  }

  lemma SumAppend<T>(weight: T -> nat, s: seq<T>, x: T)
    ensures Sum(weight, s + [x]) == Sum(weight, s) + weight(x)
  {
    assert (s + [x])[..|s|] == s;
  }
}

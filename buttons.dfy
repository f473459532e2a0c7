/** Button groups seen as the sequence of their `active` flags, in document order. */
module Buttons {

  /** The caption of a group's "no restriction" button; a search sends it to say that the
      group does not filter. */
  const NoLimit := "제한없음"

  /** How many buttons are active: `querySelectorAll('.tag-btn.active').length`. */
  function CountTrue(s: seq<bool>): (n: nat)
    ensures n <= |s|
  {
    if s == [] then 0 else (if s[0] then 1 else 0) + CountTrue(s[1..])
  }

  /** Only the button at index `k` is active (none, when `k` is out of range). */
  function OneHot(n: nat, k: int): (r: seq<bool>)
    ensures |r| == n
    ensures forall i :: 0 <= i < n ==> (r[i] <==> i == k)
  {
    seq(n, i => i == k)
  }

  /** No button is counted exactly when every flag is off. */
  lemma {:induction false} CountTrueZeroIff(s: seq<bool>)
    ensures CountTrue(s) == 0 <==> forall i :: 0 <= i < |s| ==> !s[i]
  {
    if s != [] {
      CountTrueZeroIff(s[1..]);
      assert forall i :: 1 <= i < |s| ==> s[i] == s[1..][i - 1];
    }
  }

  /** Exactly one button is counted in a one-hot group with an index in range. */
  lemma {:induction false} CountTrueOneHot(n: nat, k: int)
    ensures CountTrue(OneHot(n, k)) == if 0 <= k < n then 1 else 0
  {
    if n > 0 {
      var s := OneHot(n, k);
      assert s[1..] == OneHot(n - 1, k - 1);
      CountTrueOneHot(n - 1, k - 1);
    }
  }
}

/** The font-size button cycles through the levels of `fontSizes`. */
module FontSize {

  /** `['level1', 'level2', 'level3']` */
  const Levels: seq<string> := ["level1", "level2", "level3"]

  /** `(currentFontSizeIndex + 1) % fontSizes.length`: the next level, wrapping back to the
      first after the last. */
  function Next(i: nat): (r: nat)
    ensures r < |Levels|
    ensures i + 1 < |Levels| ==> r == i + 1
    ensures i + 1 == |Levels| ==> r == 0
  {
    (i + 1) % |Levels|
  }

  /** The index after `k` presses of the button, starting at `i`. */
  function Presses(i: nat, k: nat): nat {
    if k == 0 then i else Next(Presses(i, k - 1))
  }

  /** Starting from any valid index, `k` presses land on `(i + k) mod 3`: every level is
      reached and every third press returns to where it started. */
  lemma {:induction false} PressesAdvance(i: nat, k: nat)
    requires i < |Levels|
    ensures Presses(i, k) == (i + k) % |Levels|
  {
    if k > 0 {
      PressesAdvance(i, k - 1);
    }
  }
}

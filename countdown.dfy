/** The one-second countdown loop shared by the lobby and the wave banner:
    its counter starts at a float duration setting truncated to an int and
    steps down by one while it is positive. */
module Countdown {

  /** C#'s `(int)` cast of a float: truncation toward zero. */
  function TruncateToInt(x: real): (r: int)
    ensures x >= 0.0 ==> 0 <= r && r as real <= x < r as real + 1.0
    ensures x < 0.0 ==> r <= 0 && r as real - 1.0 < x <= r as real
  {
    if x >= 0.0 then x.Floor else -((-x).Floor)
  }

  /** The values the loop variable takes, in order: n, n-1, ..., 1, and
      nothing when n <= 0. */
  function Ticks(n: int): (r: seq<int>)
    ensures |r| == if n > 0 then n else 0
    ensures forall i :: 0 <= i < |r| ==> r[i] == n - i
    decreases n
  {
    if n <= 0 then [] else [n] + Ticks(n - 1)
  }

  /** Ticks strictly decrease and end at 1. */
  lemma {:induction false} TicksDescendToOne(n: int)
    requires n > 0
    ensures Ticks(n)[|Ticks(n)| - 1] == 1
    ensures forall i, j :: 0 <= i < j < |Ticks(n)| ==> Ticks(n)[i] > Ticks(n)[j]
  {
    var t := Ticks(n);
    assert t[|t| - 1] == n - (|t| - 1);
    forall i, j | 0 <= i < j < |t| ensures t[i] > t[j] {
      assert t[i] == n - i && t[j] == n - j;
    }
  }

}

/** A position that only moves up: a client's place in the log, or a participant's read cursor. */
module RunningMax {

  function Larger(position: int, n: int): int {
    if n > position then n else position
  }

  /** The position after the numbers came in one by one. */
  function Highest(start: int, numbers: seq<int>): int {
    if numbers == [] then start
    else Larger(Highest(start, numbers[..|numbers| - 1]), numbers[|numbers| - 1])
  }

  /** The position is the largest number ever seen, in whatever order the numbers came. */
  lemma {:induction false} HighestIsMaximum(start: int, numbers: seq<int>)
    ensures start <= Highest(start, numbers)
    ensures forall n :: n in numbers ==> n <= Highest(start, numbers)
    ensures Highest(start, numbers) == start || Highest(start, numbers) in numbers
  {
    if numbers != [] {
      var init := numbers[..|numbers| - 1];
      HighestIsMaximum(start, init);
      assert numbers == init + [numbers[|numbers| - 1]];
    }
  }

  /** Hence the same numbers, however ordered, repeated or split, leave the same position. */
  lemma OrderDoesNotMatter(start: int, a: seq<int>, b: seq<int>)
    requires forall n :: n in a <==> n in b
    ensures Highest(start, a) == Highest(start, b)
  {
    HighestIsMaximum(start, a);
    HighestIsMaximum(start, b);
  }
}

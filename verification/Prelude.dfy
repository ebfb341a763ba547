/** Small shared vocabulary: optional values, counting, and minimum on reals. */
module Prelude {
  datatype Option<+T> = None | Some(value: T)

  /** One millisecond, and how long a result is kept for its client, in nanoseconds. */
  const MILLI := 1_000_000
  const RESULT_TTL := 300_000 * MILLI

  /** What is stored for a trace while it has no result. */
  const PROCESSING := "PROCESSING"

  function Min(x: real, y: real): real {
    if x <= y then x else y
  }

  /** The number of `true` answers in a sequence of answers. */
  function CountTrue(answers: seq<bool>): nat {
    if answers == [] then 0
    else (if answers[0] then 1 else 0) + CountTrue(answers[1..])
  }

  lemma {:induction false} CountTrueAppend(xs: seq<bool>, ys: seq<bool>)
    ensures CountTrue(xs + ys) == CountTrue(xs) + CountTrue(ys)
  {
    if xs == [] {
      assert xs + ys == ys;
    } else {
      assert (xs + ys)[1..] == xs[1..] + ys;
      CountTrueAppend(xs[1..], ys);
    }
  }

  /** Readings of a clock that never steps back, starting no earlier than `from`. */
  ghost predicate NonDecreasingFrom(from: int, clock: seq<int>) {
    && (forall i :: 0 <= i < |clock| ==> from <= clock[i])
    && (forall i, j :: 0 <= i < j < |clock| ==> clock[i] <= clock[j])
  }
}

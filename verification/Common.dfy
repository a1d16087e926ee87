/** Shared by every peripheral. */
module Common {

  /** A timer holds `None` when it is set to TIME_NEVER. */
  datatype Option<+T> = None | Some(value: T)

  function Max(a: int, b: int): int {
    if a < b then b else a
  }

  function Earlier(a: Option<int>, b: Option<int>): Option<int> {
    match (a, b)
    case (None, _) => b
    case (_, None) => a
    case (Some(x), Some(y)) => if y < x then b else a
  }

  /** The earliest of some times. */
  function Earliest(times: seq<Option<int>>): Option<int> {
    if times == [] then None else Earlier(Earliest(times[..|times| - 1]), times[|times| - 1])
  }

  lemma {:induction false} EarliestIsMinimum(times: seq<Option<int>>, t: int)
    requires Some(t) in times
    ensures Earliest(times).Some? && Earliest(times).value <= t
  {
    var n := |times| - 1;
    assert times == times[..n] + [times[n]];
    if times[n] != Some(t) {
      EarliestIsMinimum(times[..n], t);
    }
  }

  lemma {:induction false} EarliestIsOneOfThem(times: seq<Option<int>>)
    ensures Earliest(times).Some? ==> Earliest(times) in times
  {
    if times != [] {
      EarliestIsOneOfThem(times[..|times| - 1]);
    }
  }

  lemma EarliestWithOneMore(times: seq<Option<int>>, t: Option<int>)
    ensures Earliest(times + [t]) == Earlier(Earliest(times), t)
  {
    assert (times + [t])[..|times|] == times;
  }
}

/** Shared vocabulary: options, time, and facts about finite sets. */
module Base {
  datatype Option<+T> = None | Some(value: T)

  // Time instants are nanoseconds; session tables store whole seconds, as time.Time.Unix does.
  const SECOND: int := 1_000_000_000
  const MINUTE: int := 60 * SECOND

  function Unix(time: nat): nat {
    time / SECOND
  }

  function Max(a: int, b: int): int {
    if a < b then b else a
  }

  lemma UnixMonotonic(a: nat, b: nat)
    requires a <= b
    ensures Unix(a) <= Unix(b)
  {
  }

  lemma SubsetSize<T>(a: set<T>, b: set<T>)
    requires a <= b
    ensures |a| <= |b|
    ensures a != b ==> |a| < |b|
  {
    assert b == a + (b - a);
    assert |b| == |a| + |b - a|;
    if a != b {
      assert b - a != {};
    }
  }
}

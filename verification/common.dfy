/** Shared vocabulary. */
module Common {

  datatype Option<+T> = None | Some(value: T)

  /** A reading of the monotone clock, in nanoseconds. */
  type Instant = nat

  /** A backend's base URL, which is also its identity. */
  type Url = string

  /** The clock never runs backwards. */
  predicate Ordered(times: seq<Instant>) {
    forall i, j :: 0 <= i < j < |times| ==> times[i] <= times[j]
  }

  const TWO_64: nat := 0x1_0000_0000_0000_0000

  /** `fetch_add(1)` on a 64-bit counter. */
  function Bump(n: nat): (r: nat)
    ensures n + 1 < TWO_64 ==> r == n + 1
    ensures r < TWO_64 && r <= n + 1
  {
    (n + 1) % TWO_64
  }

  function Max(a: int, b: int): int {
    if a < b then b else a
  }

  function Min(a: int, b: int): int {
    if a < b then a else b
  }

  lemma SetSizes<T>(s: set<T>, x: T)
    ensures |s + {x}| == if x in s then |s| else |s| + 1
    ensures |s - {x}| == if x in s then |s| - 1 else |s|
  {
    if x in s {
      assert s + {x} == s;
    } else {
      assert s - {x} == s;
    }
  }
}

/** The service's bounded calculation log: newest last, at most five entries. */
module History {

  const Capacity: nat := 5

  /** `a` is a suffix of `b`. */
  predicate IsSuffix<T(==)>(a: seq<T>, b: seq<T>) {
    |a| <= |b| && b[|b| - |a|..] == a
  }

  /** The last `n` elements of `s` (all of them when there are fewer). */
  function LastN<T>(s: seq<T>, n: nat): (r: seq<T>)
    ensures |r| == if |s| <= n then |s| else n
  {
    if |s| <= n then s else s[|s| - n..]
  }

  /** `[...h, entry].slice(-5)`: the entry is appended and the oldest evicted past five. */
  function Push<T(==)>(h: seq<T>, entry: T): (r: seq<T>)
    ensures |r| == if |h| < Capacity then |h| + 1 else Capacity
    ensures IsSuffix(r, h + [entry])
    ensures r[|r| - 1] == entry
    ensures |h| < Capacity ==> r == h + [entry]
  {
    var all := h + [entry];
    if |all| <= Capacity then all else all[|all| - Capacity..]
  }

  /** Entries pushed one after another. */
  function PushAll<T(==)>(h: seq<T>, es: seq<T>): seq<T>
    decreases |es|
  {
    if es == [] then h else PushAll(Push(h, es[0]), es[1..])
  }

  /** Trimming to the last `n` before appending more and trimming again is the same as trimming once. */
  lemma LastNOfLastN<T>(x: seq<T>, y: seq<T>, n: nat)
    ensures LastN(LastN(x, n) + y, n) == LastN(x + y, n)
  {
    if |x| > n {
      var k := |x| - n;
      assert LastN(x, n) + y == (x + y)[k..];
    }
  }

  /** One push is trimming the extended log to its last five. */
  lemma PushIsLastN<T>(h: seq<T>, entry: T)
    ensures Push(h, entry) == LastN(h + [entry], Capacity)
  {
  }

  /**
   * Pushing entries one at a time into a log of at most five keeps exactly
   * the last five of the whole log, in order.
   */
  lemma {:induction false} PushAllKeepsLastFive<T>(h: seq<T>, es: seq<T>)
    requires |h| <= Capacity
    ensures PushAll(h, es) == LastN(h + es, Capacity)
    decreases |es|
  {
    if es == [] {
      assert h + es == h;
    } else {
      var h1 := Push(h, es[0]);
      assert PushAll(h, es) == PushAll(h1, es[1..]);
      PushIsLastN(h, es[0]);
      PushAllKeepsLastFive(h1, es[1..]);
      LastNOfLastN(h + [es[0]], es[1..], Capacity);
      assert es == [es[0]] + es[1..];
      assert h + [es[0]] + es[1..] == h + es;
    }
  }
}

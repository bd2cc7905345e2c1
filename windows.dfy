/**
 * Bounded windows over sequences: the suffix slice `s[-n:]` and the
 * fixed-capacity `collections.deque(maxlen=cap)` the dashboards append to.
 */
module Windows {

  /** The last `n` elements of `s`, or all of `s` when it is shorter (Python `s[-n:]` for n > 0). */
  function Last<T>(s: seq<T>, n: nat): (r: seq<T>)
    ensures |r| == if |s| <= n then |s| else n
    ensures r == s[|s| - |r|..]
  {
    if |s| <= n then s else s[|s| - n..]
  }

  /** `dq.append(x)` on a deque with `maxlen = cap`: the oldest element is dropped when full. */
  function Append<T>(s: seq<T>, x: T, cap: nat): (r: seq<T>)
    ensures |s| < cap ==> r == s + [x]
    ensures 0 < cap <= |s| ==> |r| == cap && r[cap - 1] == x && r[..cap - 1] == s[|s| - cap + 1..]
    ensures cap == 0 ==> r == []
  {
    Last(s + [x], cap)
  }

  /** `if dq: dq[-1] = x`: overwrite the newest slot of a non-empty deque, in place. */
  function SetLast<T>(s: seq<T>, x: T): (r: seq<T>)
    ensures |r| == |s|
    ensures forall i :: 0 <= i < |s| - 1 ==> r[i] == s[i]
    ensures s != [] ==> r[|s| - 1] == x
  {
    if s == [] then s else s[..|s| - 1] + [x]
  }

  /** A run of appends, oldest first. */
  function AppendAll<T>(s: seq<T>, xs: seq<T>, cap: nat): seq<T>
  {
    if xs == [] then s else Append(AppendAll(s, xs[..|xs| - 1], cap), xs[|xs| - 1], cap)
  }

  /** Appending to a deque that holds at most `cap` elements keeps it at most `cap`, and grows it by one until full. */
  lemma AppendBounded<T>(s: seq<T>, x: T, cap: nat)
    requires |s| <= cap
    ensures |Append(s, x, cap)| == if |s| < cap then |s| + 1 else cap
  {
  }

  /** A deque that has seen `xs` after holding `s` holds exactly the last `cap` of `s + xs`. */
  lemma {:induction false} AppendAllIsLast<T>(s: seq<T>, xs: seq<T>, cap: nat)
    requires |s| <= cap
    ensures AppendAll(s, xs, cap) == Last(s + xs, cap)
  {
    if xs != [] {
      var init, x := xs[..|xs| - 1], xs[|xs| - 1];
      calc {
        AppendAll(s, xs, cap);
        Append(AppendAll(s, init, cap), x, cap);
        { AppendAllIsLast(s, init, cap); }
        Append(Last(s + init, cap), x, cap);
        Last(Last(s + init, cap) + [x], cap);
        { LastOfLast(s + init, x, cap); }
        Last((s + init) + [x], cap);
        { assert (s + init) + [x] == s + xs; }
        Last(s + xs, cap);
      }
    }
  }

  /** Keeping the last `cap`, then appending and keeping the last `cap`, is keeping the last `cap` of the whole. */
  lemma LastOfLast<T>(s: seq<T>, x: T, cap: nat)
    ensures Last(Last(s, cap) + [x], cap) == Last(s + [x], cap)
  {
  }

  /** A smaller deque fed the same values as a larger one holds the newest part of the larger one. */
  lemma {:induction false} NarrowerAppend<T>(s: seq<T>, x: T, n: nat, cap: nat)
    requires n <= cap
    ensures Last(Append(s, x, cap), n) == Append(Last(s, n), x, n)
  {
    LastOfLast(s, x, n);
    var w := s + [x];
    assert Last(Last(w, cap), n) == Last(w, n);
  }
}

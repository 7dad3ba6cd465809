/**
 The port arithmetic of the punch scheduler: the per-id cursor over the shuffled ports, the
 (port, ip) targets one pass may try, and the predicted port interval.
 */
module Ports {
  import B = Bindings

  // The window of k positions at a cursor, clamped to the end of the ports, and the next cursor.
  function End(n: nat, start: nat, k: nat): nat {
    if start + k >= n then n else start + k
  }

  function Next(n: nat, start: nat, k: nat): nat {
    if start + k >= n then 0 else start + k
  }

  // Cursor and number of wraps after successful punches with these window sizes.
  function Cursor(n: nat, ks: seq<nat>): nat {
    if ks == [] then 0 else Next(n, Cursor(n, B.Front(ks)), B.Last(ks))
  }

  function Wraps(n: nat, ks: seq<nat>): nat {
    if ks == [] then 0
    else Wraps(n, B.Front(ks)) + if Cursor(n, B.Front(ks)) + B.Last(ks) >= n then 1 else 0
  }

  predicate Sizes(ks: seq<nat>) {
    forall k <- ks :: k > 0
  }

  lemma {:induction false} CursorInBounds(n: nat, ks: seq<nat>)
    requires n > 0
    ensures Cursor(n, ks) < n
  {
    if ks != [] {
      CursorInBounds(n, B.Front(ks));
    }
  }

  lemma CursorAfter(n: nat, ks: seq<nat>, k: nat)
    ensures Cursor(n, ks + [k]) == Next(n, Cursor(n, ks), k)
  {
    assert B.Front(ks + [k]) == ks;
  }

  function Window<T>(v: seq<T>, start: nat, k: nat): seq<T>
    requires start <= |v|
  {
    v[start..End(|v|, start, k)]
  }

  // Everything the windows of these punches showed, in order.
  function Shown<T>(v: seq<T>, ks: seq<nat>): seq<T>
    requires v != []
  {
    if ks == [] then []
    else
      CursorInBounds(|v|, B.Front(ks));
      Shown(v, B.Front(ks)) + Window(v, Cursor(|v|, B.Front(ks)), B.Last(ks))
  }

  function Copies<T>(v: seq<T>, times: nat): seq<T> {
    if times == 0 then [] else Copies(v, times - 1) + v
  }

  /** For any mix of window sizes the windows, put end to end, are one full pass over the ports for
      each wrap, then the ports up to the cursor: between two wraps they are contiguous, disjoint and
      show every position exactly once. */
  lemma {:induction false} WindowsPartition<T>(v: seq<T>, ks: seq<nat>)
    requires v != []
    ensures Cursor(|v|, ks) < |v|
    ensures Shown(v, ks) == Copies(v, Wraps(|v|, ks)) + v[..Cursor(|v|, ks)]
  {
    if ks != [] {
      WindowsPartition(v, B.Front(ks));
      var c, k := Cursor(|v|, B.Front(ks)), B.Last(ks);
      var passes := Copies(v, Wraps(|v|, B.Front(ks)));
      Stitch(passes, v, c, End(|v|, c, k));
      if c + k >= |v| {
        assert v[..|v|] == v;
      }
    }
  }

  lemma Stitch<T>(passes: seq<T>, v: seq<T>, c: nat, e: nat)
    requires c <= e <= |v|
    ensures (passes + v[..c]) + v[c..e] == passes + v[..e]
  {
  }

  function Constant(k: nat, calls: nat): seq<nat> {
    seq(calls, _ => k)
  }

  lemma {:induction false} ConstantCursor(n: nat, k: nat, calls: nat)
    requires k > 0 && calls * k < n
    ensures Cursor(n, Constant(k, calls)) == calls * k && Wraps(n, Constant(k, calls)) == 0
  {
    if calls > 0 {
      assert calls * k == (calls - 1) * k + k;
      ConstantCursor(n, k, calls - 1);
      assert B.Front(Constant(k, calls)) == Constant(k, calls - 1);
    }
  }

  /** At one window size the first wrap comes with the call whose window reaches the end. */
  lemma CycleLength(n: nat, k: nat, calls: nat)
    requires k > 0 && calls > 0 && (calls - 1) * k < n <= calls * k
    ensures forall j: nat :: j < calls ==> Wraps(n, Constant(k, j)) == 0
    ensures Wraps(n, Constant(k, calls)) == 1 && Cursor(n, Constant(k, calls)) == 0
  {
    forall j: nat | j < calls
      ensures Wraps(n, Constant(k, j)) == 0
    {
      MulMonotone(j, calls - 1, k);
      ConstantCursor(n, k, j);
    }
    assert calls * k == (calls - 1) * k + k;
    ConstantCursor(n, k, calls - 1);
    assert B.Front(Constant(k, calls)) == Constant(k, calls - 1);
  }

  lemma MulMonotone(a: nat, b: nat, k: nat)
    requires a <= b
    ensures a * k <= b * k
  {
  }

  // Targets of one pass

  function Row<P, I>(port: P, ips: seq<I>): seq<(P, I)> {
    seq(|ips|, q requires 0 <= q < |ips| => (port, ips[q]))
  }

  // All targets in the order the nested loop reaches them.
  function Pairs<P, I>(ports: seq<P>, ips: seq<I>): seq<(P, I)> {
    if ports == [] then [] else Row(ports[0], ips) + Pairs(ports[1..], ips)
  }

  // Those before the pass returns because its counter has reached max.
  function Tried<P, I>(ports: seq<P>, ips: seq<I>, max: nat): seq<(P, I)>
    requires max > 0
  {
    var all := Pairs(ports, ips);
    if |all| < max then all else all[..max - 1]
  }

  lemma Reassociate<T>(a: seq<T>, b: seq<T>, c: seq<T>)
    ensures a + (b + c) == (a + b) + c
  {
  }

  lemma {:induction false} PairAt<P, I>(ports: seq<P>, ips: seq<I>, j: nat, q: nat)
    requires j < |ports| && q < |ips|
    ensures |Pairs(ports, ips)| == |ports| * |ips|
    ensures j * |ips| + q < |ports| * |ips|
    ensures Pairs(ports, ips)[j * |ips| + q] == (ports[j], ips[q])
  {
    var m := |ips|;
    PairsLength(ports, ips);
    MulMonotone(j + 1, |ports|, m);
    assert (j + 1) * m == j * m + m;
    if j > 0 {
      PairAt(ports[1..], ips, j - 1, q);
      assert j * m + q - m == (j - 1) * m + q;
    }
  }

  lemma {:induction false} PairsLength<P, I>(ports: seq<P>, ips: seq<I>)
    ensures |Pairs(ports, ips)| == |ports| * |ips|
  {
    if ports != [] {
      PairsLength(ports[1..], ips);
      assert |ports| * |ips| == (|ports| - 1) * |ips| + |ips|;
    }
  }

  lemma {:induction false} PairOf<P, I>(ports: seq<P>, ips: seq<I>, p: nat) returns (j: nat, q: nat)
    requires p < |Pairs(ports, ips)|
    ensures j < |ports| && q < |ips| && p == j * |ips| + q
    ensures Pairs(ports, ips)[p] == (ports[j], ips[q])
  {
    if p < |ips| {
      j, q := 0, p;
    } else {
      j, q := PairOf(ports[1..], ips, p - |ips|);
      assert (j + 1) * |ips| == j * |ips| + |ips|;
      j := j + 1;
    }
  }

  lemma PairsDistinct<P, I>(ports: seq<P>, ips: seq<I>)
    requires B.Distinct(ports) && B.Distinct(ips)
    ensures B.Distinct(Pairs(ports, ips))
  {
    forall a, b | 0 <= a < b < |Pairs(ports, ips)|
      ensures Pairs(ports, ips)[a] != Pairs(ports, ips)[b]
    {
      var j, q := PairOf(ports, ips, a);
      var j', q' := PairOf(ports, ips, b);
      assert j != j' || q != q';
    }
  }

  // Where a value first stands in a list that may repeat it.
  function IndexOf<T(==)>(xs: seq<T>, x: T): (q: nat)
    requires x in xs
    ensures q < |xs| && xs[q] == x && forall i :: 0 <= i < q ==> xs[i] != x
  {
    if xs[0] == x then 0 else 1 + IndexOf(xs[1..], x)
  }

  /** The target of the port at offset j and the q-th ip stands at j * m + q, if that comes before max. */
  lemma TriedAt<P, I>(ports: seq<P>, ips: seq<I>, max: nat, j: nat, q: nat)
    requires max > 0 && j < |ports| && q < |ips|
    ensures j * |ips| + q < |Tried(ports, ips, max)| <==> j * |ips| + q + 1 < max
    ensures j * |ips| + q + 1 < max ==> Tried(ports, ips, max)[j * |ips| + q] == (ports[j], ips[q])
  {
    PairAt(ports, ips, j, q);
  }

  /** The port at offset j is tried on an ip exactly when their first place in the loop comes before
      max. */
  lemma TriedIff<P, I>(ports: seq<P>, ips: seq<I>, max: nat, j: nat, ip: I)
    requires max > 0 && j < |ports| && ip in ips && B.Distinct(ports)
    ensures (ports[j], ip) in Tried(ports, ips, max) <==> j * |ips| + IndexOf(ips, ip) + 1 < max
  {
    var tried := Tried(ports, ips, max);
    TriedAt(ports, ips, max, j, IndexOf(ips, ip));
    if p :| 0 <= p < |tried| && tried[p] == (ports[j], ip) {
      var j', q := PairOf(ports, ips, p);
      assert j' == j && IndexOf(ips, ip) <= q;
    }
  }

  // Targets tried through the windows of a sequence of punches, each with its own list of ips.
  function TriedOver<P, I>(v: seq<P>, ks: seq<nat>, ips: seq<seq<I>>): seq<(P, I)>
    requires v != [] && Sizes(ks) && |ips| == |ks|
  {
    if ks == [] then []
    else
      CursorInBounds(|v|, B.Front(ks));
      assert B.Last(ks) in ks && forall k <- B.Front(ks) :: k in ks;
      TriedOver(v, B.Front(ks), B.Front(ips))
      + Tried(Window(v, Cursor(|v|, B.Front(ks)), B.Last(ks)), B.Last(ips), B.Last(ks))
  }

  // A target is tried only on an ip that is listed.
  lemma TriedListed<P, I>(ports: seq<P>, ips: seq<I>, max: nat, port: P, ip: I)
    requires max > 0 && (port, ip) in Tried(ports, ips, max)
    ensures ip in ips
  {
    var p :| 0 <= p < |Tried(ports, ips, max)| && Tried(ports, ips, max)[p] == (port, ip);
    var _, q := PairOf(ports, ips, p);
  }

  // The ip is listed, and the port at position p comes early enough in its window of k to be tried on it.
  predicate HasRoom<I(==)>(ips: seq<I>, k: nat, p: nat, ip: I)
    requires k > 0
  {
    ip in ips && (p % k) * |ips| + IndexOf(ips, ip) + 1 < k
  }

  ghost predicate AllDistinct<I>(ips: seq<seq<I>>) {
    forall d :: 0 <= d < |ips| ==> B.Distinct(ips[d])
  }

  ghost predicate FromPositions<P, I>(v: seq<P>, lo: nat, hi: nat, tried: seq<(P, I)>) {
    forall t <- tried :: exists a :: lo <= a < hi && a < |v| && v[a] == t.0
  }

  // The port at position p has been tried on exactly the ips for which its window left it room, when the
  // d-th window went with the d-th list of ips.
  ghost predicate TriedRight<P, I(!new)>(v: seq<P>, ips: seq<seq<I>>, k: nat, p: nat, tried: seq<(P, I)>)
    requires k > 0 && p < |v|
  {
    p / k < |ips| && forall ip :: (v[p], ip) in tried <==> HasRoom(ips[p / k], k, p, ip)
  }

  // What the windows up to a position have tried.
  ghost predicate Covered<P, I(!new)>(v: seq<P>, ips: seq<seq<I>>, k: nat, upto: nat, tried: seq<(P, I)>)
    requires k > 0
  {
    upto <= |v| && (AllDistinct(ips) ==> B.Distinct(tried)) && FromPositions(v, 0, upto, tried)
    && (forall p :: 0 <= p < upto ==> TriedRight(v, ips, k, p, tried))
  }

  lemma DivModUnique(x: nat, k: nat, d: nat, r: nat)
    requires k > 0 && r < k && x == d * k + r
    ensures x / k == d && x % k == r
  {
    var e := x / k - d;
    assert x % k - r == -e * k;
    if e >= 1 {
      MulMonotone(1, e, k);
    } else if e <= -1 {
      MulMonotone(1, -e, k);
    }
  }

  lemma WindowTried<P, I>(v: seq<P>, ips: seq<I>, k: nat, s: nat)
    requires k > 0 && s < |v| && B.Distinct(v)
    ensures B.Distinct(Window(v, s, k)) && (B.Distinct(ips) ==> B.Distinct(Tried(Window(v, s, k), ips, k)))
    ensures FromPositions(v, s, End(|v|, s, k), Tried(Window(v, s, k), ips, k))
  {
    var w := Window(v, s, k);
    assert forall i :: 0 <= i < |w| ==> w[i] == v[s + i];
    if B.Distinct(ips) {
      PairsDistinct(w, ips);
    }
    var more := Tried(w, ips, k);
    forall x <- more
      ensures exists a :: s <= a < End(|v|, s, k) && a < |v| && v[a] == x.0
    {
      var p :| 0 <= p < |more| && more[p] == x;
      var j, q := PairOf(w, ips, p);
      assert v[s + j] == x.0;
    }
  }

  // Targets from disjoint stretches of distinct ports differ.
  lemma Disjoint<P, I>(v: seq<P>, a: nat, b: nat, c: nat, early: seq<(P, I)>, late: seq<(P, I)>)
    requires B.Distinct(v) && a <= b <= c <= |v|
    requires FromPositions(v, a, b, early) && FromPositions(v, b, c, late)
    ensures forall x <- early :: x !in late
    ensures FromPositions(v, a, c, early + late)
  {
    forall x <- early
      ensures x !in late
    {
      var i :| a <= i < b && v[i] == x.0;
    }
  }

  lemma NotFrom<P, I>(v: seq<P>, lo: nat, hi: nat, tried: seq<(P, I)>, p: nat, ip: I)
    requires B.Distinct(v) && hi <= |v| && p < |v| && !(lo <= p < hi)
    requires FromPositions(v, lo, hi, tried)
    ensures (v[p], ip) !in tried
  {
  }

  lemma CoverStep<P, I(!new)>(v: seq<P>, ips: seq<seq<I>>, k: nat, windows: nat, tried: seq<(P, I)>)
    requires k > 0 && windows * k < |v| && B.Distinct(v) && |ips| == windows + 1
    requires Covered(v, B.Front(ips), k, windows * k, tried)
    ensures Covered(v, ips, k, End(|v|, windows * k, k), tried + Tried(Window(v, windows * k, k), B.Last(ips), k))
  {
    var s := windows * k;
    var w, e := Window(v, s, k), End(|v|, s, k);
    var more := Tried(w, B.Last(ips), k);
    WindowTried(v, B.Last(ips), k, s);
    Disjoint(v, 0, s, e, tried, more);
    assert AllDistinct(ips) ==> B.Distinct(tried + more) by {
      assert forall i :: 0 <= i < |tried| ==> tried[i] in tried;
      assert forall j :: 0 <= j < |more| ==> more[j] in more;
    }
    forall p | 0 <= p < e
      ensures TriedRight(v, ips, k, p, tried + more)
    {
      if p < s {
        TriedBefore(v, ips, k, p, s, e, tried, more);
      } else {
        TriedNow(v, ips, k, windows, p, tried);
      }
    }
  }

  lemma TriedBefore<P, I(!new)>(v: seq<P>, ips: seq<seq<I>>, k: nat, p: nat, s: nat, e: nat,
                                tried: seq<(P, I)>, more: seq<(P, I)>)
    requires k > 0 && ips != [] && p < s <= e <= |v| && B.Distinct(v)
    requires TriedRight(v, B.Front(ips), k, p, tried) && FromPositions(v, s, e, more)
    ensures TriedRight(v, ips, k, p, tried + more)
  {
    forall ip
      ensures (v[p], ip) !in more
    {
      NotFrom(v, s, e, more, p, ip);
    }
  }

  lemma TriedNow<P, I(!new)>(v: seq<P>, ips: seq<seq<I>>, k: nat, windows: nat, p: nat, tried: seq<(P, I)>)
    requires k > 0 && |ips| == windows + 1 && B.Distinct(v)
    requires windows * k <= p < End(|v|, windows * k, k) && windows * k < |v|
    requires FromPositions(v, 0, windows * k, tried)
    ensures TriedRight(v, ips, k, p, tried + Tried(Window(v, windows * k, k), B.Last(ips), k))
  {
    DivModUnique(p, k, windows, p - windows * k);
    forall ip
      ensures (v[p], ip) !in tried
      ensures (v[p], ip) in Tried(Window(v, windows * k, k), B.Last(ips), k) <==> HasRoom(B.Last(ips), k, p, ip)
    {
      NotFrom(v, 0, windows * k, tried, p, ip);
      InWindow(v, B.Last(ips), k, windows, p, ip);
    }
  }

  // Of the ports in a window exactly those with room are tried.
  lemma InWindow<P, I>(v: seq<P>, ips: seq<I>, k: nat, windows: nat, p: nat, ip: I)
    requires k > 0 && windows * k < |v| && B.Distinct(v) && windows * k <= p < End(|v|, windows * k, k)
    ensures (v[p], ip) in Tried(Window(v, windows * k, k), ips, k) <==> HasRoom(ips, k, p, ip)
  {
    var s, j := windows * k, p % k;
    var w := Window(v, s, k);
    WindowTried(v, ips, k, s);
    DivModUnique(p, k, windows, p - s);
    assert j < |w| && w[j] == v[p];
    TriedIffRoom(w, ips, k, p, j, ip);
  }

  lemma TriedIffRoom<P, I>(w: seq<P>, ips: seq<I>, k: nat, p: nat, j: nat, ip: I)
    requires k > 0 && j == p % k && j < |w| && B.Distinct(w)
    ensures (w[j], ip) in Tried(w, ips, k) <==> HasRoom(ips, k, p, ip)
  {
    if ip in ips {
      TriedIff(w, ips, k, j, ip);
    } else if (w[j], ip) in Tried(w, ips, k) {
      TriedListed(w, ips, k, w[j], ip);
    }
  }

  lemma {:induction false} ConstantCover<P, I(!new)>(v: seq<P>, ips: seq<seq<I>>, k: nat)
    requires k > 0 && B.Distinct(v) && ips != [] && (|ips| - 1) * k < |v|
    ensures Covered(v, ips, k, End(|v|, (|ips| - 1) * k, k), TriedOver(v, Constant(k, |ips|), ips))
  {
    var calls := |ips|;
    var ks := Constant(k, calls);
    assert B.Front(ks) == Constant(k, calls - 1);
    ConstantCursor(|v|, k, calls - 1);
    if calls > 1 {
      assert (calls - 1) * k == (calls - 2) * k + k;
      ConstantCover(v, B.Front(ips), k);
    }
    CoverStep(v, ips, k, calls - 1, TriedOver(v, B.Front(ks), B.Front(ips)));
  }

  lemma WholeCover<P, I(!new)>(v: seq<P>, ips: seq<seq<I>>, k: nat, last: nat)
    requires k > 0 && B.Distinct(v) && ips != [] && last == (|ips| - 1) * k && last < |v| <= last + k
    ensures Covered(v, ips, k, |v|, TriedOver(v, Constant(k, |ips|), ips))
  {
    ConstantCover(v, ips, k);
  }

  /** A whole cycle at one window size, each punch with its own list of ips: the port at position p is
      tried on an ip exactly when the punch whose window it is in lists the ip and its offset in the
      window leaves room, and no target is tried twice unless a list names an ip twice. */
  lemma CycleCoverage<P, I(!new)>(v: seq<P>, ips: seq<seq<I>>, k: nat)
    requires k > 0 && B.Distinct(v)
    requires ips != [] && (|ips| - 1) * k < |v| <= |ips| * k
    ensures Covered(v, ips, k, |v|, TriedOver(v, Constant(k, |ips|), ips))
  {
    Distribute(|ips|, k);
    WholeCover(v, ips, k, (|ips| - 1) * k);
  }

  lemma {:induction false} CursorMultiple(n: nat, k: nat, calls: nat) returns (windows: nat)
    requires k > 0 && n > 0
    ensures Cursor(n, Constant(k, calls)) == windows * k
  {
    windows := 0;
    if calls > 0 {
      windows := CursorMultiple(n, k, calls - 1);
      assert B.Front(Constant(k, calls)) == Constant(k, calls - 1);
      assert (windows + 1) * k == windows * k + k;
      windows := if windows * k + k >= n then 0 else windows + 1;
    }
  }

  lemma WindowMisses<P, I>(v: seq<P>, ips: seq<I>, k: nat, windows: nat, p: nat, ip: I)
    requires k > 0 && windows * k < |v| && p < |v| && B.Distinct(v) && !HasRoom(ips, k, p, ip)
    ensures (v[p], ip) !in Tried(Window(v, windows * k, k), ips, k)
  {
    var s := windows * k;
    if s <= p < End(|v|, s, k) {
      InWindow(v, ips, k, windows, p, ip);
    } else {
      WindowTried(v, ips, k, s);
      NotFrom(v, s, End(|v|, s, k), Tried(Window(v, s, k), ips, k), p, ip);
    }
  }

  /** Further cycles at the same window size do not help: a target for which no punch's list leaves room
      is never tried, however many punches follow. */
  lemma {:induction false} LeftOutForGood<P, I>(v: seq<P>, ips: seq<seq<I>>, k: nat, p: nat, ip: I)
    requires k > 0 && p < |v| && B.Distinct(v)
    requires forall d :: 0 <= d < |ips| ==> !HasRoom(ips[d], k, p, ip)
    ensures (v[p], ip) !in TriedOver(v, Constant(k, |ips|), ips)
  {
    if ips != [] {
      LeftOutForGood(v, B.Front(ips), k, p, ip);
      assert B.Front(Constant(k, |ips|)) == Constant(k, |ips| - 1);
      var windows := CursorMultiple(|v|, k, |ips| - 1);
      CursorInBounds(|v|, Constant(k, |ips| - 1));
      WindowMisses(v, B.Last(ips), k, windows, p, ip);
    }
  }

  // Every punch lists one ip, not necessarily the same.
  ghost predicate OneIpEach<I>(ips: seq<seq<I>>) {
    forall d :: 0 <= d < |ips| ==> |ips[d]| == 1
  }

  lemma OneIpWindow<P, I>(w: seq<P>, ips: seq<I>, k: nat)
    requires k > 0 && |ips| == 1
    ensures |Tried(w, ips, k)| == if |w| < k then |w| else k - 1
  {
    PairsLength(w, ips);
  }

  // With one ip a window of w ports tries w of them, or k - 1 when it is full.
  lemma {:induction false} OneIpCount<P, I>(v: seq<P>, ips: seq<seq<I>>, k: nat)
    requires k > 0 && v != [] && |ips| * k <= |v| - 1 && OneIpEach(ips)
    ensures |TriedOver(v, Constant(k, |ips|), ips)| == |ips| * (k - 1)
  {
    var calls := |ips|;
    if calls > 0 {
      Distribute(calls, k);
      Distribute(calls, k - 1);
      OneIpCount(v, B.Front(ips), k);
      ConstantCursor(|v|, k, calls - 1);
      assert B.Front(Constant(k, calls)) == Constant(k, calls - 1);
      OneIpWindow(Window(v, (calls - 1) * k, k), B.Last(ips), k);
    }
  }

  lemma Distribute(a: nat, k: nat)
    requires a > 0
    ensures a * k == (a - 1) * k + k
  {
  }

  lemma LastWindow<P, I>(v: seq<P>, ips: seq<seq<I>>, k: nat, full: nat)
    requires k > 0 && full * k < |v| < full * k + k && OneIpEach(ips) && |ips| == full + 1
    ensures |TriedOver(v, Constant(k, full + 1), ips)| == full * (k - 1) + (|v| - full * k)
  {
    OneIpCount(v, B.Front(ips), k);
    ConstantCursor(|v|, k, full);
    assert B.Front(Constant(k, full + 1)) == Constant(k, full);
    OneIpWindow(Window(v, full * k, k), B.Last(ips), k);
  }

  // The predicted interval, in 16-bit arithmetic

  const TOP := 0x1_0000

  function MinPort(port: nat, range: nat): nat {
    if port > range then port - range else 1
  }

  function MaxPort(port: nat, range: nat): nat {
    if port + range >= TOP then 65535 else port + range
  }

  // max_port - min_port + 1, wrapping.
  function Span(port: nat, range: nat): nat {
    (MaxPort(port, range) - MinPort(port, range) + 1) % TOP
  }

  function Picks(port: nat, range: nat, most: nat): nat {
    if Span(port, range) > most then most else Span(port, range)
  }

  function Candidates(port: nat, range: nat): seq<nat> {
    var lo, hi := MinPort(port, range), MaxPort(port, range);
    seq(if hi > lo then hi - lo else 0, i => lo + i) + [hi]
  }

  /** The subtraction and the addition stay within 16 bits exactly when port and range are not both
      zero; when both are, the wrapped count is zero and nothing is picked. */
  lemma SpanFits(port: nat, range: nat, most: nat)
    requires port < TOP && range < TOP
    ensures (0 <= MaxPort(port, range) - MinPort(port, range) && MaxPort(port, range) - MinPort(port, range) + 1 < TOP)
            <==> !(port == 0 && range == 0)
    ensures port == 0 && range == 0 ==> Picks(port, range, most) == 0
  {
  }

  /** Otherwise the candidates are exactly the ports within range of port, each once, and however
      they are shuffled the ones picked are that many distinct members of the interval. */
  lemma PredictionInterval(port: nat, range: nat, most: nat, shuffled: seq<nat>)
    requires port < TOP && range < TOP && !(port == 0 && range == 0)
    requires multiset(shuffled) == multiset(Candidates(port, range))
    ensures forall x :: x in Candidates(port, range) <==> port - range <= x <= port + range && 1 <= x <= 65535
    ensures Picks(port, range, most) <= |shuffled| == |Candidates(port, range)|
    ensures Picks(port, range, most) == if |Candidates(port, range)| > most then most else |Candidates(port, range)|
    ensures B.Distinct(shuffled[..Picks(port, range, most)])
    ensures forall x <- shuffled[..Picks(port, range, most)] :: x in Candidates(port, range)
  {
    var all := Candidates(port, range);
    var lo, hi := MinPort(port, range), MaxPort(port, range);
    forall x | port - range <= x <= port + range && 1 <= x <= 65535
      ensures x in all
    {
      assert lo <= x <= hi;
      assert all[x - lo] == x;
    }
    assert B.Distinct(all);
    assert |all| == |multiset(all)| && |shuffled| == |multiset(shuffled)|;
    PermutationDistinct(all, shuffled);
    forall x <- shuffled
      ensures x in all
    {
      assert x in multiset(shuffled);
    }
  }

  lemma {:induction false} DistinctCounts<T>(s: seq<T>)
    ensures B.Distinct(s) <==> forall x :: multiset(s)[x] <= 1
  {
    if s != [] {
      var f := B.Front(s);
      assert s == f + [B.Last(s)];
      DistinctCounts(f);
      if B.Last(s) in f {
        assert multiset(s)[B.Last(s)] >= 2;
      }
      assert forall x :: multiset(s)[x] == multiset(f)[x] + if x == B.Last(s) then 1 else 0;
      assert B.Distinct(s) <==> B.Distinct(f) && B.Last(s) !in f;
    }
  }

  lemma PermutationDistinct<T>(a: seq<T>, b: seq<T>)
    requires multiset(a) == multiset(b) && B.Distinct(a)
    ensures B.Distinct(b)
  {
    DistinctCounts(a);
    DistinctCounts(b);
  }
}

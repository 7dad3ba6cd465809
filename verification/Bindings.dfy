/**
 The two-way route index reduced to what its lock protects: which key each id is bound to, and
 the ordered list of ids on each key. The replay of a history of these operations is the
 sequential specification that the table class and the lock step machine are both proved against.
 */
module Bindings {
  import opened Common

  type Id(==, !new)

  datatype Shape = Shape(bound: map<Id, RouteKey>, lists: map<RouteKey, seq<Id>>)

  // Other stands for an event that touches neither binding nor list, so that positions in an
  // operation history and in the event history it comes from are the same.
  datatype Op = Bind(id: Id, key: RouteKey) | Unbind(id: Id) | Other

  // Everything but that element, in the same order.
  function Retain<T(==)>(xs: seq<T>, x: T): seq<T> {
    if xs == [] then [] else (if xs[0] == x then [] else [xs[0]]) + Retain(xs[1..], x)
  }

  function Unlink(lists: map<RouteKey, seq<Id>>, id: Id, key: RouteKey): map<RouteKey, seq<Id>> {
    if key in lists then
      var rest := Retain(lists[key], id);
      if rest == [] then lists - {key} else lists[key := rest]
    else lists
  }

  function Join(lists: map<RouteKey, seq<Id>>, id: Id, key: RouteKey): map<RouteKey, seq<Id>> {
    if key !in lists then lists[key := [id]]
    else if id in lists[key] then lists
    else lists[key := lists[key] + [id]]
  }

  // The lists once an id about to be bound to key has left the key it was on, if that differs.
  function Left(s: Shape, id: Id, key: RouteKey): map<RouteKey, seq<Id>> {
    if id in s.bound && s.bound[id] != key then Unlink(s.lists, id, s.bound[id]) else s.lists
  }

  function Apply(s: Shape, op: Op): Shape {
    match op
    case Bind(id, key) => Shape(s.bound[id := key], Join(Left(s, id, key), id, key))
    case Unbind(id) =>
      if id in s.bound then Shape(s.bound - {id}, Unlink(s.lists, id, s.bound[id])) else s
    case Other => s
  }

  function Front<T>(h: seq<T>): seq<T>
    requires h != []
  {
    h[..|h| - 1]
  }

  function Last<T>(h: seq<T>): T
    requires h != []
  {
    h[|h| - 1]
  }

  function Replay(h: seq<Op>): Shape {
    if h == [] then Shape(map[], map[]) else Apply(Replay(Front(h)), Last(h))
  }

  predicate Distinct<T(==)>(s: seq<T>) {
    forall i, j :: 0 <= i < j < |s| ==> s[i] != s[j]
  }

  predicate OnList(lists: map<RouteKey, seq<Id>>, id: Id, key: RouteKey) {
    key in lists && id in lists[key]
  }

  predicate BoundTo(bound: map<Id, RouteKey>, id: Id, key: RouteKey) {
    id in bound && bound[id] == key
  }

  // The two tables agree about one id.
  ghost predicate AgreeOn(s: Shape, id: Id) {
    forall key :: OnList(s.lists, id, key) <==> BoundTo(s.bound, id, key)
  }

  predicate ProperLists(lists: map<RouteKey, seq<Id>>) {
    forall key <- lists :: lists[key] != [] && Distinct(lists[key])
  }

  // The tables are inverse to each other and no list is empty or repeats an id.
  ghost predicate Consistent(s: Shape) {
    ProperLists(s.lists) && forall id :: AgreeOn(s, id)
  }

  // Retain

  lemma {:induction false} RetainMembers<T>(xs: seq<T>, x: T)
    ensures forall y :: y in Retain(xs, x) <==> y in xs && y != x
    ensures Distinct(xs) ==> Distinct(Retain(xs, x))
    ensures x !in xs ==> Retain(xs, x) == xs
  {
    if xs != [] {
      RetainMembers(xs[1..], x);
      assert xs == [xs[0]] + xs[1..];
      if Distinct(xs) {
        assert xs[0] !in xs[1..];
        assert Distinct(xs[1..]);
      }
    }
  }

  lemma SortedTail(ids: seq<Id>, rank: map<Id, nat>)
    requires ids != [] && SortedBy(ids, rank)
    ensures SortedBy(ids[1..], rank)
    ensures forall x <- ids[1..] :: rank[ids[0]] < rank[x]
  {
    assert forall i :: 0 <= i < |ids[1..]| ==> ids[1..][i] == ids[i + 1];
  }

  lemma SortedCons(x: Id, ids: seq<Id>, rank: map<Id, nat>)
    requires SortedBy(ids, rank) && x in rank && forall y <- ids :: rank[x] < rank[y]
    ensures SortedBy([x] + ids, rank)
  {
    var all := [x] + ids;
    forall i, j | 0 <= i < j < |all|
      ensures rank[all[i]] < rank[all[j]]
    {
      assert all[j] == ids[j - 1] && ids[j - 1] in ids;
      assert i > 0 ==> all[i] == ids[i - 1];
    }
  }

  lemma {:induction false} RetainSorted(ids: seq<Id>, id: Id, rank: map<Id, nat>)
    requires SortedBy(ids, rank)
    ensures SortedBy(Retain(ids, id), rank)
  {
    if ids != [] {
      SortedTail(ids, rank);
      RetainSorted(ids[1..], id, rank);
      RetainMembers(ids[1..], id);
      var tail := Retain(ids[1..], id);
      if ids[0] == id {
        assert Retain(ids, id) == tail;
      } else {
        SortedCons(ids[0], tail, rank);
      }
    }
  }

  // Consistency

  lemma UnlinkEffect(lists: map<RouteKey, seq<Id>>, id: Id, key: RouteKey)
    requires ProperLists(lists)
    ensures ProperLists(Unlink(lists, id, key))
    ensures forall x, k :: OnList(Unlink(lists, id, key), x, k) <==> OnList(lists, x, k) && (x != id || k != key)
  {
    if key in lists {
      RetainMembers(lists[key], id);
    }
  }

  lemma JoinEffect(lists: map<RouteKey, seq<Id>>, id: Id, key: RouteKey)
    requires ProperLists(lists)
    ensures ProperLists(Join(lists, id, key))
    ensures forall x, k :: OnList(Join(lists, id, key), x, k) <==> OnList(lists, x, k) || (x == id && k == key)
  {
  }

  lemma LeftEffect(s: Shape, id: Id, key: RouteKey)
    requires Consistent(s)
    ensures ProperLists(Left(s, id, key))
    ensures forall x, k :: x != id ==> (OnList(Left(s, id, key), x, k) <==> OnList(s.lists, x, k))
    ensures forall k :: OnList(Left(s, id, key), id, k) ==> k == key
  {
    if id in s.bound && s.bound[id] != key {
      UnlinkEffect(s.lists, id, s.bound[id]);
    }
    assert AgreeOn(s, id);
  }

  lemma ApplyConsistent(s: Shape, op: Op)
    requires Consistent(s)
    ensures Consistent(Apply(s, op))
  {
    var s' := Apply(s, op);
    match op {
      case Other =>
      case Bind(id, key) =>
        LeftEffect(s, id, key);
        JoinEffect(Left(s, id, key), id, key);
        forall x
          ensures AgreeOn(s', x)
        {
          assert AgreeOn(s, x);
        }
      case Unbind(id) =>
        if id in s.bound {
          UnlinkEffect(s.lists, id, s.bound[id]);
        }
        forall x
          ensures AgreeOn(s', x)
        {
          assert AgreeOn(s, x);
        }
    }
  }

  lemma {:induction false} ReplayConsistent(h: seq<Op>)
    ensures Consistent(Replay(h))
  {
    if h != [] {
      ReplayConsistent(Front(h));
      ApplyConsistent(Replay(Front(h)), Last(h));
    }
  }

  // What the history alone says: the key of the last bind of an id, unless it was unbound since.
  function Binding(h: seq<Op>, id: Id): Option<RouteKey> {
    if h == [] then None
    else
      match Last(h)
      case Bind(x, key) => if x == id then Some(key) else Binding(Front(h), id)
      case Unbind(x) => if x == id then None else Binding(Front(h), id)
      case Other => Binding(Front(h), id)
  }

  // The operation at position n put id on key, and id has stayed on it ever since.
  ghost predicate JoinedAt(h: seq<Op>, id: Id, key: RouteKey, n: nat) {
    n < |h| && Binding(h[..n], id) != Some(key)
    && forall m :: n < m <= |h| ==> Binding(h[..m], id) == Some(key)
  }

  lemma {:induction false} ReplayBinding(h: seq<Op>, id: Id)
    ensures Binding(h, id) == (if id in Replay(h).bound then Some(Replay(h).bound[id]) else None)
  {
    if h != [] {
      ReplayBinding(Front(h), id);
    }
  }

  // Join order

  predicate SortedBy(ids: seq<Id>, rank: map<Id, nat>) {
    (forall i :: 0 <= i < |ids| ==> ids[i] in rank)
    && forall i, j :: 0 <= i < j < |ids| ==> rank[ids[i]] < rank[ids[j]]
  }

  // The position at which each bound id last joined its present key.
  function Ranks(h: seq<Op>): map<Id, nat> {
    if h == [] then map[]
    else
      var before := Ranks(Front(h));
      match Last(h)
      case Bind(id, key) => if Binding(Front(h), id) == Some(key) then before else before[id := |h| - 1]
      case Unbind(id) => before - {id}
      case Other => before
  }

  lemma {:induction false} RanksAreJoins(h: seq<Op>, id: Id)
    ensures id in Ranks(h) <==> Binding(h, id).Some?
    ensures id in Ranks(h) ==> JoinedAt(h, id, Binding(h, id).value, Ranks(h)[id])
  {
    if h != [] {
      var f := Front(h);
      RanksAreJoins(f, id);
      assert h[..|h|] == h;
      assert forall m :: 0 <= m <= |f| ==> h[..m] == f[..m];
      assert f[..|f|] == f;
    }
  }

  lemma JoinUnique(h: seq<Op>, id: Id, key: RouteKey, m: nat, n: nat)
    requires JoinedAt(h, id, key, m) && JoinedAt(h, id, key, n)
    ensures m == n
  {
  }

  ghost predicate ListsSorted(lists: map<RouteKey, seq<Id>>, rank: map<Id, nat>) {
    forall key <- lists :: SortedBy(lists[key], rank)
  }

  lemma UnlinkSorted(lists: map<RouteKey, seq<Id>>, id: Id, key: RouteKey, rank: map<Id, nat>)
    requires ListsSorted(lists, rank)
    ensures ListsSorted(Unlink(lists, id, key), rank)
  {
    if key in lists {
      RetainSorted(lists[key], id, rank);
    }
  }

  // Ranks that only change for an id on no list keep every list sorted.
  lemma SortedFrame(lists: map<RouteKey, seq<Id>>, id: Id, rank: map<Id, nat>, rank': map<Id, nat>)
    requires ListsSorted(lists, rank)
    requires forall key :: !OnList(lists, id, key)
    requires forall x :: x in rank && x != id ==> x in rank' && rank'[x] == rank[x]
    ensures ListsSorted(lists, rank')
  {
    forall key <- lists
      ensures SortedBy(lists[key], rank')
    {
      assert SortedBy(lists[key], rank);
      assert !OnList(lists, id, key);
    }
  }

  lemma {:induction false} RanksBounded(h: seq<Op>)
    ensures forall id <- Ranks(h) :: Ranks(h)[id] < |h|
  {
    if h != [] {
      RanksBounded(Front(h));
    }
  }

  lemma BindSorted(h: seq<Op>, id: Id, key: RouteKey)
    requires h != [] && Last(h) == Bind(id, key)
    requires ListsSorted(Replay(Front(h)).lists, Ranks(Front(h)))
    ensures ListsSorted(Replay(h).lists, Ranks(h))
  {
    var f := Front(h);
    var s := Replay(f);
    ReplayConsistent(f);
    ReplayBinding(f, id);
    assert AgreeOn(s, id);
    if Binding(f, id) == Some(key) {
      assert OnList(s.lists, id, key);
    } else {
      var left := Left(s, id, key);
      LeftEffect(s, id, key);
      if id in s.bound {
        UnlinkSorted(s.lists, id, s.bound[id], Ranks(f));
        UnlinkEffect(s.lists, id, s.bound[id]);
      }
      assert !OnList(left, id, key);
      SortedFrame(left, id, Ranks(f), Ranks(h));
      RanksBounded(f);
      JoinSorted(left, id, key, Ranks(h));
    }
  }

  // An id ranked after everyone may be appended.
  lemma JoinSorted(lists: map<RouteKey, seq<Id>>, id: Id, key: RouteKey, rank: map<Id, nat>)
    requires ListsSorted(lists, rank) && !OnList(lists, id, key)
    requires id in rank && forall x <- rank :: x != id ==> rank[x] < rank[id]
    ensures ListsSorted(Join(lists, id, key), rank)
  {
  }

  lemma UnbindSorted(h: seq<Op>, id: Id)
    requires h != [] && Last(h) == Unbind(id)
    requires ListsSorted(Replay(Front(h)).lists, Ranks(Front(h)))
    ensures ListsSorted(Replay(h).lists, Ranks(h))
  {
    var f := Front(h);
    var s := Replay(f);
    ReplayConsistent(f);
    assert AgreeOn(s, id);
    if id in s.bound {
      UnlinkSorted(s.lists, id, s.bound[id], Ranks(f));
      UnlinkEffect(s.lists, id, s.bound[id]);
    }
    SortedFrame(Replay(h).lists, id, Ranks(f), Ranks(h));
  }

  lemma {:induction false} ReplaySorted(h: seq<Op>)
    ensures ListsSorted(Replay(h).lists, Ranks(h))
  {
    if h != [] {
      ReplaySorted(Front(h));
      match Last(h) {
        case Other =>
        case Bind(id, key) => BindSorted(h, id, key);
        case Unbind(id) => UnbindSorted(h, id);
      }
    }
  }

  /** Each key's list is exactly the ids the history binds to it, in the order they last joined it:
      re-binding to the same key keeps the place, leaving and returning goes to the end. */
  lemma JoinOrder(h: seq<Op>, key: RouteKey)
    requires key in Replay(h).lists
    ensures forall id :: id in Replay(h).lists[key] <==> Binding(h, id) == Some(key)
    ensures forall i, j, m, n :: 0 <= i < j < |Replay(h).lists[key]|
              && JoinedAt(h, Replay(h).lists[key][i], key, m) && JoinedAt(h, Replay(h).lists[key][j], key, n)
              ==> m < n
    ensures forall id <- Replay(h).lists[key] :: exists n :: JoinedAt(h, id, key, n)
  {
    var s := Replay(h);
    var ids := s.lists[key];
    ReplayConsistent(h);
    ReplaySorted(h);
    forall id
      ensures id in ids <==> Binding(h, id) == Some(key)
      ensures id in ids ==> id in Ranks(h) && JoinedAt(h, id, key, Ranks(h)[id])
    {
      assert AgreeOn(s, id);
      assert OnList(s.lists, id, key) <==> BoundTo(s.bound, id, key);
      ReplayBinding(h, id);
      RanksAreJoins(h, id);
    }
    forall i, j, m, n | 0 <= i < j < |ids| && JoinedAt(h, ids[i], key, m) && JoinedAt(h, ids[j], key, n)
      ensures m < n
    {
      assert ids[i] in ids && ids[j] in ids;
      JoinUnique(h, ids[i], key, m, Ranks(h)[ids[i]]);
      JoinUnique(h, ids[j], key, n, Ranks(h)[ids[j]]);
    }
  }
}

/**
 The shared route tables: direct_route_table (id to route) and direct_route_table_time (key to
 ordered ids and two time stamps). Operations are specified by the replay of a history of events,
 and what the history alone says about bindings and stamps is proved of that replay.
 */
module RouteTable {
  import opened Common
  import B = Bindings

  type Id = B.Id

  datatype Entry = Entry(ids: seq<Id>, read: int, write: int)

  datatype Tables = Tables(routes: map<Id, Route>, times: map<RouteKey, Entry>)

  datatype Direction = Read | Write

  // Touched is a receive (Read) or a send (Write) recorded on a key.
  datatype Event =
    | Added(id: Id, route: Route, now: int)
    | Removed(id: Id)
    | Updated(id: Id, metric: nat, rt: int)
    | Touched(dir: Direction, key: RouteKey, now: int)

  function Stamp(e: Entry, dir: Direction): int {
    if dir.Read? then e.read else e.write
  }

  function DropId(times: map<RouteKey, Entry>, id: Id, key: RouteKey): map<RouteKey, Entry> {
    if key in times then
      var rest := B.Retain(times[key].ids, id);
      if rest == [] then times - {key} else times[key := times[key].(ids := rest)]
    else times
  }

  function PutId(times: map<RouteKey, Entry>, id: Id, key: RouteKey, now: int): map<RouteKey, Entry> {
    if key !in times then times[key := Entry([id], now, now)]
    else if id in times[key].ids then times
    else times[key := times[key].(ids := times[key].ids + [id])]
  }

  function Apply(t: Tables, e: Event): Tables {
    match e
    case Added(id, route, now) =>
      var key := route.Key();
      var left := if id in t.routes && t.routes[id].Key() != key
                  then DropId(t.times, id, t.routes[id].Key()) else t.times;
      Tables(t.routes[id := route], PutId(left, id, key, now))
    case Removed(id) =>
      if id in t.routes then Tables(t.routes - {id}, DropId(t.times, id, t.routes[id].Key())) else t
    case Updated(id, metric, rt) =>
      if id in t.routes then t.(routes := t.routes[id := t.routes[id].(metric := metric, rt := rt)]) else t
    case Touched(dir, key, now) =>
      if key !in t.times then t
      else if dir.Read? then t.(times := t.times[key := t.times[key].(read := now)])
      else t.(times := t.times[key := t.times[key].(write := now)])
  }

  function Replay(h: seq<Event>): Tables {
    if h == [] then Tables(map[], map[]) else Apply(Replay(B.Front(h)), B.Last(h))
  }

  // The two-way index inside the tables.

  function BoundKeys(routes: map<Id, Route>): map<Id, RouteKey> {
    map id | id in routes :: routes[id].Key()
  }

  function Lists(times: map<RouteKey, Entry>): map<RouteKey, seq<Id>> {
    map key | key in times :: times[key].ids
  }

  function ShapeOf(t: Tables): B.Shape {
    B.Shape(BoundKeys(t.routes), Lists(t.times))
  }

  ghost predicate Consistent(t: Tables) {
    B.Consistent(ShapeOf(t))
  }

  function OpOf(e: Event): B.Op {
    match e
    case Added(id, route, _) => B.Bind(id, route.Key())
    case Removed(id) => B.Unbind(id)
    case _ => B.Other
  }

  function Ops(h: seq<Event>): seq<B.Op> {
    seq(|h|, i requires 0 <= i < |h| => OpOf(h[i]))
  }

  lemma ListsOfDrop(times: map<RouteKey, Entry>, id: Id, key: RouteKey)
    ensures Lists(DropId(times, id, key)) == B.Unlink(Lists(times), id, key)
  {
  }

  lemma ListsOfPut(times: map<RouteKey, Entry>, id: Id, key: RouteKey, now: int)
    ensures Lists(PutId(times, id, key, now)) == B.Join(Lists(times), id, key)
  {
  }

  lemma ShapeOfApply(t: Tables, e: Event)
    ensures ShapeOf(Apply(t, e)) == B.Apply(ShapeOf(t), OpOf(e))
  {
    match e {
      case Added(id, route, now) =>
        var key := route.Key();
        assert BoundKeys(t.routes[id := route]) == BoundKeys(t.routes)[id := key];
        if id in t.routes && t.routes[id].Key() != key {
          ListsOfDrop(t.times, id, t.routes[id].Key());
          ListsOfPut(DropId(t.times, id, t.routes[id].Key()), id, key, now);
        } else {
          ListsOfPut(t.times, id, key, now);
        }
      case Removed(id) =>
        if id in t.routes {
          assert BoundKeys(t.routes - {id}) == BoundKeys(t.routes) - {id};
          ListsOfDrop(t.times, id, t.routes[id].Key());
        }
      case Updated(_, _, _) =>
        assert BoundKeys(Apply(t, e).routes) == BoundKeys(t.routes);
      case Touched(_, _, _) =>
        assert Lists(Apply(t, e).times) == Lists(t.times);
    }
  }

  lemma {:induction false} ShapeOfReplay(h: seq<Event>)
    ensures ShapeOf(Replay(h)) == B.Replay(Ops(h))
    ensures Consistent(Replay(h))
  {
    if h != [] {
      ShapeOfReplay(B.Front(h));
      ShapeOfApply(Replay(B.Front(h)), B.Last(h));
      assert B.Front(Ops(h)) == Ops(B.Front(h));
    }
    B.ReplayConsistent(Ops(h));
  }

  // Stamps against history

  // Some id is bound to the key, by the binds and unbinds of the history alone.
  ghost predicate Live(h: seq<Event>, key: RouteKey) {
    exists id :: B.Binding(Ops(h), id) == Some(key)
  }

  predicate Timed(e: Event) {
    e.Added? || e.Touched?
  }

  // Event n is a receive (send) recorded while the key was live, or the add that made it live.
  ghost predicate Refreshes(h: seq<Event>, dir: Direction, key: RouteKey, n: nat)
    requires n < |h|
  {
    match h[n]
    case Touched(d, k, _) => d == dir && k == key && Live(h[..n], key)
    case Added(_, route, _) => route.Key() == key && !Live(h[..n], key)
    case _ => false
  }

  ghost predicate LastRefresh(h: seq<Event>, dir: Direction, key: RouteKey, n: nat) {
    n < |h| && Refreshes(h, dir, key, n)
    && forall m :: n < m < |h| ==> !Refreshes(h, dir, key, m)
  }

  lemma LiveIsListed(h: seq<Event>, key: RouteKey)
    ensures Live(h, key) <==> key in Replay(h).times
  {
    ShapeOfReplay(h);
    var s := B.Replay(Ops(h));
    if key in Replay(h).times {
      assert key in s.lists;
      var id := s.lists[key][0];
      assert B.AgreeOn(s, id);
      assert B.OnList(s.lists, id, key);
      B.ReplayBinding(Ops(h), id);
    }
    if Live(h, key) {
      var id :| B.Binding(Ops(h), id) == Some(key);
      B.ReplayBinding(Ops(h), id);
      assert B.AgreeOn(s, id);
      assert B.OnList(s.lists, id, key);
    }
  }

  /** The stamp of a live key is the time of the last event that refreshed it: its creation in the
      current lifetime, or a receive (send) since. Other ids coming and going do not refresh it. */
  lemma {:induction false} StampHistory(h: seq<Event>, dir: Direction, key: RouteKey) returns (n: nat)
    requires key in Replay(h).times
    ensures LastRefresh(h, dir, key, n)
    ensures Timed(h[n]) && Stamp(Replay(h).times[key], dir) == h[n].now
  {
    n := |h| - 1;
    StampStep(h, dir, key);
    if !Refreshes(h, dir, key, n) {
      n := StampHistory(B.Front(h), dir, key);
      RefreshBefore(h, dir, key, n);
    }
  }

  // The event is recorded for a listed key, or lists it.
  predicate Stamps(t: Tables, e: Event, dir: Direction, key: RouteKey) {
    match e
    case Touched(d, k, _) => d == dir && k == key && key in t.times
    case Added(_, route, _) => route.Key() == key && key !in t.times
    case _ => false
  }

  lemma StampOfApply(t: Tables, e: Event, dir: Direction, key: RouteKey)
    requires key in Apply(t, e).times
    ensures Stamps(t, e, dir, key) ==> Timed(e) && Stamp(Apply(t, e).times[key], dir) == e.now
    ensures !Stamps(t, e, dir, key) ==> key in t.times && Stamp(Apply(t, e).times[key], dir) == Stamp(t.times[key], dir)
  {
  }

  // The last event gives the stamp if it refreshes the key, and otherwise leaves it.
  lemma StampStep(h: seq<Event>, dir: Direction, key: RouteKey)
    requires h != [] && key in Replay(h).times
    ensures Refreshes(h, dir, key, |h| - 1) ==> Timed(B.Last(h)) && Stamp(Replay(h).times[key], dir) == B.Last(h).now
    ensures !Refreshes(h, dir, key, |h| - 1) ==>
              key in Replay(B.Front(h)).times
              && Stamp(Replay(h).times[key], dir) == Stamp(Replay(B.Front(h)).times[key], dir)
  {
    LiveIsListed(B.Front(h), key);
    assert h[..|h| - 1] == B.Front(h);
    assert Refreshes(h, dir, key, |h| - 1) <==> Stamps(Replay(B.Front(h)), B.Last(h), dir, key);
    StampOfApply(Replay(B.Front(h)), B.Last(h), dir, key);
  }

  // A last refresh before the last event is still the last if that event is none.
  lemma RefreshBefore(h: seq<Event>, dir: Direction, key: RouteKey, n: nat)
    requires h != [] && LastRefresh(B.Front(h), dir, key, n) && !Refreshes(h, dir, key, |h| - 1)
    ensures LastRefresh(h, dir, key, n)
  {
    var f := B.Front(h);
    forall m | 0 <= m < |f|
      ensures Refreshes(h, dir, key, m) <==> Refreshes(f, dir, key, m)
    {
      assert h[..m] == f[..m] && h[m] == f[m];
    }
  }

  predicate IsUpdate(e: Event, id: Id) {
    e.Updated? && e.id == id
  }

  // The add that made the id's present route.
  ghost predicate LastAdd(h: seq<Event>, id: Id, n: nat) {
    n < |h| && h[n].Added? && h[n].id == id
    && forall m :: n < m < |h| ==> !(h[m].Added? && h[m].id == id) && h[m] != Removed(id)
  }

  /** A route is the one last added for its id, with the metric and rt of the latest update since. */
  lemma {:induction false} RouteHistory(h: seq<Event>, id: Id) returns (n: nat)
    requires id in Replay(h).routes
    ensures LastAdd(h, id, n) && Replay(h).routes[id].Key() == h[n].route.Key()
    ensures (forall m :: n < m < |h| ==> !IsUpdate(h[m], id)) ==> Replay(h).routes[id] == h[n].route
    ensures forall m :: n < m < |h| && IsUpdate(h[m], id) && (forall l :: m < l < |h| ==> !IsUpdate(h[l], id))
              ==> Replay(h).routes[id].metric == h[m].metric && Replay(h).routes[id].rt == h[m].rt
  {
    var f, e := B.Front(h), B.Last(h);
    n := |f|;
    if !(e.Added? && e.id == id) {
      n := RouteHistory(f, id);
      assert forall m :: 0 <= m < |f| ==> h[m] == f[m];
    }
  }

  // Clock readings never go back along the history.
  ghost predicate Monotone(h: seq<Event>) {
    forall m, n :: 0 <= m < n < |h| && Timed(h[m]) && Timed(h[n]) ==> h[m].now <= h[n].now
  }

  /** No receive (send) ever recorded on a live key is later than its stamp, whatever lifetime of
      the key it fell in. */
  lemma StampCoversHistory(h: seq<Event>, dir: Direction, key: RouteKey)
    requires key in Replay(h).times && Monotone(h)
    ensures forall m :: 0 <= m < |h| && h[m].Touched? && h[m].dir == dir && h[m].key == key
              ==> h[m].now <= Stamp(Replay(h).times[key], dir)
  {
    var n := StampHistory(h, dir, key);
    forall m | 0 <= m < |h| && h[m].Touched? && h[m].dir == dir && h[m].key == key
      ensures h[m].now <= h[n].now
    {
      assert m > n ==> !Refreshes(h, dir, key, m);
      if m > n {
        LiveIsListed(h, key);
        LiveSince(h, dir, key, n, m);
        assert false;
      }
    }
  }

  lemma OnlyAddsCreate(t: Tables, e: Event, key: RouteKey)
    requires key !in t.times && key in Apply(t, e).times
    ensures e.Added? && e.route.Key() == key
  {
  }

  // A key live at the end has been live since its last refresh.
  lemma {:induction false} LiveSince(h: seq<Event>, dir: Direction, key: RouteKey, n: nat, m: nat)
    requires LastRefresh(h, dir, key, n) && n < m <= |h| && Live(h, key)
    ensures Live(h[..m], key)
    decreases |h| - m
  {
    if m == |h| {
      assert h[..m] == h;
    } else {
      LiveSince(h, dir, key, n, m + 1);
      var f := h[..m + 1];
      assert B.Front(f) == h[..m] && B.Last(f) == h[m];
      LiveIsListed(f, key);
      LiveIsListed(h[..m], key);
      assert !Refreshes(h, dir, key, m);
      if !Live(h[..m], key) {
        OnlyAddsCreate(Replay(h[..m]), h[m], key);
        assert false;
      }
    }
  }

  /** The shared tables as every sender, channel and idle handle sees them. */
  class Table {
    var routes: map<Id, Route>
    var times: map<RouteKey, Entry>
    var token: bool  // the parker's wake-up token
    ghost var history: seq<Event>

    ghost function Now(): Tables
      reads this
    {
      Tables(routes, times)
    }

    ghost predicate Valid()
      reads this
    {
      Now() == Replay(history)
    }

    constructor ()
      ensures Valid() && history == [] && !token
    {
      routes, times, token, history := map[], map[], false, [];
    }

    // Takes id off the list of key, and the key out of the table when that empties its list.
    method RemoveIdRoute(id: Id, key: RouteKey)
      modifies this`times
      ensures times == DropId(old(times), id, key)
    {
      if key in times {
        var ids := B.Retain(times[key].ids, id);
        times := times[key := times[key].(ids := ids)];
        if ids == [] {
          times := times - {key};
        }
      }
    }

    method AddRoute(id: Id, route: Route, now: int)
      requires Valid()
      modifies this
      ensures Valid() && history == old(history) + [Added(id, route, now)] && token
      ensures Now() == Apply(old(Now()), Added(id, route, now))
      ensures routes == old(routes)[id := route]
      ensures RouteKey(route.index, route.addr) in times && id in times[RouteKey(route.index, route.addr)].ids
      ensures RouteKey(route.index, route.addr) !in old(times) ==>
                times[RouteKey(route.index, route.addr)] == Entry([id], now, now)
    {
      var key := route.Key();
      var previous := if id in routes then Some(routes[id]) else None;
      routes := routes[id := route];
      if previous.Some? && previous.value.Key() != key {
        RemoveIdRoute(id, previous.value.Key());
      }
      if key in times {
        if id !in times[key].ids {
          times := times[key := times[key].(ids := times[key].ids + [id])];
        }
      } else {
        times := times[key := Entry([id], now, now)];
      }
      token := true;
      history := history + [Added(id, route, now)];
      assert B.Front(history) == old(history);
    }

    method RemoveRoute(id: Id)
      requires Valid()
      modifies this`routes, this`times, this`history
      ensures Valid() && history == old(history) + [Removed(id)]
      ensures Now() == Apply(old(Now()), Removed(id))
      ensures routes == old(routes) - {id}
    {
      if id in routes {
        var key := routes[id].Key();
        routes := routes - {id};
        RemoveIdRoute(id, key);
      }
      history := history + [Removed(id)];
      assert B.Front(history) == old(history);
    }

    method UpdateRoute(id: Id, metric: nat, rt: int)
      requires Valid()
      modifies this`routes, this`history
      ensures Valid() && history == old(history) + [Updated(id, metric, rt)]
      ensures Now() == Apply(old(Now()), Updated(id, metric, rt))
      ensures routes.Keys == old(routes).Keys
      ensures forall x <- routes ::
                routes[x] == if x == id then old(routes)[x].(metric := metric, rt := rt) else old(routes)[x]
    {
      if id in routes {
        routes := routes[id := routes[id].(metric := metric, rt := rt)];
      }
      history := history + [Updated(id, metric, rt)];
      assert B.Front(history) == old(history);
    }

    // update_time on a receive, and the stamp taken by send_to_route before it sends.
    method Touch(dir: Direction, key: RouteKey, now: int)
      requires Valid()
      modifies this`times, this`history
      ensures Valid() && history == old(history) + [Touched(dir, key, now)]
      ensures Now() == Apply(old(Now()), Touched(dir, key, now))
      ensures times.Keys == old(times).Keys
      ensures forall k <- times :: times[k] ==
                match dir
                case Read => old(times)[k].(read := if k == key then now else old(times)[k].read)
                case Write => old(times)[k].(write := if k == key then now else old(times)[k].write)
    {
      if key in times {
        times := times[key := if dir.Read? then times[key].(read := now) else times[key].(write := now)];
      }
      history := history + [Touched(dir, key, now)];
      assert B.Front(history) == old(history);
    }

    // The first id on the key: of those the history binds to it, the one that joined it earliest.
    method RouteToId(key: RouteKey) returns (r: Option<Id>)
      requires Valid()
      ensures r.None? <==> !Live(history, key)
      ensures r.Some? ==> B.Binding(Ops(history), r.value) == Some(key)
      ensures r.Some? ==> forall other, m, n ::
                B.JoinedAt(Ops(history), r.value, key, m) && B.JoinedAt(Ops(history), other, key, n) ==> m <= n
    {
      ghost var h := Ops(history);
      LiveIsListed(history, key);
      ShapeOfReplay(history);
      if key !in times {
        return None;
      }
      ghost var ids := B.Replay(h).lists[key];
      assert ids == times[key].ids && ids != [];
      B.JoinOrder(h, key);
      r := Some(times[key].ids[0]);
      forall other, m, n | B.JoinedAt(h, r.value, key, m) && B.JoinedAt(h, other, key, n)
        ensures m <= n
      {
        assert h[..|h|] == h;
        assert other in ids;
        var j :| 0 <= j < |ids| && ids[j] == other;
        if j == 0 {
          B.JoinUnique(h, other, key, m, n);
        }
      }
    }
  }
}

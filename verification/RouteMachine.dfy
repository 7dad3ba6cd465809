/**
 The route tables under concurrency: one thread at a time holds the lock and performs an add or a
 remove one table operation after another, while any number of threads look keys up, store stamps,
 read a list head or update a metric without that lock, between any two of those operations.
 Entries are addressed by handles, so a reader may still hold an entry its key has left.
 */
module RouteMachine {
  import opened Common
  import B = Bindings

  type Id = B.Id
  type Handle = nat

  datatype Cell = Cell(key: RouteKey, ids: seq<Id>, read: int, write: int)

  datatype Job = Adding(id: Id, route: Route) | Removing(id: Id)

  // Where the lock holder stands; each phase ends with exactly one operation on a shared table.
  datatype Phase =
    | Free
    | Begun(job: Job)                             // about to write or erase the id's route
    | Unlinking(job: Job, prev: RouteKey)          // about to look up the id's former key
    | Retaining(job: Job, prev: RouteKey, h: Handle) // about to take the id off that entry's list
    | Deleting(job: Job, prev: RouteKey, h: Handle)  // list emptied and its mutex held; about to remove the key
    | Linking(job: Job)                           // about to look up the new key
    | Pushing(job: Job, h: Handle)                // about to append to that entry's list
    | Creating(job: Job)                          // about to insert a new entry
    | Ending(job: Job)                            // about to release the lock

  // An unlocked reader that has looked up key and still has to use the entry.
  datatype Held = Held(key: RouteKey, h: Handle)

  datatype Machine = Machine(
    routes: map<Id, Route>,
    index: map<RouteKey, Handle>,
    cells: seq<Cell>,
    holder: Phase,
    unparks: nat,              // adds that have released the lock and not yet unparked the idle thread
    readers: map<nat, Held>,
    log: seq<B.Op>)            // operations in the order their lock was released

  datatype Label =
    | Lock(job: Job)
    | Advance(now: int)
    | Unpark
    | Update(id: Id, metric: nat, rt: int)
    | Lookup(reader: nat, key: RouteKey)
    | Store(reader: nat, isRead: bool, now: int)
    | Peek(reader: nat)

  function OpOf(job: Job): B.Op {
    match job
    case Adding(id, route) => B.Bind(id, route.Key())
    case Removing(id) => B.Unbind(id)
  }

  function AfterUnlink(job: Job): Phase {
    if job.Adding? then Linking(job) else Ending(job)
  }

  const INIT := Machine(map[], map[], [], Free, 0, map[], [])

  // A reader needs the mutex of the entry's list, which the holder keeps while it removes the key.
  predicate Enabled(s: Machine, l: Label) {
    match l
    case Lock(_) => s.holder.Free?
    case Advance(_) => HolderFits(s)
    case Unpark => s.unparks > 0
    case Update(_, _, _) => true
    case Lookup(r, key) => r !in s.readers && key in s.index
    case Store(r, _, _) => r in s.readers && s.readers[r].h < |s.cells|
    case Peek(r) =>
      r in s.readers && s.readers[r].h < |s.cells|
      && !(s.holder.Deleting? && s.holder.h == s.readers[r].h)
  }

  // The lock is held, and by handles that exist.
  predicate HolderFits(s: Machine) {
    match s.holder
    case Free => false
    case Retaining(_, _, h) => h < |s.cells|
    case Pushing(job, h) => h < |s.cells| && job.Adding?
    case Linking(job) => job.Adding?
    case Creating(job) => job.Adding?
    case _ => true
  }

  function Work(s: Machine, now: int): Machine
    requires HolderFits(s)
  {
    match s.holder
    case Begun(Adding(id, route)) =>
      s.(routes := s.routes[id := route],
         holder := if id in s.routes && s.routes[id].Key() != route.Key()
                   then Unlinking(s.holder.job, s.routes[id].Key())
                   else Linking(s.holder.job))
    case Begun(Removing(id)) =>
      if id in s.routes
      then s.(routes := s.routes - {id}, holder := Unlinking(s.holder.job, s.routes[id].Key()))
      else s.(holder := Ending(s.holder.job))
    case Unlinking(job, prev) =>
      s.(holder := if prev in s.index then Retaining(job, prev, s.index[prev]) else AfterUnlink(job))
    case Retaining(job, prev, h) =>
      var rest := B.Retain(s.cells[h].ids, job.id);
      s.(cells := s.cells[h := s.cells[h].(ids := rest)],
         holder := if rest == [] then Deleting(job, prev, h) else AfterUnlink(job))
    case Deleting(job, prev, _) =>
      s.(index := s.index - {prev}, holder := AfterUnlink(job))
    case Linking(job) =>
      var key := job.route.Key();
      s.(holder := if key in s.index then Pushing(job, s.index[key]) else Creating(job))
    case Pushing(job, h) =>
      var ids := s.cells[h].ids;
      s.(cells := s.cells[h := s.cells[h].(ids := if job.id in ids then ids else ids + [job.id])],
         holder := Ending(job))
    case Creating(job) =>
      var key := job.route.Key();
      s.(index := s.index[key := |s.cells|],
         cells := s.cells + [Cell(key, [job.id], now, now)],
         holder := Ending(job))
    case Ending(job) =>
      s.(holder := Free, log := s.log + [OpOf(job)], unparks := s.unparks + if job.Adding? then 1 else 0)
  }

  function Do(s: Machine, l: Label): Machine
    requires Enabled(s, l)
  {
    match l
    case Lock(job) => s.(holder := Begun(job))
    case Advance(now) => Work(s, now)
    case Unpark => s.(unparks := s.unparks - 1)
    case Update(id, metric, rt) =>
      if id in s.routes
      then s.(routes := s.routes[id := s.routes[id].(metric := metric, rt := rt)]) else s
    case Lookup(r, key) => s.(readers := s.readers[r := Held(key, s.index[key])])
    case Store(r, isRead, now) =>
      var h := s.readers[r].h;
      s.(cells := s.cells[h := if isRead then s.cells[h].(read := now) else s.cells[h].(write := now)],
         readers := s.readers - {r})
    case Peek(r) => s.(readers := s.readers - {r})
  }

  // What route_to_id answers at a Peek.
  function Answer(s: Machine, r: nat): Option<Id>
    requires Enabled(s, Peek(r))
  {
    var ids := s.cells[s.readers[r].h].ids;
    if ids == [] then None else Some(ids[0])
  }

  ghost predicate Execution(run: seq<Machine>) {
    run != [] && run[0] == INIT
    && forall i :: 0 <= i < |run| - 1 ==> Next(run[i], run[i + 1])
  }

  ghost predicate Next(s: Machine, s': Machine) {
    exists l :: Enabled(s, l) && s' == Do(s, l)
  }

  // The two-way index in a machine state

  function Bound(s: Machine): map<Id, RouteKey> {
    map id | id in s.routes :: s.routes[id].Key()
  }

  predicate Addressed(s: Machine) {
    forall key <- s.index :: s.index[key] < |s.cells| && s.cells[s.index[key]].key == key
  }

  function Lists(s: Machine): map<RouteKey, seq<Id>>
    requires Addressed(s)
  {
    map key | key in s.index :: s.cells[s.index[key]].ids
  }

  predicate Current(s: Machine, h: Handle)
    requires h < |s.cells|
  {
    s.cells[h].key in s.index && s.index[s.cells[h].key] == h
  }

  // Entries that left the index are empty for good, and readers hold entries of the key they looked up.
  predicate Sound(s: Machine) {
    Addressed(s)
    && (forall h :: 0 <= h < |s.cells| ==> Current(s, h) || s.cells[h].ids == [])
    && (forall r <- s.readers :: s.readers[r].h < |s.cells| && s.cells[s.readers[r].h].key == s.readers[r].key)
  }

  function BoundAfter(bound: map<Id, RouteKey>, job: Job): map<Id, RouteKey> {
    match job
    case Adding(id, route) => bound[id := route.Key()]
    case Removing(id) => bound - {id}
  }

  // The id left its former key, which the job does not put it back on.
  predicate Leaving(b: B.Shape, job: Job, prev: RouteKey) {
    B.BoundTo(b.bound, job.id, prev) && (job.Adding? ==> job.route.Key() != prev)
  }

  /** How far the tables have moved from b, the sequential state before the holder's operation. */
  ghost predicate Progress(s: Machine, b: B.Shape)
    requires Addressed(s)
  {
    var bound, lists := Bound(s), Lists(s);
    match s.holder
    case Free => bound == b.bound && lists == b.lists
    case Begun(_) => bound == b.bound && lists == b.lists
    case Unlinking(job, prev) => bound == BoundAfter(b.bound, job) && lists == b.lists && Leaving(b, job, prev)
    case Retaining(job, prev, h) =>
      bound == BoundAfter(b.bound, job) && lists == b.lists && Leaving(b, job, prev)
      && prev in s.index && s.index[prev] == h
    case Deleting(job, prev, h) =>
      bound == BoundAfter(b.bound, job) && Leaving(b, job, prev)
      && prev in s.index && s.index[prev] == h
      && prev in b.lists && B.Retain(b.lists[prev], job.id) == [] && lists == b.lists[prev := []]
    case Linking(job) => job.Adding? && bound == BoundAfter(b.bound, job)
      && lists == B.Left(b, job.id, job.route.Key())
    case Pushing(job, h) => job.Adding? && bound == BoundAfter(b.bound, job)
      && lists == B.Left(b, job.id, job.route.Key())
      && job.route.Key() in s.index && s.index[job.route.Key()] == h
    case Creating(job) => job.Adding? && bound == BoundAfter(b.bound, job)
      && lists == B.Left(b, job.id, job.route.Key()) && job.route.Key() !in s.index
    case Ending(job) => B.Shape(bound, lists) == B.Apply(b, OpOf(job))
  }

  ghost predicate Inv(s: Machine) {
    Sound(s) && Progress(s, B.Replay(s.log))
  }

  lemma ListReplaced(s: Machine, s': Machine, key: RouteKey, ids: seq<Id>)
    requires Sound(s) && key in s.index
    requires s'.index == s.index && s'.readers == s.readers
    requires s'.cells == s.cells[s.index[key] := s.cells[s.index[key]].(ids := ids)]
    ensures Sound(s') && Lists(s') == Lists(s)[key := ids]
  {
    assert forall i :: 0 <= i < |s.cells| ==> s'.cells[i].key == s.cells[i].key;
  }

  lemma EntryAdded(s: Machine, s': Machine, cell: Cell)
    requires Sound(s) && cell.key !in s.index && s'.readers == s.readers
    requires s'.index == s.index[cell.key := |s.cells|] && s'.cells == s.cells + [cell]
    ensures Sound(s') && Lists(s') == Lists(s)[cell.key := cell.ids]
  {
    assert forall h :: 0 <= h < |s.cells| ==> s'.cells[h] == s.cells[h];
    assert forall h :: 0 <= h < |s.cells| && Current(s, h) ==> Current(s', h);
  }

  lemma EntryRemoved(s: Machine, s': Machine, key: RouteKey)
    requires Sound(s) && key in s.index && s.cells[s.index[key]].ids == [] && s'.readers == s.readers
    requires s'.index == s.index - {key} && s'.cells == s.cells
    ensures Sound(s') && Lists(s') == Lists(s) - {key}
  {
    assert forall h :: 0 <= h < |s.cells| && Current(s, h) ==> Current(s', h) || h == s.index[key];
  }

  lemma RouteErased(routes: map<Id, Route>, id: Id)
    ensures (map x | x in routes - {id} :: (routes - {id})[x].Key()) == (map x | x in routes :: routes[x].Key()) - {id}
  {
  }

  // Once the id is off its former list the old key is done with.
  lemma UnlinkDone(b: B.Shape, job: Job, prev: RouteKey)
    requires Leaving(b, job, prev)
    ensures job.Adding? ==> B.Unlink(b.lists, job.id, prev) == B.Left(b, job.id, job.route.Key())
    ensures job.Removing? ==>
              B.Shape(BoundAfter(b.bound, job), B.Unlink(b.lists, job.id, prev)) == B.Apply(b, OpOf(job))
  {
  }

  // One lemma per phase of the holder.

  lemma BegunAddingInv(s: Machine, now: int)
    requires Inv(s) && s.holder.Begun? && s.holder.job.Adding?
    ensures Inv(Work(s, now))
  {
    var s' := Work(s, now);
    assert Lists(s') == Lists(s);
    assert Bound(s') == Bound(s)[s.holder.job.id := s.holder.job.route.Key()];
    assert s'.log == s.log;
  }

  lemma BegunRemovingInv(s: Machine, now: int)
    requires Inv(s) && s.holder.Begun? && s.holder.job.Removing?
    ensures Inv(Work(s, now))
  {
    var s' := Work(s, now);
    assert Lists(s') == Lists(s);
    if s.holder.job.id in s.routes {
      RouteErased(s.routes, s.holder.job.id);
    }
    assert s'.log == s.log;
  }

  lemma UnlinkingInv(s: Machine, now: int)
    requires Inv(s) && s.holder.Unlinking?
    ensures Inv(Work(s, now))
  {
    var s' := Work(s, now);
    var b := B.Replay(s.log);
    B.ReplayConsistent(s.log);
    assert B.AgreeOn(b, s.holder.job.id);
    assert B.OnList(b.lists, s.holder.job.id, s.holder.prev);
    assert s.holder.prev in Lists(s);
    assert Bound(s') == Bound(s) && Lists(s') == Lists(s);
  }

  lemma RetainingInv(s: Machine, now: int)
    requires Inv(s) && s.holder.Retaining?
    ensures HolderFits(s) && Inv(Work(s, now))
  {
    var s' := Work(s, now);
    var key := s.holder.prev;
    assert Lists(s)[key] == s.cells[s.holder.h].ids;
    ListReplaced(s, s', key, B.Retain(Lists(s)[key], s.holder.job.id));
    assert Bound(s') == Bound(s) && s'.log == s.log;
    UnlinkDone(B.Replay(s.log), s.holder.job, key);
  }

  lemma DeletingInv(s: Machine, now: int)
    requires Inv(s) && s.holder.Deleting?
    ensures Inv(Work(s, now))
  {
    var s' := Work(s, now);
    var b := B.Replay(s.log);
    assert Lists(s)[s.holder.prev] == [];
    EntryRemoved(s, s', s.holder.prev);
    assert Bound(s') == Bound(s) && s'.log == s.log;
    assert Lists(s') == B.Unlink(b.lists, s.holder.job.id, s.holder.prev);
    UnlinkDone(b, s.holder.job, s.holder.prev);
  }

  lemma PushingInv(s: Machine, now: int)
    requires Inv(s) && s.holder.Pushing?
    ensures HolderFits(s) && Inv(Work(s, now))
  {
    var s' := Work(s, now);
    var job := s.holder.job;
    var key := job.route.Key();
    var ids := s.cells[s.holder.h].ids;
    assert Lists(s)[key] == ids;
    ListReplaced(s, s', key, if job.id in ids then ids else ids + [job.id]);
    assert Lists(s') == B.Join(Lists(s), job.id, key);
    assert Bound(s') == Bound(s) && s'.log == s.log;
  }

  lemma CreatingInv(s: Machine, now: int)
    requires Inv(s) && s.holder.Creating?
    ensures HolderFits(s) && Inv(Work(s, now))
  {
    var s' := Work(s, now);
    var job := s.holder.job;
    EntryAdded(s, s', Cell(job.route.Key(), [job.id], now, now));
    assert Bound(s') == Bound(s) && s'.log == s.log;
  }

  lemma LinkingInv(s: Machine, now: int)
    requires Inv(s) && s.holder.Linking?
    ensures HolderFits(s) && Inv(Work(s, now))
  {
    var s' := Work(s, now);
    assert Bound(s') == Bound(s) && Lists(s') == Lists(s);
  }

  lemma EndingInv(s: Machine, now: int)
    requires Inv(s) && s.holder.Ending?
    ensures Inv(Work(s, now))
  {
    var s' := Work(s, now);
    ReplayStep(s.log, OpOf(s.holder.job));
    assert s'.index == s.index && s'.cells == s.cells && s'.routes == s.routes && s'.readers == s.readers;
    assert Sound(s') && Bound(s') == Bound(s) && Lists(s') == Lists(s);
    assert B.Shape(Bound(s'), Lists(s')) == B.Replay(s'.log);
  }

  lemma ReplayStep(log: seq<B.Op>, op: B.Op)
    ensures B.Replay(log + [op]) == B.Apply(B.Replay(log), op)
  {
    assert B.Front(log + [op]) == log;
  }

  // Steps that leave bindings and lists alone and at most begin the holder's work.
  lemma SameIndex(s: Machine, s': Machine)
    requires Inv(s) && Sound(s')
    requires Bound(s') == Bound(s) && Lists(s') == Lists(s) && s'.index == s.index && s'.log == s.log
    requires s'.holder == s.holder || (s.holder.Free? && s'.holder.Begun?)
    ensures Inv(s')
  {
  }

  lemma OtherInv(s: Machine, l: Label)
    requires Inv(s) && Enabled(s, l) && !l.Advance?
    ensures Inv(Do(s, l))
  {
    var s' := Do(s, l);
    if l.Store? {
      StoreSame(s, l);
    } else if l.Update? {
      UpdateSame(s, l);
    } else {
      assert s'.routes == s.routes && s'.index == s.index && s'.cells == s.cells;
      assert Bound(s') == Bound(s) && Lists(s') == Lists(s);
    }
    SameIndex(s, s');
  }

  lemma UpdateSame(s: Machine, l: Label)
    requires Sound(s) && Enabled(s, l) && l.Update?
    ensures Sound(Do(s, l)) && Lists(Do(s, l)) == Lists(s) && Bound(Do(s, l)) == Bound(s)
  {
  }

  lemma StoreSame(s: Machine, l: Label)
    requires Sound(s) && Enabled(s, l) && l.Store?
    ensures Sound(Do(s, l)) && Lists(Do(s, l)) == Lists(s) && Bound(Do(s, l)) == Bound(s)
  {
    var s' := Do(s, l);
    assert forall h :: 0 <= h < |s.cells| ==> s'.cells[h].key == s.cells[h].key && s'.cells[h].ids == s.cells[h].ids;
  }

  lemma StepInv(s: Machine, l: Label)
    requires Inv(s) && Enabled(s, l)
    ensures Inv(Do(s, l))
  {
    if !l.Advance? {
      OtherInv(s, l);
    } else {
      match s.holder {
        case Free => assert false;
        case Begun(Adding(_, _)) => BegunAddingInv(s, l.now);
        case Begun(Removing(_)) => BegunRemovingInv(s, l.now);
        case Unlinking(_, _) => UnlinkingInv(s, l.now);
        case Retaining(_, _, _) => RetainingInv(s, l.now);
        case Deleting(_, _, _) => DeletingInv(s, l.now);
        case Pushing(_, _) => PushingInv(s, l.now);
        case Creating(_) => CreatingInv(s, l.now);
        case Linking(_) => LinkingInv(s, l.now);
        case Ending(_) => EndingInv(s, l.now);
      }
    }
  }

  lemma {:induction false} Reached(run: seq<Machine>, i: nat)
    requires Execution(run) && i < |run|
    ensures Inv(run[i])
  {
    if i == 0 {
      assert Bound(INIT) == map[] && Lists(INIT) == map[];
    } else {
      Reached(run, i - 1);
      assert Next(run[i - 1], run[i - 1 + 1]);
      var l :| Enabled(run[i - 1], l) && run[i] == Do(run[i - 1], l);
      StepInv(run[i - 1], l);
    }
  }

  // Main results

  /** The lock holder is never stuck: in every reachable state with the lock held its next operation
      can be performed, so the handles it goes by exist. A reader is kept waiting only by the holder
      that removes its entry's key, and no longer than that one operation. */
  lemma HolderNeverStuck(run: seq<Machine>, i: nat, now: int)
    requires Execution(run) && i < |run|
    ensures !run[i].holder.Free? <==> Enabled(run[i], Advance(now))
    ensures forall r <- run[i].readers ::
              Enabled(run[i], Peek(r))
              || (run[i].holder.Deleting? && Enabled(run[i], Advance(now)) && Enabled(Work(run[i], now), Peek(r)))
    ensures forall r <- run[i].readers :: Enabled(run[i], Store(r, true, now))
    ensures forall key <- run[i].index, r :: r !in run[i].readers ==>
              Enabled(run[i], Lookup(r, key)) && Do(run[i], Lookup(r, key)).readers[r] == Held(key, run[i].index[key])
  {
    Reached(run, i);
  }

  /** Whenever the lock is free the two tables are exactly what running the completed operations one
      after another gives, whatever readers did in between; so they are inverse to each other, and
      every list is non-empty, duplicate-free and in join order. */
  lemma FreeMeansSequential(run: seq<Machine>, i: nat)
    requires Execution(run) && i < |run| && run[i].holder.Free?
    ensures Addressed(run[i])
    ensures B.Shape(Bound(run[i]), Lists(run[i])) == B.Replay(run[i].log)
    ensures B.Consistent(B.Replay(run[i].log))
  {
    Reached(run, i);
    B.ReplayConsistent(run[i].log);
  }

  // The id the lock holder works on.
  predicate WorksOn(s: Machine, id: Id) {
    !s.holder.Free? && s.holder.job.id == id
  }

  /** In every state of every execution the tables disagree at most about the id the lock holder
      works on, no list repeats an id, and only the list being deleted is empty. */
  lemma DisagreeOnlyOnWorking(run: seq<Machine>, i: nat)
    requires Execution(run) && i < |run|
    ensures Addressed(run[i])
    ensures forall id :: B.AgreeOn(B.Shape(Bound(run[i]), Lists(run[i])), id) || WorksOn(run[i], id)
    ensures forall key <- Lists(run[i]) :: B.Distinct(Lists(run[i])[key])
    ensures forall key <- Lists(run[i]) ::
              Lists(run[i])[key] == [] <==> run[i].holder.Deleting? && run[i].holder.prev == key
  {
    Reached(run, i);
    Agreement(run[i]);
  }

  lemma Agreement(s: Machine)
    requires Inv(s)
    ensures forall id :: B.AgreeOn(B.Shape(Bound(s), Lists(s)), id) || WorksOn(s, id)
    ensures forall key <- Lists(s) :: B.Distinct(Lists(s)[key])
    ensures forall key <- Lists(s) :: Lists(s)[key] == [] <==> s.holder.Deleting? && s.holder.prev == key
  {
    var b := B.Replay(s.log);
    var lists := Lists(s);
    B.ReplayConsistent(s.log);
    if !s.holder.Free? {
      var job := s.holder.job;
      if job.Adding? {
        B.LeftEffect(b, job.id, job.route.Key());
      }
      if s.holder.Deleting? {
        B.RetainMembers(b.lists[s.holder.prev], job.id);
      }
      if s.holder.Ending? {
        B.ApplyConsistent(b, OpOf(job));
      }
    }
    forall id | !WorksOn(s, id)
      ensures B.AgreeOn(B.Shape(Bound(s), lists), id)
    {
      assert B.AgreeOn(b, id);
      if s.holder.Ending? {
        assert B.AgreeOn(B.Apply(b, OpOf(s.holder.job)), id);
      } else if s.holder.Deleting? {
        assert forall key :: B.OnList(lists, id, key) <==> B.OnList(b.lists, id, key);
      } else {
        assert forall key :: B.OnList(lists, id, key) <==> B.OnList(b.lists, id, key);
        assert forall key :: B.BoundTo(Bound(s), id, key) <==> B.BoundTo(b.bound, id, key);
      }
    }
  }

  /** What any step does to the route of any id: the holder's first operation writes the added route as it
      is, or erases the removed one; an update changes metric and rt of an existing route; nothing else
      touches it. */
  lemma RouteStep(s: Machine, l: Label, id: Id)
    requires Enabled(s, l)
    ensures var r := if id in s.routes then Some(s.routes[id]) else None;
            (if id in Do(s, l).routes then Some(Do(s, l).routes[id]) else None)
            == if l.Advance? && s.holder.Begun? && s.holder.job.id == id
               then (if s.holder.job.Adding? then Some(s.holder.job.route) else None)
               else if l.Update? && l.id == id && r.Some?
               then Some(Route(r.value.index, r.value.addr, l.metric, l.rt))
               else r
  {
    if l.Advance? {
      RouteWork(s, l.now, id);
    }
  }

  /** The log and the pending unparks move only when an operation releases the lock: the log takes the
      operation by its id and, for an add, the key of its route, and an add leaves one unpark to make. */
  lemma LogStep(s: Machine, l: Label)
    requires Enabled(s, l)
    ensures var ends := l.Advance? && s.holder.Ending?;
            && Do(s, l).log
               == (if !ends then s.log
                   else match s.holder.job
                        case Adding(id, route) => s.log + [B.Bind(id, RouteKey(route.index, route.addr))]
                        case Removing(id) => s.log + [B.Unbind(id)])
            && Do(s, l).unparks
               == s.unparks + (if ends && s.holder.job.Adding? then 1 else 0) - (if l.Unpark? then 1 else 0)
    ensures l.Lock? ==> Do(s, l).holder == Begun(l.job)
  {
  }

  lemma RouteWork(s: Machine, now: int, id: Id)
    requires HolderFits(s)
    ensures var r := if id in s.routes then Some(s.routes[id]) else None;
            (if id in Work(s, now).routes then Some(Work(s, now).routes[id]) else None)
            == if s.holder.Begun? && s.holder.job.id == id
               then (if s.holder.job.Adding? then Some(s.holder.job.route) else None)
               else r
  {
  }

  // What reading the list of an entry held without the lock finds, its mutex being free.
  lemma HeldIsSound(s: Machine, h: Handle)
    requires Inv(s) && h < |s.cells| && !(s.holder.Deleting? && s.holder.h == h)
    ensures s.cells[h].ids == [] <==> !Current(s, h)
    ensures s.cells[h].ids != [] ==> B.OnList(Lists(s), s.cells[h].ids[0], s.cells[h].key)
    ensures s.cells[h].ids != [] && !WorksOn(s, s.cells[h].ids[0]) ==>
              B.BoundTo(Bound(s), s.cells[h].ids[0], s.cells[h].key)
  {
    Agreement(s);
    var key := s.cells[h].key;
    assert Current(s, h) ==> Lists(s)[key] == s.cells[h].ids;
    if s.cells[h].ids != [] {
      var id := s.cells[h].ids[0];
      assert B.OnList(Lists(s), id, key);
      assert B.AgreeOn(B.Shape(Bound(s), Lists(s)), id) || WorksOn(s, id);
    }
  }

  /** What an unlocked route_to_id can answer: nothing exactly when the entry it holds has left the
      index; otherwise the first id on the key's present list, bound to that key unless the lock holder
      is at work on that very id. */
  lemma PeekIsSound(run: seq<Machine>, i: nat, r: nat)
    requires Execution(run) && i < |run| && Enabled(run[i], Peek(r))
    ensures Addressed(run[i])
    ensures Answer(run[i], r).None? <==> !Current(run[i], run[i].readers[r].h)
    ensures Answer(run[i], r).Some? ==>
              B.OnList(Lists(run[i]), Answer(run[i], r).value, run[i].readers[r].key)
              && Lists(run[i])[run[i].readers[r].key][0] == Answer(run[i], r).value
    ensures Answer(run[i], r).Some? && !WorksOn(run[i], Answer(run[i], r).value) ==>
              B.BoundTo(Bound(run[i]), Answer(run[i], r).value, run[i].readers[r].key)
  {
    Reached(run, i);
    HeldIsSound(run[i], run[i].readers[r].h);
  }
}

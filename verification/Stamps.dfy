/**
 The stamps of the route table under concurrency. A receive or a send looks its key up and stores the
 time through the entry it found, without the lock, so a store may come after the entry has left the
 table, or after the store of a later event.
 */
module Stamps {
  import opened Common
  import opened RouteMachine
  import B = Bindings

  datatype Stamp = Stamp(read: int, write: int)

  // The stamps the table shows for a listed key.
  function StampOf(s: Machine, key: RouteKey): Stamp
    requires Addressed(s) && key in s.index
  {
    Stamp(s.cells[s.index[key]].read, s.cells[s.index[key]].write)
  }

  function Stored(t: Stamp, isRead: bool, now: int): Stamp {
    if isRead then t.(read := now) else t.(write := now)
  }

  /** Between any two table operations: a store changes the stamp of the key it looked up, in that
      direction, exactly when its entry is still the one listed for that key; no other step changes the
      stamps of a key that stays, and a key that is new shows the time it was created. */
  lemma StampStep(s: Machine, l: Label, key: RouteKey)
    requires Inv(s) && Enabled(s, l) && key in Do(s, l).index
    ensures Addressed(Do(s, l))
    ensures key !in s.index ==> l.Advance? && s.holder.Creating? && StampOf(Do(s, l), key) == Stamp(l.now, l.now)
    ensures key in s.index && !l.Store? ==> StampOf(Do(s, l), key) == StampOf(s, key)
    ensures key in s.index && l.Store? ==>
              StampOf(Do(s, l), key)
              == if s.readers[l.reader].key == key && Current(s, s.readers[l.reader].h)
                 then Stored(StampOf(s, key), l.isRead, l.now)
                 else StampOf(s, key)
  {
    StepInv(s, l);
    if l.Store? {
      StoreMoves(s, l, key);
    } else {
      OthersMove(s, l, key);
    }
  }

  lemma StoreMoves(s: Machine, l: Label, key: RouteKey)
    requires Sound(s) && Enabled(s, l) && l.Store? && key in s.index && Addressed(Do(s, l))
    ensures StampOf(Do(s, l), key)
            == if s.readers[l.reader].key == key && Current(s, s.readers[l.reader].h)
               then Stored(StampOf(s, key), l.isRead, l.now)
               else StampOf(s, key)
  {
  }

  lemma OthersMove(s: Machine, l: Label, key: RouteKey)
    requires Sound(s) && Enabled(s, l) && !l.Store? && key in Do(s, l).index && Addressed(Do(s, l))
    requires s.holder.Creating? ==> s.holder.job.Adding? && s.holder.job.route.Key() !in s.index
    ensures key in s.index ==> StampOf(Do(s, l), key) == StampOf(s, key)
    ensures key !in s.index ==> l.Advance? && s.holder.Creating? && StampOf(Do(s, l), key) == Stamp(l.now, l.now)
  {
    if l.Advance? {
      if key in s.index {
        CellStep(s, l, s.index[key], true);
        CellStep(s, l, s.index[key], false);
      }
      IndexStep(s, l.now, key);
    }
  }

  // Only an insert makes a key new, and no operation moves a key to another entry.
  lemma IndexStep(s: Machine, now: int, key: RouteKey)
    requires HolderFits(s) && (s.holder.Creating? ==> s.holder.job.route.Key() !in s.index)
    requires key in Work(s, now).index
    ensures key in s.index ==> Work(s, now).index[key] == s.index[key]
    ensures key !in s.index ==> s.holder.Creating? && key == s.holder.job.route.Key()
  {
  }

  // The state after a sequence of steps, if each was enabled in its turn.
  function After(steps: seq<Label>): Option<Machine> {
    if steps == [] then Some(INIT)
    else
      match After(B.Front(steps))
      case None => None
      case Some(s) => if Enabled(s, B.Last(steps)) then Some(Do(s, B.Last(steps))) else None
  }

  lemma {:induction false} AfterInv(steps: seq<Label>)
    requires After(steps).Some?
    ensures Inv(After(steps).value)
  {
    if steps == [] {
      Reached([INIT], 0);
    } else {
      AfterInv(B.Front(steps));
      StepInv(After(B.Front(steps)).value, B.Last(steps));
    }
  }

  // The states such a sequence goes through.
  ghost predicate Traces(steps: seq<Label>, run: seq<Machine>) {
    Execution(run) && |run| == |steps| + 1 && forall i :: 0 <= i < |run| ==> After(steps[..i]) == Some(run[i])
  }

  lemma NextAfter(steps: seq<Label>)
    requires steps != [] && After(steps).Some?
    ensures After(B.Front(steps)).Some? && Next(After(B.Front(steps)).value, After(steps).value)
  {
  }

  lemma Extended(run: seq<Machine>, s: Machine) returns (run': seq<Machine>)
    requires Execution(run) && Next(run[|run| - 1], s)
    ensures run' == run + [s] && Execution(run')
  {
    run' := run + [s];
  }

  lemma {:induction false} RunOf(steps: seq<Label>) returns (run: seq<Machine>)
    requires After(steps).Some?
    ensures Traces(steps, run)
  {
    if steps == [] {
      return [INIT];
    }
    var f := B.Front(steps);
    run := RunOf(f);
    assert f[..|f|] == f && steps[..|steps|] == steps;
    assert forall i :: 0 <= i <= |f| ==> steps[..i] == f[..i];
    NextAfter(steps);
    run := Extended(run, After(steps).value);
  }

  lemma StepOf(steps: seq<Label>, run: seq<Machine>, n: nat)
    requires Traces(steps, run) && n < |steps|
    ensures Enabled(run[n], steps[n]) && run[n + 1] == Do(run[n], steps[n])
  {
    var g := steps[..n + 1];
    assert B.Front(g) == steps[..n] && B.Last(g) == steps[n];
    assert After(g) == Some(run[n + 1]) && After(steps[..n]) == Some(run[n]);
  }

  // The step, in that state, writes the stamp of that entry in that direction: it creates it or stores
  // through it.
  predicate Writes(s: Machine, l: Label, h: Handle, isRead: bool) {
    match l
    case Advance(_) => s.holder.Creating? && |s.cells| == h
    case Store(r, toRead, _) => r in s.readers && s.readers[r].h == h && toRead == isRead
    case _ => false
  }

  // The n-th step writes that stamp, and no later one does.
  ghost predicate LastWrite(steps: seq<Label>, n: nat, h: Handle, isRead: bool) {
    n < |steps| && WritesAt(steps, n, h, isRead)
    && forall m :: n < m < |steps| ==> !WritesAt(steps, m, h, isRead)
  }

  predicate WritesAt(steps: seq<Label>, n: nat, h: Handle, isRead: bool)
    requires n < |steps|
  {
    After(steps[..n]).Some? && Writes(After(steps[..n]).value, steps[n], h, isRead)
  }

  lemma WritesPrefix(steps: seq<Label>, p: nat, m: nat, h: Handle, isRead: bool)
    requires m < p <= |steps|
    ensures WritesAt(steps[..p], m, h, isRead) == WritesAt(steps, m, h, isRead)
  {
    assert steps[..p][..m] == steps[..m];
  }

  function TimeOf(l: Label): int {
    match l
    case Advance(now) => now
    case Store(_, _, now) => now
    case _ => 0
  }

  // The stamp is the time carried by the last step that writes it.
  ghost predicate IsLastWritten(steps: seq<Label>, h: Handle, isRead: bool, stamp: int) {
    exists n: nat :: LastWrite(steps, n, h, isRead) && TimeOf(steps[n]) == stamp
  }

  lemma WrittenNow(f: seq<Label>, l: Label, h: Handle, isRead: bool)
    requires After(f).Some? && Writes(After(f).value, l, h, isRead)
    ensures IsLastWritten(f + [l], h, isRead, TimeOf(l))
  {
    var steps := f + [l];
    assert steps[..|f|] == f && steps[|f|] == l;
    assert LastWrite(steps, |f|, h, isRead);
  }

  lemma WrittenBefore(f: seq<Label>, l: Label, h: Handle, isRead: bool, stamp: int)
    requires After(f).Some? && !Writes(After(f).value, l, h, isRead) && IsLastWritten(f, h, isRead, stamp)
    ensures IsLastWritten(f + [l], h, isRead, stamp)
  {
    var steps := f + [l];
    var n: nat :| LastWrite(f, n, h, isRead) && TimeOf(f[n]) == stamp;
    forall m: nat | m < |steps|
      ensures WritesAt(steps, m, h, isRead) <==> m < |f| && WritesAt(f, m, h, isRead)
    {
      assert steps[..m] == f[..m];
      if m == |f| {
        assert f[..m] == f;
      }
    }
    assert LastWrite(steps, n, h, isRead);
  }

  function TimeIn(c: Cell, isRead: bool): int {
    if isRead then c.read else c.write
  }

  // What a step does to one stamp of one entry.
  lemma CellStep(s: Machine, l: Label, h: Handle, isRead: bool)
    requires Enabled(s, l) && h < |Do(s, l).cells|
    ensures Writes(s, l, h, isRead) ==> TimeIn(Do(s, l).cells[h], isRead) == TimeOf(l)
    ensures !Writes(s, l, h, isRead) ==>
              h < |s.cells| && TimeIn(Do(s, l).cells[h], isRead) == TimeIn(s.cells[h], isRead)
  {
    if l.Advance? {
      CellWork(s, l.now, h);
    }
  }

  lemma CellWork(s: Machine, now: int, h: Handle)
    requires HolderFits(s) && h < |Work(s, now).cells|
    ensures var c := Work(s, now).cells[h];
            if s.holder.Creating? && |s.cells| == h then c.read == c.write == now
            else h < |s.cells| && c.read == s.cells[h].read && c.write == s.cells[h].write
  {
  }

  /** In every run, every entry's stamp is the time carried by the last step that created the entry or
      stored through it in that direction, whatever other threads did in between. */
  lemma {:induction false} StampIsLastWritten(steps: seq<Label>, h: Handle, isRead: bool)
    requires After(steps).Some? && h < |After(steps).value.cells|
    ensures IsLastWritten(steps, h, isRead, TimeIn(After(steps).value.cells[h], isRead))
  {
    var f, l := B.Front(steps), B.Last(steps);
    var s := After(f).value;
    assert steps == f + [l];
    CellStep(s, l, h, isRead);
    if Writes(s, l, h, isRead) {
      WrittenNow(f, l, h, isRead);
    } else {
      StampIsLastWritten(f, h, isRead);
      WrittenBefore(f, l, h, isRead, TimeIn(s.cells[h], isRead));
    }
  }

  // Witnesses

  lemma Step(steps: seq<Label>, s: Machine, l: Label) returns (steps': seq<Label>, s': Machine)
    requires After(steps) == Some(s) && Enabled(s, l)
    ensures steps' == steps + [l] && s' == Do(s, l) && After(steps') == Some(s')
  {
    steps', s' := steps + [l], Do(s, l);
    assert B.Front(steps') == steps;
  }

  // An add to an empty table, run to the release of the lock.
  lemma AddAlone(steps: seq<Label>, s: Machine, id: Id, route: Route, now: int)
    returns (steps': seq<Label>, s': Machine)
    requires After(steps) == Some(s) && s.holder.Free? && s.routes == map[] && s.index == map[]
    ensures After(steps') == Some(s') && steps <= steps'
    ensures s' == s.(routes := map[id := route], index := map[route.Key() := |s.cells|],
                     cells := s.cells + [Cell(route.Key(), [id], now, now)],
                     unparks := s.unparks + 1, log := s.log + [B.Bind(id, route.Key())])
  {
    steps', s' := Step(steps, s, Lock(Adding(id, route)));
    steps', s' := Step(steps', s', Advance(now));
    steps', s' := Step(steps', s', Advance(now));
    steps', s' := Step(steps', s', Advance(now));
    steps', s' := Step(steps', s', Advance(now));
  }

  // The removal of the only route.
  lemma RemoveAlone(steps: seq<Label>, s: Machine, id: Id, route: Route, h: Handle)
    returns (steps': seq<Label>, s': Machine)
    requires After(steps) == Some(s) && s.holder.Free? && s.routes == map[id := route]
    requires s.index == map[route.Key() := h] && h < |s.cells| && s.cells[h].ids == [id]
    ensures After(steps') == Some(s') && steps <= steps'
    ensures s' == s.(routes := map[], index := map[], cells := s.cells[h := s.cells[h].(ids := [])],
                     log := s.log + [B.Unbind(id)])
  {
    steps', s' := EraseAlone(steps, s, id, route, h);
    assert B.Retain([id], id) == [];
    steps', s' := Step(steps', s', Advance(0));
    steps', s' := Step(steps', s', Advance(0));
    steps', s' := Step(steps', s', Advance(0));
  }

  // Its first part: the route is erased and the entry looked up.
  lemma EraseAlone(steps: seq<Label>, s: Machine, id: Id, route: Route, h: Handle)
    returns (steps': seq<Label>, s': Machine)
    requires After(steps) == Some(s) && s.holder.Free? && s.routes == map[id := route]
    requires s.index == map[route.Key() := h]
    ensures After(steps') == Some(s') && steps <= steps'
    ensures s' == s.(routes := map[], holder := Retaining(Removing(id), route.Key(), h))
  {
    steps', s' := Step(steps, s, Lock(Removing(id)));
    steps', s' := Step(steps', s', Advance(0));
    steps', s' := Step(steps', s', Advance(0));
  }

  // The run ends with the store of a receive on the key, and shows that stamp for it.
  ghost predicate EndsWithReceive(steps: seq<Label>, key: RouteKey, received: int, stamp: int) {
    steps != [] && After(steps).Some? && B.Last(steps) == Store(0, true, received)
    && After(B.Front(steps)).value.readers[0].key == key && ShowsRead(steps, key, stamp)
  }

  ghost predicate ShowsRead(steps: seq<Label>, key: RouteKey, stamp: int) {
    After(steps).Some? && Addressed(After(steps).value) && key in After(steps).value.index
    && StampOf(After(steps).value, key).read == stamp
  }

  /** A receive is lost when its key was removed and added again between its lookup and its store: the
      key goes on showing the time it was added. */
  lemma LostReceive(id: Id, route: Route, added: int, received: int)
    ensures exists steps :: EndsWithReceive(steps, route.Key(), received, added)
  {
    var key := route.Key();
    var steps, s := AddAlone([], INIT, id, route, 0);
    steps, s := Step(steps, s, Lookup(0, key));
    steps, s := RemoveAlone(steps, s, id, route, 0);
    steps, s := AddAlone(steps, s, id, route, added);
    steps, s := Step(steps, s, Store(0, true, received));
    assert EndsWithReceive(steps, key, received, added);
  }

  /** Two receives on one listed key may store in the other order, and then the stamp goes back. */
  lemma StampGoesBack(id: Id, route: Route, later: int, earlier: int)
    ensures exists steps :: EndsWithReceive(steps, route.Key(), later, later)
                            && ShowsRead(steps + [Store(1, true, earlier)], route.Key(), earlier)
  {
    var key := route.Key();
    var steps, s := AddAlone([], INIT, id, route, 0);
    steps, s := Step(steps, s, Lookup(0, key));
    steps, s := Step(steps, s, Lookup(1, key));
    steps, s := Step(steps, s, Store(0, true, later));
    assert EndsWithReceive(steps, key, later, later);
    ghost var after, s' := Step(steps, s, Store(1, true, earlier));
    assert ShowsRead(after, key, earlier);
  }
}

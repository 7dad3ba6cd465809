/**
 The idle detector's walk over a table that other threads go on changing. The walk takes the entries in
 key order, each at some moment when it is listed, and loads its read stamp and then its write stamp; of
 the entry it reports it then reads the list of ids, under that list's mutex. In between an entry may
 leave the table.
 */
module IdleWalk {
  import opened Common
  import opened Idle
  import R = RouteTable
  import M = RouteMachine
  import S = Stamps

  // The positions of a run at which the walk finds an entry, loads its stamps and, if it reports the
  // entry, reads its list.
  datatype Visit = Visit(h: M.Handle, found: nat, read: nat, write: nat, list: nat)

  ghost predicate Loads(run: seq<M.Machine>, from: nat, to: nat, key: RouteKey, at: Visit, e: R.Entry) {
    from <= at.found <= at.read <= at.write <= to < |run|
    && key in run[at.found].index && run[at.found].index[key] == at.h
    && at.h < |run[at.read].cells| && at.h < |run[at.write].cells|
    && e.read == run[at.read].cells[at.h].read && e.write == run[at.write].cells[at.h].write
  }

  ghost predicate ReadsList(run: seq<M.Machine>, to: nat, at: Visit, e: R.Entry) {
    at.write <= at.list <= to < |run| && at.h < |run[at.list].cells|
    && !(run[at.list].holder.Deleting? && run[at.list].holder.h == at.h)  // its mutex is free
    && e.ids == run[at.list].cells[at.h].ids
  }

  // Under one entry all the while.
  ghost predicate ListedThroughout(run: seq<M.Machine>, from: nat, to: nat, key: RouteKey, h: M.Handle) {
    from <= to < |run|
    && forall i :: from <= i <= to ==> key in run[i].index && run[i].index[key] == h && h < |run[i].cells|
  }

  // What the walk saw: every entry listed throughout, up to the key it reports, and perhaps others.
  ghost predicate Walked(run: seq<M.Machine>, from: nat, to: nat, visits: map<RouteKey, Visit>,
                         seen: map<RouteKey, R.Entry>, v: Verdict) {
    from <= to < |run| && visits.Keys == seen.Keys
    && (forall key <- visits :: Loads(run, from, to, key, visits[key], seen[key]))
    && (v.Found? ==> v.key in visits && ReadsList(run, to, visits[v.key], seen[v.key]))
    && (forall a, b :: a in visits && b in visits && Less(a, b) ==> visits[a].write <= visits[b].found)
    && (forall key, h :: ListedThroughout(run, from, to, key, h) ==>
          (key in visits && visits[key].h == h) || (v.Found? && Less(v.key, key)))
  }

  /** Every state admits a walk made at that one moment, whatever the lock holder is at, unless the walk
      has to report the very entry whose mutex it holds. */
  lemma WalkAtOnce(run: seq<M.Machine>, i: nat, seen: map<RouteKey, R.Entry>, v: Verdict)
    returns (visits: map<RouteKey, Visit>)
    requires M.Execution(run) && i < |run| && M.Addressed(run[i]) && seen.Keys == run[i].index.Keys
    requires forall key <- seen ::
               var cell := run[i].cells[run[i].index[key]]; seen[key] == R.Entry(cell.ids, cell.read, cell.write)
    requires v.Found? ==>
               v.key in seen && !(run[i].holder.Deleting? && run[i].holder.h == run[i].index[v.key])
    ensures Walked(run, i, i, visits, seen, v) && (v.Found? ==> visits[v.key].list == i)
  {
    visits := map key | key in seen :: Visit(run[i].index[key], i, i, i, i);
    assert forall key, h :: ListedThroughout(run, i, i, key, h) ==> key in run[i].index && run[i].index[key] == h;
  }

  function StampIn(s: M.Machine, h: M.Handle, dir: R.Direction): int
    requires h < |s.cells|
  {
    S.TimeIn(s.cells[h], dir.Read?)
  }

  // The entry's stamp is before that time all the while.
  ghost predicate OverdueThroughout(run: seq<M.Machine>, from: nat, to: nat, h: M.Handle, dir: R.Direction, time: int) {
    forall i :: from <= i <= to && i < |run| && h < |run[i].cells| ==> StampIn(run[i], h, dir) < time
  }

  // No step takes an entry away, gives it another key, or lists again one that had left the table.
  ghost predicate KeepsEntries(s: M.Machine, s': M.Machine) {
    |s.cells| <= |s'.cells|
    && forall h :: 0 <= h < |s.cells| ==>
         s'.cells[h].key == s.cells[h].key && (M.Current(s', h) ==> M.Current(s, h))
  }

  lemma EntriesInWork(s: M.Machine, now: int)
    requires M.HolderFits(s)
    ensures KeepsEntries(s, M.Work(s, now))
  {
  }

  lemma EntriesInStep(s: M.Machine, l: M.Label)
    requires M.Enabled(s, l)
    ensures KeepsEntries(s, M.Do(s, l))
  {
    if l.Advance? {
      EntriesInWork(s, l.now);
    }
  }

  lemma EntriesInNext(s: M.Machine, s': M.Machine)
    requires M.Next(s, s')
    ensures KeepsEntries(s, s')
  {
    var l :| M.Enabled(s, l) && s' == M.Do(s, l);
    EntriesInStep(s, l);
  }

  ghost predicate KeepsAlways(run: seq<M.Machine>) {
    forall i :: 0 <= i < |run| - 1 ==> KeepsEntries(run[i], run[i + 1])
  }

  lemma EntriesAlways(run: seq<M.Machine>)
    requires M.Execution(run)
    ensures KeepsAlways(run)
  {
    forall i | 0 <= i < |run| - 1
      ensures KeepsEntries(run[i], run[i + 1])
    {
      EntriesInNext(run[i], run[i + 1]);
    }
  }

  lemma {:induction false} EntriesAlong(run: seq<M.Machine>, i: nat, j: nat)
    requires KeepsAlways(run) && i <= j < |run|
    ensures KeepsEntries(run[i], run[j])
    decreases j - i
  {
    if i < j {
      EntriesAlong(run, i, j - 1);
      assert KeepsEntries(run[j - 1], run[j - 1 + 1]);
    }
  }

  lemma EntriesKept(run: seq<M.Machine>, i: nat, j: nat)
    requires M.Execution(run) && i <= j < |run|
    ensures KeepsEntries(run[i], run[j])
  {
    EntriesAlways(run);
    EntriesAlong(run, i, j);
  }

  /** The ids of a report, whatever other threads do: none exactly when the entry has left the table by
      the time its list is read; otherwise the first is on the list the key has then, and is bound to it
      unless the lock holder is at work on that very id. */
  lemma ReportedIds(run: seq<M.Machine>, from: nat, to: nat, visits: map<RouteKey, Visit>,
                    seen: map<RouteKey, R.Entry>, c: Config, now: int, v: Verdict)
    requires M.Execution(run) && Walked(run, from, to, visits, seen, v)
    requires Answers(c, seen, now, v) && v.Found?
    ensures var s := run[visits[v.key].list];
            && M.Addressed(s) && (v.ids == [] <==> !M.Current(s, visits[v.key].h))
            && (v.ids != [] ==> M.B.OnList(M.Lists(s), v.ids[0], v.key))
            && (v.ids != [] && !M.WorksOn(s, v.ids[0]) ==> M.B.BoundTo(M.Bound(s), v.ids[0], v.key))
  {
    var at := visits[v.key];
    assert Loads(run, from, to, v.key, at, seen[v.key]);
    M.Reached(run, at.found);
    M.Reached(run, at.list);
    EntriesKept(run, at.found, at.list);
    M.HeldIsSound(run[at.list], at.h);
  }

  /** A key listed all the while and overdue all the while in a watched direction is reported in that
      direction, unless a smaller key is; so a walk that reports nothing saw every such key refreshed. */
  lemma OverdueThroughoutIsReported(run: seq<M.Machine>, from: nat, to: nat, visits: map<RouteKey, Visit>,
                                    seen: map<RouteKey, R.Entry>, c: Config, now: int, v: Verdict,
                                    key: RouteKey, h: M.Handle, dir: R.Direction)
    requires Walked(run, from, to, visits, seen, v) && Answers(c, seen, now, v)
    requires ListedThroughout(run, from, to, key, h) && c.Watches(dir)
    requires OverdueThroughout(run, from, to, h, dir, now - c.Threshold(dir))
    ensures v.Found? && (Less(v.key, key) || v.key == key)
    ensures v.key == key ==> if dir.Read? then !v.status.Write? else !v.status.Read?
  {
    if key in visits && visits[key].h == h {
      SeenOverdue(run, from, to, key, visits[key], seen[key], c, now, dir);
      OverdueIsReported(c, seen, now, v, key, dir);
    } else {
      LessIsStrictTotal(v.key, key, key);
    }
  }

  lemma LoadedStamps(run: seq<M.Machine>, from: nat, to: nat, key: RouteKey, at: Visit, e: R.Entry)
    requires Loads(run, from, to, key, at, e)
    ensures R.Stamp(e, R.Read) == StampIn(run[at.read], at.h, R.Read)
    ensures R.Stamp(e, R.Write) == StampIn(run[at.write], at.h, R.Write)
  {
  }

  lemma SeenOverdue(run: seq<M.Machine>, from: nat, to: nat, key: RouteKey, at: Visit, e: R.Entry,
                    c: Config, now: int, dir: R.Direction)
    requires Loads(run, from, to, key, at, e) && ListedThroughout(run, from, to, key, at.h) && c.Watches(dir)
    requires OverdueThroughout(run, from, to, at.h, dir, now - c.Threshold(dir))
    ensures Overdue(c, e, dir, now)
  {
    LoadedStamps(run, from, to, key, at, e);
  }

  lemma OverdueIsReported(c: Config, seen: map<RouteKey, R.Entry>, now: int, v: Verdict, key: RouteKey,
                          dir: R.Direction)
    requires Answers(c, seen, now, v) && key in seen && Overdue(c, seen[key], dir, now)
    ensures v.Found? && (Less(v.key, key) || v.key == key)
    ensures v.key == key ==> if dir.Read? then !v.status.Write? else !v.status.Read?
  {
    assert IsIdle(c, seen[key], now);
  }

  // The stamp a report goes by.
  lemma ReportedWasOverdue(run: seq<M.Machine>, from: nat, to: nat, visits: map<RouteKey, Visit>,
                           seen: map<RouteKey, R.Entry>, c: Config, now: int, v: Verdict, dir: R.Direction)
    requires Walked(run, from, to, visits, seen, v) && Answers(c, seen, now, v) && Reports(v, dir)
    ensures LoadedAt(visits[v.key], dir) < |run| && visits[v.key].h < |run[LoadedAt(visits[v.key], dir)].cells|
    ensures now - StampIn(run[LoadedAt(visits[v.key], dir)], visits[v.key].h, dir) > c.Threshold(dir)
  {
    LoadedStamps(run, from, to, v.key, visits[v.key], seen[v.key]);
  }

  predicate Reports(v: Verdict, dir: R.Direction) {
    v.Found? && if dir.Read? then !v.status.Write? else !v.status.Read?
  }

  function LoadedAt(at: Visit, dir: R.Direction): nat {
    if dir.Read? then at.read else at.write
  }

  // A walk over some run reports that key with no id.
  ghost predicate EmptyReport(run: seq<M.Machine>, from: nat, to: nat, visits: map<RouteKey, Visit>,
                              seen: map<RouteKey, R.Entry>, c: Config, now: int, key: RouteKey) {
    M.Execution(run) && Walked(run, from, to, visits, seen, Found(Both, [], key))
    && Answers(c, seen, now, Found(Both, [], key))
  }

  lemma BothReported(c: Config, ids: seq<M.Id>, key: RouteKey)
    requires c.readIdle > 0 && c.writeIdle > 0
    ensures Answers(c, map[key := R.Entry(ids, 0, 0)], c.readIdle + c.writeIdle + 1, Found(Both, ids, key))
  {
    var e, now := R.Entry(ids, 0, 0), c.readIdle + c.writeIdle + 1;
    assert Overdue(c, e, R.Read, now) && Overdue(c, e, R.Write, now);
  }

  /** The list handed to the caller can be empty: an idle route removed after the walk has found its
      entry and before it reads the list. */
  lemma ReportWithoutIds(c: Config, id: M.Id, route: Route)
    requires c.readIdle > 0 && c.writeIdle > 0
    ensures exists run, from, to, visits, seen, now :: EmptyReport(run, from, to, visits, seen, c, now, route.Key())
  {
    var key := route.Key();
    var added, s0 := S.AddAlone([], M.INIT, id, route, 0);
    var steps, s := S.RemoveAlone(added, s0, id, route, 0);
    var run := S.RunOf(steps);
    var found, to := |added|, |steps|;
    assert steps[..to] == steps && steps[..found] == added;
    assert run[found] == s0 && run[to] == s;
    var visits := map[key := Visit(0, found, found, found, to)];
    var seen := map[key := R.Entry([], 0, 0)];
    var now := c.readIdle + c.writeIdle + 1;
    assert Loads(run, found, to, key, visits[key], seen[key]);
    BothReported(c, [], key);
    forall k, h
      ensures !ListedThroughout(run, found, to, k, h)
    {
      assert k !in run[to].index;
    }
    assert Walked(run, found, to, visits, seen, Found(Both, [], key));
    assert EmptyReport(run, found, to, visits, seen, c, now, key);
  }
}

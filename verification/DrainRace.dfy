/**
 Draining beside other threads: the idle thread removes the first id of a report by id alone, so what
 it erases is whatever route the id has when the removal gets to it.
 */
module DrainRace {
  import opened Common
  import opened Idle
  import opened IdleWalk
  import B = Bindings
  import R = RouteTable
  import M = RouteMachine
  import S = Stamps

  // The step writes or erases the id's route.
  predicate Sets(s: M.Machine, l: M.Label, id: M.Id) {
    l.Advance? && s.holder.Begun? && s.holder.job.id == id
  }

  // Of the steps before j that write or erase the id's route, the n-th is the last, and puts it on key.
  ghost predicate LastBind(steps: seq<M.Label>, run: seq<M.Machine>, n: nat, j: nat, id: M.Id, key: RouteKey) {
    n < j <= |steps| && j <= |run| && Sets(run[n], steps[n], id)
    && run[n].holder.job.Adding? && run[n].holder.job.route.Key() == key
    && forall m :: n < m < j ==> !Sets(run[m], steps[m], id)
  }

  ghost predicate LastBoundTo(steps: seq<M.Label>, run: seq<M.Machine>, j: nat, id: M.Id, key: RouteKey) {
    exists n: nat :: LastBind(steps, run, n, j, id, key)
  }

  lemma BoundStep(s: M.Machine, l: M.Label, id: M.Id, key: RouteKey)
    requires M.Enabled(s, l)
    ensures B.BoundTo(M.Bound(M.Do(s, l)), id, key) <==>
            if Sets(s, l, id) then s.holder.job.Adding? && s.holder.job.route.Key() == key
            else B.BoundTo(M.Bound(s), id, key)
  {
    if l.Advance? {
      BoundWork(s, l.now, id, key);
    }
  }

  lemma BoundWork(s: M.Machine, now: int, id: M.Id, key: RouteKey)
    requires M.HolderFits(s)
    ensures B.BoundTo(M.Bound(M.Work(s, now)), id, key) <==>
            if s.holder.Begun? && s.holder.job.id == id then s.holder.job.Adding? && s.holder.job.route.Key() == key
            else B.BoundTo(M.Bound(s), id, key)
  {
  }

  // In every state of a run an id is bound to the key the last step on its route put it on.
  lemma {:induction false} BoundIsLastBind(steps: seq<M.Label>, run: seq<M.Machine>, j: nat, id: M.Id, key: RouteKey)
    requires S.Traces(steps, run) && j < |run|
    ensures B.BoundTo(M.Bound(run[j]), id, key) <==> LastBoundTo(steps, run, j, id, key)
  {
    if j == 0 {
      assert run[0] == M.INIT;
    } else {
      BoundIsLastBind(steps, run, j - 1, id, key);
      S.StepOf(steps, run, j - 1);
      BoundStep(run[j - 1], steps[j - 1], id, key);
      LastBindStep(steps, run, j, id, key);
    }
  }

  lemma LastBindStep(steps: seq<M.Label>, run: seq<M.Machine>, j: nat, id: M.Id, key: RouteKey)
    requires 0 < j <= |steps| && j <= |run|
    ensures LastBoundTo(steps, run, j, id, key) <==>
            if Sets(run[j - 1], steps[j - 1], id)
            then run[j - 1].holder.job.Adding? && run[j - 1].holder.job.route.Key() == key
            else LastBoundTo(steps, run, j - 1, id, key)
  {
    var p: nat := j - 1;
    if Sets(run[p], steps[p], id) {
      if run[p].holder.job.Adding? && run[p].holder.job.route.Key() == key {
        assert LastBind(steps, run, p, j, id, key);
      }
    } else {
      assert forall n: nat :: LastBind(steps, run, n, p, id, key) <==> LastBind(steps, run, n, j, id, key);
    }
  }

  // The removal of the reported id is about to erase its route, at a position after the report.
  ghost predicate Removes(steps: seq<M.Label>, run: seq<M.Machine>, at: Visit, v: Verdict, j: nat) {
    v.Found? && v.ids != [] && at.list <= j < |steps| && j < |run|
    && steps[j].Advance? && run[j].holder == M.Begun(M.Removing(v.ids[0]))
  }

  // A bind after the report's list was read.
  ghost predicate Rebound(steps: seq<M.Label>, run: seq<M.Machine>, k: nat, j: nat, id: M.Id, key: RouteKey) {
    exists n: nat :: k <= n && LastBind(steps, run, n, j, id, key)
  }

  /** What draining a report erases: a route on another key than the reported one if and only if, of the
      steps on the id's route before the erasure, the last bound the id to that other key. Unless the lock
      holder was at work on that very id when the report's list was read, that means exactly that the id
      has been bound there since. */
  lemma ErasesOtherIff(steps: seq<M.Label>, run: seq<M.Machine>, from: nat, to: nat,
                       visits: map<RouteKey, Visit>, seen: map<RouteKey, R.Entry>,
                       c: Config, now: int, v: Verdict, j: nat, other: RouteKey)
    requires S.Traces(steps, run) && Walked(run, from, to, visits, seen, v) && Answers(c, seen, now, v)
    requires v.Found? && Removes(steps, run, visits[v.key], v, j) && other != v.key
    ensures run[j + 1].routes == run[j].routes - {v.ids[0]}
    ensures B.BoundTo(M.Bound(run[j]), v.ids[0], other) <==> LastBoundTo(steps, run, j, v.ids[0], other)
    ensures !M.WorksOn(run[visits[v.key].list], v.ids[0]) ==>
              (B.BoundTo(M.Bound(run[j]), v.ids[0], other) <==>
               Rebound(steps, run, visits[v.key].list, j, v.ids[0], other))
  {
    var k, id := visits[v.key].list, v.ids[0];
    ErasesAt(steps, run, j, id);
    BoundIsLastBind(steps, run, j, id, other);
    if !M.WorksOn(run[k], id) {
      ReportedIds(run, from, to, visits, seen, c, now, v);
      NotBefore(steps, run, k, j, id, v.key, other);
    }
  }

  lemma ErasesAt(steps: seq<M.Label>, run: seq<M.Machine>, j: nat, id: M.Id)
    requires S.Traces(steps, run) && j < |steps| && steps[j].Advance? && run[j].holder == M.Begun(M.Removing(id))
    ensures run[j + 1].routes == run[j].routes - {id}
  {
    S.StepOf(steps, run, j);
  }

  // An id bound to one key at k has been bound to another only since.
  lemma NotBefore(steps: seq<M.Label>, run: seq<M.Machine>, k: nat, j: nat, id: M.Id, key: RouteKey,
                  other: RouteKey)
    requires S.Traces(steps, run) && k <= j < |run| && B.BoundTo(M.Bound(run[k]), id, key) && other != key
    ensures LastBoundTo(steps, run, j, id, other) <==> Rebound(steps, run, k, j, id, other)
  {
    BoundIsLastBind(steps, run, k, id, other);
    assert forall n: nat :: n < k && LastBind(steps, run, n, j, id, other) ==> LastBind(steps, run, n, k, id, other);
  }

  // Witness

  // The only id moves to another key: its route is rewritten and its former entry looked up.
  lemma RewriteAlone(steps: seq<M.Label>, s: M.Machine, id: M.Id, route: Route, next: Route)
    returns (steps': seq<M.Label>, s': M.Machine)
    requires S.After(steps) == Some(s) && s.holder.Free? && s.routes == map[id := route]
    requires s.index == map[route.Key() := 0] && next.Key() != route.Key()
    ensures S.After(steps') == Some(s') && steps <= steps'
    ensures s' == s.(routes := map[id := next], holder := M.Retaining(M.Adding(id, next), route.Key(), 0))
  {
    steps', s' := S.Step(steps, s, M.Lock(M.Adding(id, next)));
    steps', s' := S.Step(steps', s', M.Advance(0));
    steps', s' := S.Step(steps', s', M.Advance(0));
  }

  lemma LeaveAlone(steps: seq<M.Label>, s: M.Machine, id: M.Id, key: RouteKey, next: Route)
    returns (steps': seq<M.Label>, s': M.Machine)
    requires S.After(steps) == Some(s) && s.holder == M.Retaining(M.Adding(id, next), key, 0)
    requires s.index == map[key := 0] && s.cells == [M.Cell(key, [id], 0, 0)]
    ensures S.After(steps') == Some(s') && steps <= steps'
    ensures s' == s.(index := map[], cells := [M.Cell(key, [], 0, 0)], holder := M.Linking(M.Adding(id, next)))
  {
    assert B.Retain([id], id) == [];
    steps', s' := S.Step(steps, s, M.Advance(0));
    steps', s' := S.Step(steps', s', M.Advance(0));
  }

  lemma JoinAlone(steps: seq<M.Label>, s: M.Machine, id: M.Id, next: Route, now: int)
    returns (steps': seq<M.Label>, s': M.Machine)
    requires S.After(steps) == Some(s) && s.holder == M.Linking(M.Adding(id, next)) && s.index == map[]
    ensures S.After(steps') == Some(s') && steps <= steps' && s'.holder.Free? && s'.routes == s.routes
    ensures s'.index == map[next.Key() := |s.cells|] && s'.cells == s.cells + [M.Cell(next.Key(), [id], now, now)]
  {
    steps', s' := S.Step(steps, s, M.Advance(now));
    steps', s' := S.Step(steps', s', M.Advance(now));
    steps', s' := S.Step(steps', s', M.Advance(now));
  }

  // In the state at position i the id is alone on one key; then it moves to another key, at that time, and
  // the last step of the run erases its route.
  ghost predicate MovedThenErased(steps: seq<M.Label>, run: seq<M.Machine>, i: nat, id: M.Id, key: RouteKey,
                                  next: Route, now: int) {
    S.Traces(steps, run) && i < |steps| && steps[|steps| - 1].Advance?
    && run[i].index == map[key := 0] && run[i].cells == [M.Cell(key, [id], 0, 0)] && run[i].holder.Free?
    && run[|steps| - 1].holder == M.Begun(M.Removing(id)) && run[|steps| - 1].routes == map[id := next]
    && run[|steps|].routes == map[]
    && M.Addressed(run[|steps|]) && next.Key() in run[|steps|].index
    && S.StampOf(run[|steps|], next.Key()) == S.Stamp(now, now)
  }

  lemma MovedRun(id: M.Id, route: Route, next: Route, now: int)
    returns (steps: seq<M.Label>, run: seq<M.Machine>, i: nat)
    requires next.Key() != route.Key()
    ensures MovedThenErased(steps, run, i, id, route.Key(), next, now)
  {
    var added, s0 := S.AddAlone([], M.INIT, id, route, 0);
    var f, s := RewriteAlone(added, s0, id, route, next);
    f, s := LeaveAlone(f, s, id, route.Key(), next);
    f, s := JoinAlone(f, s, id, next, now);
    var locked, s1 := S.Step(f, s, M.Lock(M.Removing(id)));
    var s2;
    steps, s2 := S.Step(locked, s1, M.Advance(now));
    run := S.RunOf(steps);
    i := |added|;
    assert steps[..i] == added && steps[..|locked|] == locked && steps[..|steps|] == steps;
    assert run[i] == s0 && run[|locked|] == s1 && run[|steps|] == s2;
  }

  // The walk at position i reports the id on one key; the last step of the run, its removal, erases the
  // route the id has by then on another key, whose stamps are no older than the report.
  ghost predicate ErasesFresh(steps: seq<M.Label>, run: seq<M.Machine>, i: nat, visits: map<RouteKey, Visit>,
                              seen: map<RouteKey, R.Entry>, c: Config, now: int, id: M.Id, key: RouteKey,
                              next: Route) {
    MovedThenErased(steps, run, i, id, key, next, now)
    && Walked(run, i, i, visits, seen, Found(Both, [id], key)) && Answers(c, seen, now, Found(Both, [id], key))
    && Removes(steps, run, visits[key], Found(Both, [id], key), |steps| - 1)
  }

  lemma AloneReported(run: seq<M.Machine>, i: nat, c: Config, now: int, id: M.Id, key: RouteKey)
    returns (visits: map<RouteKey, Visit>, seen: map<RouteKey, R.Entry>)
    requires c.readIdle > 0 && c.writeIdle > 0 && now == c.readIdle + c.writeIdle + 1
    requires M.Execution(run) && i < |run| && run[i].holder.Free?
    requires run[i].index == map[key := 0] && run[i].cells == [M.Cell(key, [id], 0, 0)]
    ensures Walked(run, i, i, visits, seen, Found(Both, [id], key)) && Answers(c, seen, now, Found(Both, [id], key))
    ensures visits[key].list == i
  {
    seen := map[key := R.Entry([id], 0, 0)];
    BothReported(c, [id], key);
    visits := WalkAtOnce(run, i, seen, Found(Both, [id], key));
  }

  /** Such a run: an id added again on another key after the report loses its fresh route. */
  lemma DrainErasesFresh(c: Config, id: M.Id, route: Route, next: Route)
    requires c.readIdle > 0 && c.writeIdle > 0 && next.Key() != route.Key()
    ensures exists steps, run, i, visits, seen, now ::
              ErasesFresh(steps, run, i, visits, seen, c, now, id, route.Key(), next)
  {
    var key, now := route.Key(), c.readIdle + c.writeIdle + 1;
    var steps, run, i := MovedRun(id, route, next, now);
    var visits, seen := AloneReported(run, i, c, now, id, key);
    assert ErasesFresh(steps, run, i, visits, seen, c, now, id, key, next);
  }
}

/**
 What an idle report says of the receives and sends made while the detector walked and while other
 threads raced on the entries: stores may reach an entry in another order than their clock readings.
 */
module IdleSilence {
  import opened Common
  import opened Idle
  import opened IdleWalk
  import R = RouteTable
  import M = RouteMachine
  import S = Stamps

  // Of the steps before that position, those that write the entry's stamp carry times in their order.
  ghost predicate EntryForward(steps: seq<M.Label>, upto: nat, h: M.Handle, isRead: bool) {
    forall m, n :: 0 <= m < n < upto && n < |steps|
                   && S.WritesAt(steps, m, h, isRead) && S.WritesAt(steps, n, h, isRead)
      ==> S.TimeOf(steps[m]) <= S.TimeOf(steps[n])
  }

  // The entry's stamp at a position of a run is the time of the last write before it.
  lemma StampAt(steps: seq<M.Label>, run: seq<M.Machine>, p: nat, h: M.Handle, isRead: bool) returns (n: nat)
    requires S.Traces(steps, run) && p < |run| && h < |run[p].cells|
    ensures n < p && S.WritesAt(steps, n, h, isRead) && S.TimeOf(steps[n]) == S.TimeIn(run[p].cells[h], isRead)
    ensures forall m :: n < m < p ==> !S.WritesAt(steps, m, h, isRead)
  {
    var f := steps[..p];
    S.StampIsLastWritten(f, h, isRead);
    n :| S.LastWrite(f, n, h, isRead) && S.TimeOf(f[n]) == S.TimeIn(run[p].cells[h], isRead);
    forall m: nat | m < p
      ensures S.WritesAt(f, m, h, isRead) == S.WritesAt(steps, m, h, isRead)
    {
      S.WritesPrefix(steps, p, m, h, isRead);
    }
  }

  lemma StampCoversEntry(steps: seq<M.Label>, run: seq<M.Machine>, p: nat, h: M.Handle, isRead: bool)
    requires S.Traces(steps, run) && p < |run| && h < |run[p].cells| && EntryForward(steps, p, h, isRead)
    ensures forall m :: 0 <= m < p && S.WritesAt(steps, m, h, isRead) ==>
              S.TimeOf(steps[m]) <= S.TimeIn(run[p].cells[h], isRead)
  {
    var n := StampAt(steps, run, p, h, isRead);
  }

  /** Soundness while receives (sends) race on the entry: if the times its writes carry do not go back,
      every receive (send) stored through it before the load is more than the threshold old. */
  lemma ReportMeansEntrySilence(steps: seq<M.Label>, run: seq<M.Machine>, from: nat, to: nat,
                                visits: map<RouteKey, Visit>, seen: map<RouteKey, R.Entry>,
                                c: Config, now: int, v: Verdict, dir: R.Direction, m: nat)
    requires S.Traces(steps, run) && Walked(run, from, to, visits, seen, v)
    requires Answers(c, seen, now, v) && Reports(v, dir)
    requires EntryForward(steps, LoadedAt(visits[v.key], dir), visits[v.key].h, dir.Read?)
    requires m < LoadedAt(visits[v.key], dir) && m < |steps|
    requires S.WritesAt(steps, m, visits[v.key].h, dir.Read?)
    ensures now - S.TimeOf(steps[m]) > c.Threshold(dir)
  {
    ReportedWasOverdue(run, from, to, visits, seen, c, now, v, dir);
    StampCoversEntry(steps, run, LoadedAt(visits[v.key], dir), visits[v.key].h, dir.Read?);
  }

  // The whole key, whatever entries it has had

  // The step creates an entry of the key, or stores a receive (send) on it, through whatever entry.
  predicate WritesKey(s: M.Machine, l: M.Label, key: RouteKey, isRead: bool) {
    match l
    case Advance(_) => s.holder.Creating? && s.holder.job.Adding? && s.holder.job.route.Key() == key
    case Store(r, toRead, _) => r in s.readers && s.readers[r].key == key && toRead == isRead
    case _ => false
  }

  // The store goes through the entry listed for the key at that moment.
  predicate Reaches(s: M.Machine, l: M.Label, key: RouteKey, isRead: bool) {
    l.Store? && WritesKey(s, l, key, isRead)
    && s.readers[l.reader].h < |s.cells| && M.Current(s, s.readers[l.reader].h)
  }

  ghost predicate KeyForward(steps: seq<M.Label>, run: seq<M.Machine>, upto: nat, key: RouteKey, isRead: bool) {
    forall m, n :: 0 <= m < n < upto && n < |steps| && n < |run|
                   && WritesKey(run[m], steps[m], key, isRead) && WritesKey(run[n], steps[n], key, isRead)
      ==> S.TimeOf(steps[m]) <= S.TimeOf(steps[n])
  }

  lemma EntryIsOfKey(steps: seq<M.Label>, run: seq<M.Machine>, n: nat, p: nat, h: M.Handle, isRead: bool)
    requires S.Traces(steps, run) && n < p < |run| && h < |run[p].cells| && S.WritesAt(steps, n, h, isRead)
    ensures WritesKey(run[n], steps[n], run[p].cells[h].key, isRead)
  {
    M.Reached(run, n);
    S.StepOf(steps, run, n);
    if steps[n].Store? {
      EntriesKept(run, n, p);
    } else {
      EntriesKept(run, n + 1, p);
    }
  }

  // A store that reached the key's table entry before another entry was listed precedes every write to
  // that other one.
  lemma StoredEarlier(steps: seq<M.Label>, run: seq<M.Machine>, m: nat, n: nat, j: nat, key: RouteKey,
                      h: M.Handle, isRead: bool)
    requires S.Traces(steps, run) && m < j < |run| && n < |steps|
    requires key in run[j].index && run[j].index[key] == h && h < |run[j].cells| && M.Current(run[j], h)
    requires run[j].cells[h].key == key
    requires Reaches(run[m], steps[m], key, isRead) && run[m].readers[steps[m].reader].h != h
    requires S.WritesAt(steps, n, h, isRead)
    ensures m < n
  {
    M.Reached(run, m);
    if h < |run[m].cells| {
      EntriesKept(run, m, j);
      assert false;
    }
    if n <= m {
      M.Reached(run, n);
      S.StepOf(steps, run, n);
      if n < m {
        EntriesKept(run, n + 1, m);
      }
      assert false;
    }
  }

  /** Soundness for the whole key: if the times of the writes on it do not go back, every receive (send)
      that reached the table before the walk found the key, through whatever entry was listed then, is
      more than the threshold old. */
  lemma ReportMeansSilence(steps: seq<M.Label>, run: seq<M.Machine>, from: nat, to: nat,
                           visits: map<RouteKey, Visit>, seen: map<RouteKey, R.Entry>,
                           c: Config, now: int, v: Verdict, dir: R.Direction, m: nat)
    requires S.Traces(steps, run) && Walked(run, from, to, visits, seen, v)
    requires Answers(c, seen, now, v) && Reports(v, dir)
    requires KeyForward(steps, run, LoadedAt(visits[v.key], dir), v.key, dir.Read?)
    requires m < visits[v.key].found && m < |steps| && Reaches(run[m], steps[m], v.key, dir.Read?)
    ensures now - S.TimeOf(steps[m]) > c.Threshold(dir)
  {
    var at := visits[v.key];
    var p := LoadedAt(at, dir);
    ReportedWasOverdue(run, from, to, visits, seen, c, now, v, dir);
    assert Loads(run, from, to, v.key, at, seen[v.key]);
    StampCoversKey(steps, run, at.found, p, v.key, at.h, dir.Read?, m);
  }

  lemma StampCoversKey(steps: seq<M.Label>, run: seq<M.Machine>, j: nat, p: nat, key: RouteKey, h: M.Handle,
                       isRead: bool, m: nat)
    requires S.Traces(steps, run) && m < j <= p < |run| && key in run[j].index && run[j].index[key] == h
    requires h < |run[p].cells| && KeyForward(steps, run, p, key, isRead)
    requires Reaches(run[m], steps[m], key, isRead)
    ensures S.TimeOf(steps[m]) <= S.TimeIn(run[p].cells[h], isRead)
  {
    M.Reached(run, j);
    EntriesKept(run, j, p);
    var n := StampAt(steps, run, p, h, isRead);
    EntryIsOfKey(steps, run, n, p, h, isRead);
    if run[m].readers[steps[m].reader].h == h {
      StoreWrites(steps, run, m, h, isRead);
    } else {
      StoredEarlier(steps, run, m, n, j, key, h, isRead);
    }
  }

  lemma StoreWrites(steps: seq<M.Label>, run: seq<M.Machine>, m: nat, h: M.Handle, isRead: bool)
    requires S.Traces(steps, run) && m < |steps| && steps[m].Store? && steps[m].isRead == isRead
    requires steps[m].reader in run[m].readers && run[m].readers[steps[m].reader].h == h
    ensures S.WritesAt(steps, m, h, isRead)
  {
    assert S.After(steps[..m]) == Some(run[m]);
  }
}

/**
 The idle detector: one scan of the time table in key order, the pause that follows a scan which
 found nothing, and the loop of scans. The clock readings, the table contents at each reading and
 the status loads come from outside and are the script the loop runs on.
 */
module Idle {
  import opened Common
  import R = RouteTable
  import B = Bindings

  const MAX_I64 := 0x7FFF_FFFF_FFFF_FFFF

  datatype IdleStatus = Write | Read | Both

  // A threshold that is not positive switches its direction off.
  datatype Config = Config(readIdle: int, writeIdle: int) {
    function Threshold(dir: R.Direction): int {
      if dir.Read? then readIdle else writeIdle
    }

    predicate Watches(dir: R.Direction) {
      Threshold(dir) > 0
    }

    function Longest(): int {
      if writeIdle > readIdle then writeIdle else readIdle
    }
  }

  datatype Verdict = Found(status: IdleStatus, ids: seq<R.Id>, key: RouteKey) | Quiet(min: int)

  predicate Overdue(c: Config, e: R.Entry, dir: R.Direction, now: int) {
    c.Watches(dir) && now - R.Stamp(e, dir) > c.Threshold(dir)
  }

  predicate IsIdle(c: Config, e: R.Entry, now: int) {
    Overdue(c, e, R.Read, now) || Overdue(c, e, R.Write, now)
  }

  // The smallest stamp in a watched direction over some keys, or the sentinel when there is none.
  ghost predicate IsMin(c: Config, times: map<RouteKey, R.Entry>, keys: set<RouteKey>, min: int)
    requires keys <= times.Keys
  {
    min <= MAX_I64
    && (forall key, dir :: key in keys && c.Watches(dir) ==> min <= R.Stamp(times[key], dir))
    && (min == MAX_I64 || exists key, dir :: key in keys && c.Watches(dir) && min == R.Stamp(times[key], dir))
  }

  /** What a scan must answer: the least idle key, with the directions in which it is strictly
      overdue; or, when no key is idle, the minimum of all watched stamps. */
  ghost predicate Answers(c: Config, times: map<RouteKey, R.Entry>, now: int, v: Verdict) {
    match v
    case Found(status, ids, key) =>
      key in times && ids == times[key].ids && IsIdle(c, times[key], now)
      && (forall other <- times :: IsIdle(c, times[other], now) ==> other == key || Less(key, other))
      && (status.Both? <==> Overdue(c, times[key], R.Read, now) && Overdue(c, times[key], R.Write, now))
      && (status.Read? <==> Overdue(c, times[key], R.Read, now) && !Overdue(c, times[key], R.Write, now))
    case Quiet(min) =>
      (forall key <- times :: !IsIdle(c, times[key], now)) && IsMin(c, times, times.Keys, min)
  }

  // One pass of the loop: the clock and table at the scan, the table and clock at the decision to
  // pause, and the status loaded after the pause.
  datatype Round = Round(times: map<RouteKey, R.Entry>, now: int,
                         after: map<RouteKey, R.Entry>, later: int, closed: bool)

  datatype Pause = Park | Sleep(ms: int) | Spin

  datatype Outcome = Returned(v: Verdict) | Closed | Waiting

  function PauseAfter(r: Round, min: int): Pause {
    if r.after == map[] then Park
    else if r.later - min > 0 then Sleep(r.later - min)
    else Spin
  }

  ghost predicate Paused(c: Config, r: Round, p: Pause) {
    exists min :: Answers(c, r.times, r.now, Quiet(min)) && p == PauseAfter(r, min)
  }

  /** The configuration in plain numbers: a direction is watched exactly when its threshold is positive,
      and overdue when its stamp is more than that threshold old. */
  lemma OverdueInNumbers(c: Config, e: R.Entry, now: int)
    ensures c.Watches(R.Read) <==> c.readIdle > 0
    ensures c.Watches(R.Write) <==> c.writeIdle > 0
    ensures c.Threshold(R.Read) == c.readIdle && c.Threshold(R.Write) == c.writeIdle
    ensures c.Longest() >= c.readIdle && c.Longest() >= c.writeIdle && c.Longest() in {c.readIdle, c.writeIdle}
    ensures Overdue(c, e, R.Read, now) <==> c.readIdle > 0 && now - e.read > c.readIdle
    ensures Overdue(c, e, R.Write, now) <==> c.writeIdle > 0 && now - e.write > c.writeIdle
    ensures IsIdle(c, e, now) <==>
            (c.readIdle > 0 && now - e.read > c.readIdle) || (c.writeIdle > 0 && now - e.write > c.writeIdle)
  {
  }

  /** What a report says, in plain numbers: Read or Both exactly when the read threshold is on and the read
      stamp is more than it old, Write or Both likewise, and the same of no smaller key. So a direction
      that is off is never reported. */
  lemma FoundInNumbers(c: Config, times: map<RouteKey, R.Entry>, now: int, v: Verdict)
    requires Answers(c, times, now, v) && v.Found?
    ensures v.key in times && v.ids == times[v.key].ids
    ensures v.status in {Read, Both} <==> c.readIdle > 0 && now - times[v.key].read > c.readIdle
    ensures v.status in {Write, Both} <==> c.writeIdle > 0 && now - times[v.key].write > c.writeIdle
    ensures forall key <- times :: Less(key, v.key) ==>
              !(c.readIdle > 0 && now - times[key].read > c.readIdle)
              && !(c.writeIdle > 0 && now - times[key].write > c.writeIdle)
    ensures c.writeIdle <= 0 ==> v.status.Read?
    ensures c.readIdle <= 0 ==> v.status.Write?
  {
    forall key <- times
      ensures Less(key, v.key) ==> !IsIdle(c, times[key], now)
    {
      LessIsStrictTotal(key, v.key, key);
    }
  }

  /** What a fruitless scan says, in plain numbers: no stamp whose threshold is on is more than it old, and
      the minimum is the smallest of them, or the largest 64-bit value when there is none. So the stamps
      of a direction that is off play no part. */
  lemma QuietInNumbers(c: Config, times: map<RouteKey, R.Entry>, now: int, v: Verdict)
    requires Answers(c, times, now, v) && v.Quiet?
    ensures forall key <- times :: c.readIdle > 0 ==> now - times[key].read <= c.readIdle && v.min <= times[key].read
    ensures forall key <- times ::
              c.writeIdle > 0 ==> now - times[key].write <= c.writeIdle && v.min <= times[key].write
    ensures v.min == 0x7FFF_FFFF_FFFF_FFFF
            || (v.min < 0x7FFF_FFFF_FFFF_FFFF
                && exists key <- times :: (c.readIdle > 0 && v.min == times[key].read)
                                          || (c.writeIdle > 0 && v.min == times[key].write))
    ensures c.readIdle <= 0 && c.writeIdle <= 0 ==> v.min == 0x7FFF_FFFF_FFFF_FFFF
  {
    forall key <- times
      ensures c.readIdle > 0 ==> now - times[key].read <= c.readIdle && v.min <= times[key].read
      ensures c.writeIdle > 0 ==> now - times[key].write <= c.writeIdle && v.min <= times[key].write
    {
      OverdueInNumbers(c, times[key], now);
      assert !IsIdle(c, times[key], now);
      assert R.Stamp(times[key], R.Read) == times[key].read && R.Stamp(times[key], R.Write) == times[key].write;
    }
    if v.min != MAX_I64 {
      var key, dir :| key in times && c.Watches(dir) && v.min == R.Stamp(times[key], dir);
    }
  }

  class Detector {
    const config: Config

    constructor (readIdle: int, writeIdle: int)
      ensures config == Config(readIdle, writeIdle)
    {
      config := Config(readIdle, writeIdle);
    }

    // One walk in key order; times holds each entry as the walk found it.
    method Scan(times: map<RouteKey, R.Entry>, now: int) returns (v: Verdict)
      ensures Answers(config, times, now, v)
    {
      var lastReadIdle := now - config.readIdle;
      var lastWriteIdle := now - config.writeIdle;
      var min := MAX_I64;
      var rest := times.Keys;
      while rest != {}
        invariant rest <= times.Keys
        invariant forall key <- times.Keys - rest :: !IsIdle(config, times[key], now)
        invariant IsMin(config, times, times.Keys - rest, min)
        decreases rest
      {
        var key := Least(rest);
        var entry := times[key];
        ghost var before := min;
        var isReadIdle := false;
        if config.readIdle > 0 {
          if entry.read < lastReadIdle {
            isReadIdle := true;
          } else if min > entry.read {
            min := entry.read;
          }
        }
        if config.writeIdle > 0 {
          if entry.write < lastWriteIdle {
            FirstIdle(config, times, rest, key, now);
            if isReadIdle {
              return Found(Both, entry.ids, key);
            }
            return Found(Write, entry.ids, key);
          }
          if min > entry.write {
            min := entry.write;
          }
        }
        if isReadIdle {
          FirstIdle(config, times, rest, key, now);
          return Found(Read, entry.ids, key);
        }
        FreshEntry(config, times, times.Keys - rest, key, before, min, now);
        ghost var done := times.Keys - rest;
        rest := rest - {key};
        assert times.Keys - rest == done + {key};
      }
      assert times.Keys - rest == times.Keys;
      v := Quiet(min);
    }

    // The loop of next_idle over a script of rounds; Waiting when the script ends inside the loop.
    method NextIdle(rounds: seq<Round>) returns (out: Outcome, pauses: seq<Pause>)
      ensures |pauses| <= |rounds|
      ensures forall i :: 0 <= i < |pauses| ==> Paused(config, rounds[i], pauses[i])
      ensures forall i :: 0 <= i < |pauses| ==> (rounds[i].closed <==> out.Closed? && i == |pauses| - 1)
      ensures out.Returned? ==> |pauses| < |rounds|
      ensures out.Returned? ==> out.v.Found? && Answers(config, rounds[|pauses|].times, rounds[|pauses|].now, out.v)
      ensures out.Closed? ==> pauses != []
      ensures forall i :: 0 <= i < |pauses| ==> (pauses[i].Park? <==> rounds[i].after == map[])
      ensures forall i :: 0 <= i < |pauses| && rounds[i].after != map[] ==>
                exists min :: Answers(config, rounds[i].times, rounds[i].now, Quiet(min))
                              && pauses[i] == if rounds[i].later > min then Sleep(rounds[i].later - min) else Spin
      ensures out.Waiting? ==> |pauses| == |rounds|
    {
      pauses := [];
      for i := 0 to |rounds|
        invariant |pauses| == i
        invariant forall j :: 0 <= j < i ==> Paused(config, rounds[j], pauses[j]) && !rounds[j].closed
      {
        var v := Scan(rounds[i].times, rounds[i].now);
        if v.Found? {
          return Returned(v), pauses;
        }
        var pause := Park;
        if rounds[i].after != map[] {
          var sleepTime := rounds[i].later - v.min;
          pause := if sleepTime > 0 then Sleep(sleepTime) else Spin;
        }
        assert pause == PauseAfter(rounds[i], v.min);
        pauses := pauses + [pause];
        if rounds[i].closed {
          return Closed, pauses;
        }
      }
      out := Waiting;
    }

    /** The caller's loop with the clock frozen: take an idle key, remove the first of its ids, ask
        again. It ends with exactly the routes on keys that were not idle, their lists and stamps
        untouched, having removed each id of an idle key once. */
    method Drain(table: R.Table, now: int) returns (removed: seq<R.Id>)
      requires table.Valid()
      modifies table`routes, table`times, table`history
      ensures table.Valid()
      ensures table.times == Kept(config, old(table.times), now)
      ensures table.routes == map id | id in old(table.routes) && id !in removed :: old(table.routes)[id]
      ensures B.Distinct(removed)
      ensures forall id :: id in removed <==> OnIdleKey(config, old(table.Now()), now, id)
    {
      ghost var t0 := table.Now();
      removed := [];
      Unbroken(t0);
      var v := Scan(table.times, now);
      while v.Found?
        invariant table.Valid()
        invariant Answers(config, table.times, now, v)
        invariant Partly(config, t0, table.Now(), removed, now)
        invariant B.Distinct(removed)
        decreases |table.routes|
      {
        DrainStep(config, t0, table.history, removed, now, v);
        removed := removed + [v.ids[0]];
        table.RemoveRoute(v.ids[0]);
        v := Scan(table.times, now);
      }
      R.ShapeOfReplay(table.history);
      R.ShapeOfReplay(old(table.history));
      Drained(config, t0, table.Now(), removed, now);
    }
  }

  // The first idle key met is the one to report.
  lemma FirstIdle(c: Config, times: map<RouteKey, R.Entry>, rest: set<RouteKey>, key: RouteKey, now: int)
    requires key in rest && rest <= times.Keys && IsIdle(c, times[key], now)
    requires forall next <- rest :: next == key || Less(key, next)
    requires forall seen <- times.Keys - rest :: !IsIdle(c, times[seen], now)
    ensures Answers(c, times, now, Found(StatusOf(c, times[key], now), times[key].ids, key))
  {
  }

  function StatusOf(c: Config, e: R.Entry, now: int): IdleStatus {
    if !Overdue(c, e, R.Read, now) then Write
    else if Overdue(c, e, R.Write, now) then Both
    else Read
  }

  // An entry that is not idle, and the minimum as the walk updates it.
  lemma FreshEntry(c: Config, times: map<RouteKey, R.Entry>, keys: set<RouteKey>, key: RouteKey, min: int, min': int,
                   now: int)
    requires key in times && keys <= times.Keys && IsMin(c, times, keys, min)
    requires c.readIdle > 0 ==> now - times[key].read <= c.readIdle && min' <= times[key].read
    requires c.writeIdle > 0 ==> now - times[key].write <= c.writeIdle && min' <= times[key].write
    requires min' <= min
    requires min' == min || (c.readIdle > 0 && min' == times[key].read) || (c.writeIdle > 0 && min' == times[key].write)
    ensures !IsIdle(c, times[key], now) && IsMin(c, times, keys + {key}, min')
  {
    assert R.Stamp(times[key], R.Read) == times[key].read && R.Stamp(times[key], R.Write) == times[key].write;
    assert min' == min || (c.Watches(R.Read) && min' == R.Stamp(times[key], R.Read))
        || (c.Watches(R.Write) && min' == R.Stamp(times[key], R.Write));
    MinExtends(c, times, keys, key, min, min');
  }

  lemma MinExtends(c: Config, times: map<RouteKey, R.Entry>, keys: set<RouteKey>, key: RouteKey, min: int, min': int)
    requires key in times && keys <= times.Keys && IsMin(c, times, keys, min)
    requires min' <= min
    requires forall dir :: c.Watches(dir) ==> min' <= R.Stamp(times[key], dir)
    requires min' == min || exists dir :: c.Watches(dir) && min' == R.Stamp(times[key], dir)
    ensures IsMin(c, times, keys + {key}, min')
  {
  }

  /** A scan has one answer. */
  lemma AnswerUnique(c: Config, times: map<RouteKey, R.Entry>, now: int, v: Verdict, w: Verdict)
    requires Answers(c, times, now, v) && Answers(c, times, now, w)
    ensures v == w
  {
    if v.Found? && w.Found? {
      LessIsStrictTotal(v.key, w.key, v.key);
      assert v.key == w.key;
    }
  }

  // Draining

  function Kept(c: Config, times: map<RouteKey, R.Entry>, now: int): map<RouteKey, R.Entry> {
    map key | key in times && !IsIdle(c, times[key], now) :: times[key]
  }

  predicate OnIdleKey(c: Config, t: R.Tables, now: int, id: R.Id) {
    id in t.routes && t.routes[id].Key() in t.times && IsIdle(c, t.times[t.routes[id].Key()], now)
  }

  // t is t0 with the removed ids, all of them on idle keys, taken away.
  ghost predicate Partly(c: Config, t0: R.Tables, t: R.Tables, removed: seq<R.Id>, now: int) {
    (forall key <- t0.times :: !IsIdle(c, t0.times[key], now) ==> key in t.times && t.times[key] == t0.times[key])
    && (forall key <- t.times :: key in t0.times && t.times[key].read == t0.times[key].read
                                 && t.times[key].write == t0.times[key].write)
    && t.routes == (map id | id in t0.routes && id !in removed :: t0.routes[id])
    && (forall id <- removed :: OnIdleKey(c, t0, now, id))
  }

  lemma Unbroken(t: R.Tables)
    ensures t.routes == map id | id in t.routes && id !in [] :: t.routes[id]
  {
  }

  lemma HeadIsBound(t: R.Tables, key: RouteKey)
    requires R.Consistent(t) && key in t.times
    ensures t.times[key].ids != []
    ensures t.times[key].ids[0] in t.routes && t.routes[t.times[key].ids[0]].Key() == key
  {
    var s := R.ShapeOf(t);
    assert key in s.lists && s.lists[key] == t.times[key].ids;
    var id := t.times[key].ids[0];
    assert B.AgreeOn(s, id);
    assert B.OnList(s.lists, id, key);
  }

  lemma RemoveStep(c: Config, t0: R.Tables, t: R.Tables, removed: seq<R.Id>, now: int, key: RouteKey)
    requires R.Consistent(t) && Partly(c, t0, t, removed, now)
    requires key in t.times && IsIdle(c, t.times[key], now)
    ensures t.times[key].ids != []
    ensures Partly(c, t0, R.Apply(t, R.Removed(t.times[key].ids[0])), removed + [t.times[key].ids[0]], now)
    ensures t.times[key].ids[0] !in removed && t.times[key].ids[0] in t.routes
    ensures |R.Apply(t, R.Removed(t.times[key].ids[0])).routes| < |t.routes|
  {
    HeadIsBound(t, key);
    var id := t.times[key].ids[0];
    assert (t.routes - {id}) == (map x | x in t0.routes && x !in removed + [id] :: t0.routes[x]);
    assert IsIdle(c, t0.times[key], now);
  }

  // One turn of the loop: the first id of the report goes.
  lemma DrainStep(c: Config, t0: R.Tables, h: seq<R.Event>, removed: seq<R.Id>, now: int, v: Verdict)
    requires Partly(c, t0, R.Replay(h), removed, now) && v.Found? && Answers(c, R.Replay(h).times, now, v)
    ensures v.ids != [] && v.ids[0] !in removed
    ensures Partly(c, t0, R.Apply(R.Replay(h), R.Removed(v.ids[0])), removed + [v.ids[0]], now)
    ensures |R.Apply(R.Replay(h), R.Removed(v.ids[0])).routes| < |R.Replay(h).routes|
  {
    R.ShapeOfReplay(h);
    RemoveStep(c, t0, R.Replay(h), removed, now, v.key);
  }

  lemma Drained(c: Config, t0: R.Tables, t: R.Tables, removed: seq<R.Id>, now: int)
    requires R.Consistent(t) && R.Consistent(t0) && Partly(c, t0, t, removed, now)
    requires forall key <- t.times :: !IsIdle(c, t.times[key], now)
    ensures t.times == Kept(c, t0.times, now)
    ensures forall id :: id in removed <==> OnIdleKey(c, t0, now, id)
  {
    forall id | id in t.routes
      ensures !OnIdleKey(c, t0, now, id)
    {
      var key := t.routes[id].Key();
      assert B.AgreeOn(R.ShapeOf(t), id);
      assert B.BoundTo(R.ShapeOf(t).bound, id, key);
      assert B.OnList(R.ShapeOf(t).lists, id, key);
    }
  }

  // Soundness against the history of the tables

  /** A Read (Write) or Both report means every receive (send) ever recorded on that key is more
      than the threshold old. */
  lemma ReportMeansSilence(h: seq<R.Event>, c: Config, now: int, v: Verdict)
    requires R.Monotone(h) && Answers(c, R.Replay(h).times, now, v) && v.Found?
    ensures !v.status.Write? ==> forall m :: 0 <= m < |h| && h[m].Touched? && h[m].dir.Read? && h[m].key == v.key
                                   ==> now - h[m].now > c.readIdle
    ensures !v.status.Read? ==> forall m :: 0 <= m < |h| && h[m].Touched? && h[m].dir.Write? && h[m].key == v.key
                                  ==> now - h[m].now > c.writeIdle
  {
    R.StampCoversHistory(h, R.Read, v.key);
    R.StampCoversHistory(h, R.Write, v.key);
  }

  /** A live key is overdue in a watched direction exactly when the last event that refreshed it is
      more than the threshold old. */
  lemma OverdueIff(h: seq<R.Event>, c: Config, key: RouteKey, dir: R.Direction, now: int)
    requires key in R.Replay(h).times && c.Watches(dir)
    ensures Overdue(c, R.Replay(h).times[key], dir, now) <==>
            exists n: nat ::
              R.LastRefresh(h, dir, key, n) && R.Timed(h[n]) && now - h[n].now > c.Threshold(dir)
  {
    var n := R.StampHistory(h, dir, key);
    forall m | R.LastRefresh(h, dir, key, m)
      ensures m == n
    {
    }
  }
}

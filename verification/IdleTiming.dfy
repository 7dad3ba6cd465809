/**
 How long an idle route can stay unreported, over whole runs of the scan-and-sleep loop. The sleep
 is the scan's clock reading minus the oldest stamp, exactly as the loop computes it.
 */
module IdleTiming {
  import opened Common
  import opened Idle
  import R = RouteTable

  // Round i found nothing and its minimum was min.
  ghost predicate QuietRound(c: Config, r: Round, min: int) {
    Answers(c, r.times, r.now, Quiet(min))
  }

  function Length(p: Pause): int {
    if p.Sleep? then p.ms else 0
  }

  // The next scan starts no later than the pause and two scheduling delays allow: the pause is
  // entered within slack of the scan, and may be cut short but overruns by at most slack.
  ghost predicate Prompt(c: Config, r: Round, next: int, slack: nat) {
    exists min ::
      QuietRound(c, r, min) && r.now <= r.later <= r.now + slack && r.now <= MAX_I64 && !PauseAfter(r, min).Park?
      && next <= r.later + Length(PauseAfter(r, min)) + slack
  }

  /** After a scan that found nothing no watched stamp is older than the longest threshold, so the sleep,
      which goes by a second clock reading, exceeds it at most by the time between the two readings. */
  lemma SleepBound(c: Config, r: Round, min: int)
    requires QuietRound(c, r, min) && c.Longest() > 0 && r.now <= MAX_I64
    ensures r.now - min <= c.Longest()
    ensures PauseAfter(r, min).Sleep? ==> 0 < PauseAfter(r, min).ms <= c.Longest() + (r.later - r.now)
  {
    if min != MAX_I64 {
      var key, dir :| key in r.times && c.Watches(dir) && min == R.Stamp(r.times[key], dir);
      assert !IsIdle(c, r.times[key], r.now);
    }
  }

  // The key, silent in that direction since t, is in the table throughout the round.
  predicate SilentIn(r: Round, key: RouteKey, dir: R.Direction, t: int) {
    key in r.times && R.Stamp(r.times[key], dir) == t && key in r.after
  }

  // The report covers the direction.
  predicate Covers(status: IdleStatus, dir: R.Direction) {
    if dir.Read? then !status.Write? else !status.Read?
  }

  /** Detection bound. A key has been silent since t in a watched direction; the first round of the run
      is any scan not later than the threshold after t, such as the last one before the silence, which
      may sleep by a longer threshold or park until the add at t wakes it. Then every scan that reports
      nothing is at most that direction's threshold after t; so the first scan later than that comes
      within the longest threshold plus three scheduling delays, and it reports this key in that
      direction or a smaller idle key. */
  lemma DetectionBound(c: Config, run: seq<Round>, key: RouteKey, dir: R.Direction, t: int, slack: nat, v: Verdict)
    requires c.Watches(dir) && run != []
    requires run[0].now <= t + c.Threshold(dir)
    requires forall i :: 1 <= i < |run| ==> SilentIn(run[i], key, dir, t)
    requires forall i :: 0 <= i < |run| - 1 ==>
               Prompt(c, run[i], run[i + 1].now, slack) || (i == 0 && run[i + 1].now <= t + slack)
    requires Answers(c, run[|run| - 1].times, run[|run| - 1].now, v)
    ensures forall i :: 0 <= i < |run| - 1 ==> run[i].now <= t + c.Threshold(dir)
    ensures run[|run| - 1].now <= t + c.Threshold(dir) + c.Longest() + 3 * slack
    ensures run[|run| - 1].now > t + c.Threshold(dir) ==> v.Found?
    ensures v.Found? && run[|run| - 1].now > t + c.Threshold(dir) ==>
              Less(v.key, key) || (v.key == key && Covers(v.status, dir))
  {
    var last := |run| - 1;
    forall i | 0 <= i < last
      ensures run[i].now <= t + c.Threshold(dir)
    {
      if i > 0 {
        assert Prompt(c, run[i], run[i + 1].now, slack) && SilentIn(run[i], key, dir, t);
        assert !IsIdle(c, run[i].times[key], run[i].now);
      }
    }
    if last > 0 && Prompt(c, run[last - 1], run[last - 1 + 1].now, slack) {
      var r := run[last - 1];
      var min :| QuietRound(c, r, min) && r.now <= r.later <= r.now + slack && r.now <= MAX_I64
        && !PauseAfter(r, min).Park? && run[last].now <= r.later + Length(PauseAfter(r, min)) + slack;
      SleepBound(c, r, min);
    }
    if run[last].now > t + c.Threshold(dir) {
      assert SilentIn(run[last], key, dir, t);
      assert Overdue(c, run[last].times[key], dir, run[last].now);
      if v.Found? {
        LessIsStrictTotal(v.key, key, key);
      }
    }
  }

  function Pow2(n: nat): nat {
    if n == 0 then 1 else 2 * Pow2(n - 1)
  }

  lemma DoubleMul(p: int, a: int)
    ensures (2 * p) * a == 2 * (p * a)
  {
  }

  // Consecutive rounds on an unchanging, non-empty table, each slept through in full.
  ghost predicate Undisturbed(c: Config, run: seq<Round>, times: map<RouteKey, R.Entry>, min: int) {
    times != map[]
    && (forall i :: 0 <= i < |run| ==> run[i].times == times && run[i].after == times)
    && (forall i :: 0 <= i < |run| ==> run[i].now <= run[i].later && run[i].now <= MAX_I64)
    && (forall i :: 0 <= i < |run| - 1 ==>
          QuietRound(c, run[i], min) && run[i + 1].now >= run[i].later + Length(PauseAfter(run[i], min)))
  }

  lemma MulAtLeast(p: nat, a: int)
    requires a >= 1
    ensures p * a >= p
  {
  }

  lemma RoundDoubles(c: Config, run: seq<Round>, times: map<RouteKey, R.Entry>, min: int, i: nat)
    requires Undisturbed(c, run, times, min) && i < |run| - 1 && run[i].now - min >= 1
    ensures run[i + 1].now - min >= 2 * (run[i].now - min)
    ensures run[i + 1].now == run[i].later + Length(PauseAfter(run[i], min)) && run[i].later == run[i].now
            ==> run[i + 1].now - min == 2 * (run[i].now - min)
  {
    assert run[i].after == times;
  }

  // Each round at least doubles the age of the oldest watched stamp.
  lemma {:induction false} AgeDoubles(c: Config, run: seq<Round>, times: map<RouteKey, R.Entry>, min: int, i: nat)
    requires Undisturbed(c, run, times, min) && i < |run| && run[0].now - min >= 1
    ensures run[i].now - min >= Pow2(i) * (run[0].now - min) >= 1
  {
    var a := run[0].now - min;
    if i > 0 {
      AgeDoubles(c, run, times, min, i - 1);
      RoundDoubles(c, run, times, min, i - 1);
      DoubleMul(Pow2(i - 1), a);
    }
  }

  /** With no activity, if n rounds in a row report nothing then 2^(n-1) times the first age is at
      most the longest threshold: at most log2 of it, plus one, rounds pass before a report. */
  lemma QuietRoundsAreFew(c: Config, run: seq<Round>, times: map<RouteKey, R.Entry>, min: int)
    requires c.Longest() > 0
    requires Undisturbed(c, run, times, min) && run != [] && run[0].now - min >= 1
    requires QuietRound(c, run[|run| - 1], min)
    ensures Pow2(|run| - 1) * (run[0].now - min) <= c.Longest()
    ensures Pow2(|run| - 1) <= c.Longest()
  {
    AgeDoubles(c, run, times, min, |run| - 1);
    SleepBound(c, run[|run| - 1], min);
    MulAtLeast(Pow2(|run| - 1), run[0].now - min);
  }

  // Clock and sleeps are exact: no time passes but in the sleeps.
  ghost predicate Exact(run: seq<Round>, min: int) {
    (forall i :: 0 <= i < |run| ==> run[i].later == run[i].now)
    && (forall i :: 0 <= i < |run| - 1 ==> run[i + 1].now == run[i].later + Length(PauseAfter(run[i], min)))
  }

  lemma {:induction false} ExactAge(c: Config, run: seq<Round>, times: map<RouteKey, R.Entry>, min: int, i: nat)
    requires Undisturbed(c, run, times, min) && Exact(run, min) && i < |run| && run[0].now - min >= 1
    ensures run[i].now - min == Pow2(i) * (run[0].now - min)
  {
    var a := run[0].now - min;
    if i > 0 {
      ExactAge(c, run, times, min, i - 1);
      AgeDoubles(c, run, times, min, i - 1);
      RoundDoubles(c, run, times, min, i - 1);
      DoubleMul(Pow2(i - 1), a);
    }
  }

  /** With one direction watched and exact sleeps the number of quiet rounds is exact: after i quiet
      ones the next is quiet if and only if 2^i times the first age has not passed the threshold. */
  lemma QuietIff(c: Config, run: seq<Round>, times: map<RouteKey, R.Entry>, min: int, dir: R.Direction)
    requires c.Watches(dir) && forall other :: c.Watches(other) ==> other == dir
    requires run != [] && Undisturbed(c, run, times, min) && Exact(run, min)
    requires IsMin(c, times, times.Keys, min) && run[0].now - min >= 1 && min < MAX_I64
    ensures QuietRound(c, run[|run| - 1], min) <==> Pow2(|run| - 1) * (run[0].now - min) <= c.Threshold(dir)
  {
    var r := run[|run| - 1];
    ExactAge(c, run, times, min, |run| - 1);
    var key, d :| key in times && c.Watches(d) && min == R.Stamp(times[key], d);
    assert d == dir;
    if r.now - min <= c.Threshold(dir) {
      forall k <- times
        ensures !IsIdle(c, times[k], r.now)
      {
        assert min <= R.Stamp(times[k], dir);
        assert forall other :: Overdue(c, times[k], other, r.now) ==> other == dir;
      }
    } else {
      assert Overdue(c, times[key], dir, r.now);
      assert IsIdle(c, times[key], r.now);
    }
  }
}

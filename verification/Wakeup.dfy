/**
 The idle thread's park and the two threads that must wake it: an add, which unparks after it has
 released the route lock, and close, which unparks after it has stored the status. The route tables
 move by the steps of RouteMachine; the parker is a one-bit token.
 */
module Wakeup {
  import opened Common
  import M = RouteMachine

  datatype Guard = Unheld | Stored | Waking  // close: status stored; idle thread unparked

  // Stopped: next_idle returned its error and the caller left its loop.
  datatype IdleState = Away | Scanning | Parking | Sleeping | Checking | Stopped

  datatype System = System(tables: M.Machine, token: bool, status: Status, guard: Guard, idle: IdleState)

  datatype Label =
    | Table(l: M.Label)
    | CloseStore | CloseUnpark | CloseEnd
    | SetNat(to: Status)
    | Call                 // the caller enters next_idle
    | Found                // next_idle returns an idle route
    | Decide(sleeps: bool) // end of a scan: park, sleep or go on without sleeping
    | TakeToken            // park or park_timeout returns on the token
    | Expire               // park_timeout runs out
    | Check                // status load, then return or rescan

  const INIT := System(M.INIT, false, Cone, Unheld, Away)

  predicate Enabled(s: System, l: Label) {
    match l
    case Table(tl) => M.Enabled(s.tables, tl)
    case CloseStore => s.guard.Unheld?
    case CloseUnpark => s.guard.Stored?
    case CloseEnd => s.guard.Waking?
    case SetNat(to) => s.guard.Unheld? && !s.status.Close? && !to.Close?
    case Call => s.idle.Away?
    case Found => s.idle.Scanning?
    case Decide(_) => s.idle.Scanning?
    case TakeToken => s.token && (s.idle.Parking? || s.idle.Sleeping?)
    case Expire => s.idle.Sleeping?
    case Check => s.idle.Checking?
  }

  function Do(s: System, l: Label): System
    requires Enabled(s, l)
  {
    match l
    case Table(tl) => s.(tables := M.Do(s.tables, tl), token := s.token || tl.Unpark?)
    case CloseStore => s.(status := Close, guard := Stored)
    case CloseUnpark => s.(token := true, guard := Waking)
    case CloseEnd => s.(guard := Unheld)
    case SetNat(to) => s.(status := to)
    case Call => s.(idle := Scanning)
    case Found => s.(idle := Away)
    case Decide(sleeps) =>
      s.(idle := if s.tables.index == map[] then Parking else if sleeps then Sleeping else Checking)
    case TakeToken => s.(token := false, idle := Checking)
    case Expire => s.(idle := Checking)
    case Check => s.(idle := if s.status.Close? then Stopped else Scanning)
  }

  predicate IdleStep(l: Label) {
    l.Call? || l.Found? || l.Decide? || l.TakeToken? || l.Expire? || l.Check?
  }

  ghost predicate Execution(run: seq<System>) {
    run != [] && run[0] == INIT
    && forall i :: 0 <= i < |run| - 1 ==> Next(run[i], run[i + 1])
  }

  ghost predicate Next(s: System, s': System) {
    exists l :: Enabled(s, l) && s' == Do(s, l)
  }

  // An add is between its insert into the time table and its unpark.
  predicate AddPending(m: M.Machine) {
    m.unparks > 0 || (m.holder.Ending? && m.holder.job.Adding?)
  }

  predicate Inv(s: System) {
    (s.idle.Parking? ==> s.token || s.tables.index == map[] || AddPending(s.tables))
    && (s.status.Close? ==> s.token || s.guard.Stored? || s.idle.Checking? || s.idle.Stopped?)
  }

  // A table step makes the time table non-empty only by leaving an add pending, and a pending add
  // stays pending until its unpark.
  lemma TableStep(m: M.Machine, l: M.Label)
    requires M.Enabled(m, l)
    requires m.index == map[] || AddPending(m)
    ensures M.Do(m, l).index == map[] || AddPending(M.Do(m, l)) || l.Unpark?
  {
    if l.Advance? && m.holder.Deleting? && m.index == map[] {
      assert m.index - {m.holder.prev} == map[];
    }
  }

  lemma StepInv(s: System, l: Label)
    requires Inv(s) && Enabled(s, l)
    ensures Inv(Do(s, l))
  {
    if l.Table? && (s.tables.index == map[] || AddPending(s.tables)) {
      TableStep(s.tables, l.l);
    }
  }

  lemma {:induction false} Reached(run: seq<System>, i: nat)
    requires Execution(run) && i < |run|
    ensures Inv(run[i])
  {
    if i > 0 {
      Reached(run, i - 1);
      assert Next(run[i - 1], run[i - 1 + 1]);
      var l :| Enabled(run[i - 1], l) && run[i] == Do(run[i - 1], l);
      StepInv(run[i - 1], l);
    }
  }

  // The idle thread cannot move by itself although it has not stopped.
  ghost predicate Blocked(s: System) {
    !s.idle.Stopped? && forall l :: IdleStep(l) ==> !Enabled(s, l)
  }

  /** No lost wakeup: whenever the idle thread is blocked, it is in the untimed park without a
      token, and then the time table is empty or an add is about to unpark it, and the channel is
      not closed or close is about to unpark it. With neither under way, a thread that is blocked is so
      for the right reason: nothing to watch and not closed. */
  lemma NoLostWakeup(run: seq<System>, i: nat)
    requires Execution(run) && i < |run|
    ensures Blocked(run[i]) <==> run[i].idle.Parking? && !run[i].token
    ensures Blocked(run[i]) ==> run[i].tables.index == map[] || AddPending(run[i].tables)
    ensures Blocked(run[i]) ==> !run[i].status.Close? || run[i].guard.Stored?
    ensures Blocked(run[i]) && !AddPending(run[i].tables) && run[i].guard.Unheld? ==>
              run[i].tables.index == map[] && !run[i].status.Close?
  {
    var s := run[i];
    Reached(run, i);
    if Blocked(s) {
      assert !Enabled(s, Call) && !Enabled(s, Found) && !Enabled(s, Check);
      assert !Enabled(s, Expire) && !Enabled(s, TakeToken);
    }
  }

  /** Step by step: the token is set by every unpark and taken by a park that returns on it; the idle
      thread parks without a limit exactly when its scan finds the table empty, sleeps only when it does
      not, leaves the park only on a token, and stops exactly when it checks a closed status. */
  lemma IdleSteps(s: System, l: Label)
    requires Enabled(s, l)
    ensures Do(s, l).token <==> l.CloseUnpark? || (l.Table? && l.l.Unpark?) || (s.token && !l.TakeToken?)
    ensures Do(s, l).idle.Parking? <==>
            (s.idle.Parking? && !l.TakeToken?) || (l.Decide? && s.tables.index == map[])
    ensures Do(s, l).idle.Sleeping? <==>
            (s.idle.Sleeping? && !l.TakeToken? && !l.Expire?) || (l.Decide? && s.tables.index != map[] && l.sleeps)
    ensures l.TakeToken? ==> s.token && (s.idle.Parking? || s.idle.Sleeping?)
    ensures l.Check? ==> Do(s, l).idle == if s.status.Close? then Stopped else Scanning
    ensures Do(s, l).idle.Stopped? ==> s.idle.Stopped? || (l.Check? && s.status.Close?)
    ensures s.idle.Stopped? ==> Do(s, l).idle.Stopped?
    ensures l.Call? ==> Do(s, l).idle.Scanning?
    ensures l.Found? ==> Do(s, l).idle.Away?
    ensures l.TakeToken? || l.Expire? ==> Do(s, l).idle.Checking?
    ensures !IdleStep(l) ==> Do(s, l).idle == s.idle
    ensures l.SetNat? ==> Do(s, l).status == l.to
    ensures Do(s, l).status.Close? <==> s.status.Close? || l.CloseStore?
  {
  }

  /** A thread that has stopped has seen a close, and the channel stays closed. */
  lemma {:induction false} StoppedMeansClosed(run: seq<System>, i: nat)
    requires Execution(run) && i < |run|
    ensures run[i].idle.Stopped? ==> run[i].status.Close?
  {
    if i > 0 {
      StoppedMeansClosed(run, i - 1);
      assert Next(run[i - 1], run[i - 1 + 1]);
      var l :| Enabled(run[i - 1], l) && run[i] == Do(run[i - 1], l);
      IdleSteps(run[i - 1], l);
    }
  }

  // The system's tables move only by steps of the table machine.
  lemma {:induction false} TablesReached(run: seq<System>, i: nat)
    requires Execution(run) && i < |run|
    ensures M.Inv(run[i].tables)
  {
    if i == 0 {
      M.Reached([M.INIT], 0);
    } else {
      TablesReached(run, i - 1);
      assert Next(run[i - 1], run[i - 1 + 1]);
      var l :| Enabled(run[i - 1], l) && run[i] == Do(run[i - 1], l);
      if l.Table? {
        M.StepInv(run[i - 1].tables, l.l);
      }
    }
  }

  /** When the blocked thread is justified, no id has a route at all. */
  lemma QuietBlockHasNoRoutes(run: seq<System>, i: nat)
    requires Execution(run) && i < |run| && Blocked(run[i])
    requires !AddPending(run[i].tables) && run[i].guard.Unheld? && run[i].tables.holder.Free?
    ensures run[i].tables.routes == map[]
  {
    NoLostWakeup(run, i);
    TablesReached(run, i);
    var m := run[i].tables;
    M.Agreement(m);
    forall id
      ensures id !in m.routes
    {
      assert M.B.AgreeOn(M.B.Shape(M.Bound(m), M.Lists(m)), id);
      assert forall key :: !M.B.OnList(M.Lists(m), id, key);
      assert id in m.routes ==> M.B.BoundTo(M.Bound(m), id, m.routes[id].Key());
    }
  }
}

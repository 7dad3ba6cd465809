/**
 Any number of channel clones around one status, one shared socket list and one waker registry.
 A status change stores the status and then wakes the registered clones one after another while it
 holds the registry; change loads the status in one step and acts on the list in a later one. A wake
 and every system call of a change may fail.
 */
module Clones {
  import opened Common
  import opened Sockets
  import B = Bindings

  // Born: flag taken, waker not yet registered. Building: registered, still inside try_clone.
  datatype Phase = Born | Building | Live

  // A change under way: the status it loaded, and whether no status was stored since.
  datatype Loaded = Idle | Loaded(status: Status, current: bool)

  // What became of the clone's wake since the last status store. Missed: an earlier wake failed, and
  // the loop over the registry stopped there.
  datatype Call = Uncalled | Woken | Missed

  // stale: a status was stored since the clone last completed a change that had loaded after it.
  // event: a change event waits to be handled. told: since the last status store a change loaded and
  // failed, and the receive loop returned its error.
  datatype Replica = Replica(own: seq<nat>, phase: Phase, loading: Loaded,
                         stale: bool, call: Call, event: bool, told: bool)

  datatype Guard = Unheld | Waking(rest: seq<nat>)

  datatype State = State(size: nat, status: Status, pool: Pool, flagGen: nat, wakers: seq<nat>,
                         guard: Guard, clones: map<nat, Replica>)

  datatype Label =
    | TakeFlag
    | Register(flag: nat)
    | Load(flag: nat)
    | Act(flag: nat, supply: Supply)
    | Lose(flag: nat)        // a data return drops the rest of a batch, the change event with it
    | Store(to: Status)      // set_nat_type to the other type, or close
    | Wake
    | WakeFails              // the store's caller gets an error, and no further clone is woken
    | Release
    | Drop(flag: nat)

  function Init(size: nat): State {
    State(size, Cone, Pool([], 0), 1, [0], Unheld, map[0 := Replica([], Live, Idle, false, Uncalled, false, false)])
  }

  predicate Enabled(s: State, l: Label) {
    match l
    case TakeFlag => true
    case Register(f) => f in s.clones && s.clones[f].phase.Born? && s.guard.Unheld?
    case Load(f) => f in s.clones && s.clones[f].loading.Idle?
                    && (s.clones[f].phase.Building? || (s.clones[f].phase.Live? && s.clones[f].event))
    case Act(f, _) => f in s.clones && s.clones[f].loading.Loaded?
    case Lose(f) => f in s.clones && s.clones[f].phase.Live? && s.clones[f].event
    case Store(to) => s.guard.Unheld? && (to.Close? || (!s.status.Close? && to != s.status))
    case Wake => s.guard.Waking? && s.guard.rest != []
    case WakeFails => s.guard.Waking? && s.guard.rest != []
    case Release => s.guard == Waking([])
    case Drop(f) => f in s.clones && s.clones[f].phase.Live? && s.clones[f].loading.Idle? && s.guard.Unheld?
  }

  function Outdate(c: Replica): Replica {
    c.(stale := true, call := Uncalled, told := false,
       loading := if c.loading.Loaded? then c.loading.(current := false) else Idle)
  }

  // The effect of a change on the clone that runs it.
  function Acted(c: Replica, pool: Pool, size: nat, supply: Supply): Replica
    requires c.loading.Loaded?
  {
    var fails := Fails(c.loading.status, pool, size, supply);
    c.(own := OwnAfter(c.loading.status, pool, c.own, size, supply), phase := Live, loading := Idle,
       stale := c.stale && (!c.loading.current || fails), told := if c.loading.current then fails else c.told)
  }

  function Do(s: State, l: Label): State
    requires Enabled(s, l)
  {
    match l
    case TakeFlag =>
      s.(flagGen := s.flagGen + 1,
         clones := s.clones[s.flagGen := Replica([], Born, Idle, true, Uncalled, false, false)])
    case Register(f) =>
      s.(wakers := s.wakers + [f], clones := s.clones[f := s.clones[f].(phase := Building)])
    case Load(f) =>
      s.(clones := s.clones[f := s.clones[f].(loading := Loaded(s.status, true),
                                               event := s.clones[f].event && s.clones[f].phase.Building?)])
    case Act(f, supply) =>
      var c := s.clones[f];
      s.(pool := PoolAfter(c.loading.status, s.pool, s.size, supply),
         clones := if c.phase.Building? && Fails(c.loading.status, s.pool, s.size, supply)
                   then s.clones - {f}  // try_clone fails; its waker stays in the list
                   else s.clones[f := Acted(c, s.pool, s.size, supply)])
    case Lose(f) => s.(clones := s.clones[f := s.clones[f].(event := false)])
    case Store(to) =>
      s.(status := to, guard := Waking(s.wakers), clones := map f | f in s.clones :: Outdate(s.clones[f]))
    case Wake =>
      var f := s.guard.rest[0];
      s.(guard := Waking(s.guard.rest[1..]),
         clones := if f in s.clones then s.clones[f := s.clones[f].(call := Woken, event := true)] else s.clones)
    case WakeFails =>
      s.(guard := Unheld,
         clones := map f | f in s.clones ::
                     if f in s.guard.rest then s.clones[f].(call := Missed) else s.clones[f])
    case Release => s.(guard := Unheld)
    case Drop(f) => s.(wakers := B.Retain(s.wakers, f), clones := s.clones - {f})
  }

  // What a step means for one clone and for what the clones share.

  lemma StoreSpelled(s: State, to: Status, f: nat)
    requires Enabled(s, Store(to)) && f in s.clones
    ensures var s' := Do(s, Store(to));
            && s'.status == to && s'.guard == Waking(s.wakers) && s'.pool == s.pool && s'.wakers == s.wakers
            && f in s'.clones && s'.clones[f].stale && !s'.clones[f].told && s'.clones[f].call.Uncalled?
            && !(s'.clones[f].loading.Loaded? && s'.clones[f].loading.current)
            && (s'.clones[f].loading.Loaded? <==> s.clones[f].loading.Loaded?)
            && s'.clones[f].event == s.clones[f].event && s'.clones[f].own == s.clones[f].own
  {
  }

  lemma WakeSpelled(s: State, l: Label, f: nat)
    requires (l.Wake? || l.WakeFails?) && Enabled(s, l) && f in s.clones
    ensures Do(s, l).status == s.status && Do(s, l).pool == s.pool && Do(s, l).wakers == s.wakers
    ensures Do(s, l).guard == if l.Wake? then Waking(s.guard.rest[1..]) else Unheld
    ensures f in Do(s, l).clones
    ensures Do(s, l).clones[f] == if l.Wake? && f == s.guard.rest[0]
                                  then s.clones[f].(call := Woken, event := true)
                                  else if l.WakeFails? && f in s.guard.rest then s.clones[f].(call := Missed)
                                  else s.clones[f]
  {
  }

  /** A change in its two steps: the first reads the present status and takes the event of a live clone; the
      second does what that status says, ends a clone still being made if it fails, and otherwise leaves
      the clone live, no longer stale if no status was stored in between and nothing failed. */
  lemma ChangeSpelled(s: State, f: nat, supply: Supply)
    ensures Enabled(s, Load(f)) ==>
              Do(s, Load(f)).clones[f].loading == Loaded(s.status, true)
              && (Do(s, Load(f)).clones[f].event <==> s.clones[f].event && s.clones[f].phase.Building?)
    ensures Enabled(s, Act(f, supply)) ==>
              var c, s' := s.clones[f], Do(s, Act(f, supply));
              var fails := Fails(c.loading.status, s.pool, s.size, supply);
              && s'.pool == PoolAfter(c.loading.status, s.pool, s.size, supply) && s'.wakers == s.wakers
              && (f !in s'.clones <==> c.phase.Building? && fails)
              && (f in s'.clones ==>
                    && s'.clones[f].phase.Live? && s'.clones[f].loading.Idle? && s'.clones[f].event == c.event
                    && s'.clones[f].own == OwnAfter(c.loading.status, s.pool, c.own, s.size, supply)
                    && (s'.clones[f].stale <==> c.stale && (!c.loading.current || fails))
                    && (s'.clones[f].told <==> if c.loading.current then fails else c.told))
  {
  }

  /** Dropping a clone takes its flag out of the registry and leaves the others in their order. */
  lemma DropSpelled(s: State, f: nat)
    requires Enabled(s, Drop(f))
    ensures f !in Do(s, Drop(f)).clones && f !in Do(s, Drop(f)).wakers
    ensures Do(s, Drop(f)).wakers == B.Retain(s.wakers, f)
    ensures forall g <- s.clones :: g != f ==> g in Do(s, Drop(f)).clones && Do(s, Drop(f)).clones[g] == s.clones[g]
  {
    B.RetainMembers(s.wakers, f);
  }

  // The state after a sequence of steps, if each was enabled in its turn.
  function After(size: nat, steps: seq<Label>): Option<State> {
    if steps == [] then Some(Init(size))
    else
      match After(size, B.Front(steps))
      case None => None
      case Some(s) => if Enabled(s, B.Last(steps)) then Some(Do(s, B.Last(steps))) else None
  }

  // Registry

  // A wake for the clone has been issued, or will be by the holder of the registry, or fell out.
  predicate Notified(s: State, f: nat, c: Replica) {
    !c.call.Uncalled? || (s.guard.Waking? && f in s.guard.rest)
  }

  ghost predicate CloneOk(s: State, f: nat, c: Replica) {
    f < s.flagGen
    && (c.phase.Born? <==> f !in s.wakers)
    && (c.phase.Live? && c.stale ==> Notified(s, f, c))
    && (!c.phase.Live? ==> c.stale)
    && (c.phase.Born? ==> c.loading.Idle?)
    && (c.loading.Loaded? && c.loading.current ==> c.loading.status == s.status)
    && (c.loading.Loaded? && !c.loading.current ==> c.stale && Notified(s, f, c))
    && (s.status.Close? ==> c.stale)
  }

  ghost predicate Registry(s: State) {
    B.Distinct(s.wakers) && (forall f <- s.wakers :: f < s.flagGen)
    && (forall f <- s.clones :: CloneOk(s, f, s.clones[f]))
  }

  // Steps that change one clone and neither the registry nor who is still to be woken.
  lemma OneClone(s: State, s': State, f: nat)
    requires Registry(s) && f in s'.clones && CloneOk(s', f, s'.clones[f])
    requires s'.status == s.status && s'.guard == s.guard && s'.wakers == s.wakers && s'.flagGen == s.flagGen
    requires s'.clones.Keys == s.clones.Keys
    requires forall g <- s.clones :: g != f ==> s'.clones[g] == s.clones[g]
    ensures Registry(s')
  {
    forall g <- s'.clones
      ensures CloneOk(s', g, s'.clones[g])
    {
      assert CloneOk(s, g, s.clones[g]);
    }
  }

  lemma MembershipStep(s: State, l: Label)
    requires Registry(s) && Enabled(s, l) && (l.TakeFlag? || l.Register? || l.Drop?)
    ensures Registry(Do(s, l))
  {
    var s' := Do(s, l);
    if l.Drop? {
      B.RetainMembers(s.wakers, l.flag);
    }
    assert forall i :: 0 <= i < |s.wakers| ==> s.wakers[i] in s.wakers;
    forall g <- s'.clones
      ensures CloneOk(s', g, s'.clones[g])
    {
      assert g in s.clones ==> CloneOk(s, g, s.clones[g]);
    }
  }

  lemma WakingStep(s: State, l: Label)
    requires Registry(s) && Enabled(s, l) && (l.Store? || l.Wake? || l.WakeFails? || l.Release?)
    ensures Registry(Do(s, l))
  {
    var s' := Do(s, l);
    if l.Wake? {
      assert forall f <- s.guard.rest :: f == s.guard.rest[0] || f in s.guard.rest[1..];
    }
    forall g <- s'.clones
      ensures CloneOk(s', g, s'.clones[g])
    {
      assert CloneOk(s, g, s.clones[g]);
    }
  }

  lemma ChangeStep(s: State, l: Label)
    requires Registry(s) && Enabled(s, l) && (l.Load? || l.Act? || l.Lose?)
    ensures Registry(Do(s, l))
  {
    var s' := Do(s, l);
    assert CloneOk(s, l.flag, s.clones[l.flag]);
    if l.flag in s'.clones {
      OneClone(s, s', l.flag);
    } else {
      forall g <- s'.clones
        ensures CloneOk(s', g, s'.clones[g])
      {
        assert CloneOk(s, g, s.clones[g]);
      }
    }
  }

  lemma RegistryStep(s: State, l: Label)
    requires Registry(s) && Enabled(s, l)
    ensures Registry(Do(s, l))
    ensures s.status.Close? ==> Do(s, l).status.Close?
  {
    if l.TakeFlag? || l.Register? || l.Drop? {
      MembershipStep(s, l);
    } else if l.Store? || l.Wake? || l.WakeFails? || l.Release? {
      WakingStep(s, l);
    } else {
      ChangeStep(s, l);
    }
  }

  lemma {:induction false} RegistryHolds(size: nat, steps: seq<Label>)
    requires After(size, steps).Some?
    ensures Registry(After(size, steps).value)
  {
    if steps != [] {
      RegistryHolds(size, B.Front(steps));
      RegistryStep(After(size, B.Front(steps)).value, B.Last(steps));
    }
  }

  lemma {:induction false} MissedOnlyByFailure(size: nat, steps: seq<Label>)
    requires After(size, steps).Some? && forall l <- steps :: !l.WakeFails?
    ensures forall f <- After(size, steps).value.clones :: !After(size, steps).value.clones[f].call.Missed?
  {
    if steps != [] {
      assert forall l <- B.Front(steps) :: l in steps;
      assert B.Last(steps) in steps;
      MissedOnlyByFailure(size, B.Front(steps));
    }
  }

  /** Over every run the waker flags are distinct, every clone that has registered and not been
      dropped is in the list, and a live stale clone has been woken since the last status store, is
      still to be woken by the thread holding the registry, or was left out because a wake failed. */
  lemma RegistryAlways(size: nat, steps: seq<Label>, f: nat)
    requires After(size, steps).Some? && f in After(size, steps).value.clones
    ensures B.Distinct(After(size, steps).value.wakers)
    ensures !After(size, steps).value.clones[f].phase.Born? <==> f in After(size, steps).value.wakers
    ensures var s := After(size, steps).value;
            s.clones[f].phase.Live? && s.clones[f].stale ==> Notified(s, f, s.clones[f])
    ensures (forall l <- steps :: !l.WakeFails?) ==> !After(size, steps).value.clones[f].call.Missed?
  {
    RegistryHolds(size, steps);
    assert CloneOk(After(size, steps).value, f, After(size, steps).value.clones[f]);
    if forall l <- steps :: !l.WakeFails? {
      MissedOnlyByFailure(size, steps);
    }
  }

  predicate Gone(s: State, f: nat) {
    f < s.flagGen && f !in s.clones && f !in s.wakers
  }

  /** A dropped clone is gone for good: whatever follows, its flag is neither registered nor given again. */
  lemma {:induction false} DroppedForGood(size: nat, steps: seq<Label>, f: nat, more: seq<Label>)
    requires After(size, steps + [Drop(f)] + more).Some?
    ensures Gone(After(size, steps + [Drop(f)] + more).value, f)
  {
    if more == [] {
      assert steps + [Drop(f)] + more == steps + [Drop(f)] && B.Front(steps + [Drop(f)]) == steps;
      RegistryHolds(size, steps);
      var s := After(size, steps).value;
      assert CloneOk(s, f, s.clones[f]);
      DropSpelled(s, f);
    } else {
      var before := steps + [Drop(f)] + B.Front(more);
      assert B.Front(steps + [Drop(f)] + more) == before;
      DroppedForGood(size, steps, f, B.Front(more));
      GoneStep(After(size, before).value, B.Last(more), f);
    }
  }

  lemma GoneStep(s: State, l: Label, f: nat)
    requires Enabled(s, l) && Gone(s, f)
    ensures Gone(Do(s, l), f)
  {
    if l.Drop? {
      B.RetainMembers(s.wakers, l.flag);
    }
  }

  /** Once closed, always closed. */
  lemma {:induction false} CloseIsFinal(size: nat, steps: seq<Label>, more: seq<Label>)
    requires After(size, steps).Some? && After(size, steps).value.status.Close?
    requires After(size, steps + more).Some?
    ensures After(size, steps + more).value.status.Close?
  {
    if more == [] {
      assert steps + more == steps;
    } else {
      assert B.Front(steps + more) == steps + B.Front(more);
      CloseIsFinal(size, steps, B.Front(more));
      RegistryHolds(size, steps + B.Front(more));
      RegistryStep(After(size, steps + B.Front(more)).value, B.Last(more));
    }
  }

  // The socket mirror

  // The clone has completed a change since the last status store and none has failed since.
  predicate UpToDate(c: Replica) {
    !c.stale && !c.told
  }

  // An up-to-date clone mirrors the shared list.
  predicate Mirrors(s: State, c: Replica) {
    UpToDate(c) ==>
      match s.status
      case Cone => c.own == [] && s.pool.list == []
      case Symmetric => c.own == s.pool.list && (s.pool.list != [] || s.size == 0)
      case Close => false
  }

  ghost predicate Mirror(s: State) {
    |s.pool.list| <= s.size && forall f <- s.clones :: Mirrors(s, s.clones[f])
  }

  /** The one harmful step: a change acts on a status that is no longer the present one while some
      clone is up to date, and changes the list. */
  ghost predicate Disturbs(s: State, l: Label) {
    l.Act? && l.flag in s.clones && s.clones[l.flag].loading.Loaded?
    && !s.clones[l.flag].loading.status.Close? && s.clones[l.flag].loading.status != s.status
    && s.size > 0 && (s.status.Cone? ==> l.supply.binds > 0)
    && exists g :: g in s.clones && UpToDate(s.clones[g])
  }

  lemma ActMirror(s: State, f: nat, supply: Supply)
    requires Registry(s) && Mirror(s) && Enabled(s, Act(f, supply))
    ensures Mirror(Do(s, Act(f, supply))) <==> !Disturbs(s, Act(f, supply))
  {
    var c := s.clones[f];
    var s' := Do(s, Act(f, supply));
    assert CloneOk(s, f, c);
    if Disturbs(s, Act(f, supply)) {
      var g :| g in s.clones && UpToDate(s.clones[g]);
      assert CloneOk(s, g, s.clones[g]);
      assert Mirrors(s, s.clones[g]) && g in s'.clones && s'.clones[g] == s.clones[g];
      assert !Mirrors(s', s'.clones[g]);
    } else {
      if !Fails(c.loading.status, s.pool, s.size, supply) {
        ChangeMirrors(c.loading.status, s.pool, c.own, s.size, supply);
      }
      assert s.pool.list == [] && c.loading.status.Symmetric? ==> |s'.pool.list| == Fewer(s.size, supply.binds);
      forall g <- s'.clones
        ensures Mirrors(s', s'.clones[g])
      {
        assert Mirrors(s, s.clones[g]) && CloneOk(s, g, s.clones[g]);
      }
    }
  }

  /** A step keeps the mirror if and only if it is not that step. */
  lemma MirrorStep(s: State, l: Label)
    requires Registry(s) && Mirror(s) && Enabled(s, l)
    ensures Mirror(Do(s, l)) <==> !Disturbs(s, l)
  {
    if l.Act? {
      ActMirror(s, l.flag, l.supply);
    } else {
      var s' := Do(s, l);
      forall g <- s'.clones
        ensures Mirrors(s', s'.clones[g])
      {
        assert g in s.clones ==> Mirrors(s, s.clones[g]) && CloneOk(s, g, s.clones[g]);
      }
    }
  }

  ghost predicate Smooth(size: nat, steps: seq<Label>) {
    forall i :: 0 <= i < |steps| && After(size, steps[..i]).Some? ==> !Disturbs(After(size, steps[..i]).value, steps[i])
  }

  lemma {:induction false} MirrorWhileSmooth(size: nat, steps: seq<Label>)
    requires After(size, steps).Some? && Smooth(size, steps)
    ensures Mirror(After(size, steps).value)
  {
    if steps != [] {
      var f := B.Front(steps);
      assert forall i :: 0 <= i <= |f| ==> steps[..i] == f[..i];
      assert f[..|f|] == f;
      MirrorWhileSmooth(size, f);
      RegistryHolds(size, f);
      MirrorStep(After(size, f).value, B.Last(steps));
    }
  }

  // Each change acts in the step after the one that loaded the status.
  predicate OneStepChanges(steps: seq<Label>) {
    forall i :: 0 <= i < |steps| && steps[i].Act? ==> i > 0 && steps[i - 1] == Load(steps[i].flag)
  }

  /** Socket mirror: when change is one step, in every run a clone that has completed a change since
      the last status store has the shared list index by index, of full length when symmetric, unless
      a bind failed, and empty when a cone. So a sender, which goes by the shared list, answers on the
      socket the clone received on. */
  lemma MirrorAlways(size: nat, steps: seq<Label>, f: nat)
    requires OneStepChanges(steps) && After(size, steps).Some?
    requires f in After(size, steps).value.clones && UpToDate(After(size, steps).value.clones[f])
    ensures var s := After(size, steps).value;
            && !s.status.Close? && s.clones[f].own == s.pool.list
            && (s.status.Cone? ==> s.pool.list == [])
            && (s.status.Symmetric? ==> (s.pool.list == [] <==> size == 0) && |s.pool.list| <= size)
            && (s.status.Symmetric? && Supplied(size, steps) ==> |s.pool.list| == size)
            && (size <= 100_000 ==> RepliesReach(s.clones[f].own, s.pool.list))
  {
    forall i | 0 <= i < |steps| && After(size, steps[..i]).Some?
      ensures !Disturbs(After(size, steps[..i]).value, steps[i])
    {
      if steps[i].Act? {
        var before := steps[..i];
        assert B.Front(before) == steps[..i - 1] && B.Last(before) == Load(steps[i].flag);
      }
    }
    MirrorWhileSmooth(size, steps);
    ListSizes(size, steps);
    var s := After(size, steps).value;
    assert Mirrors(s, s.clones[f]);
    ReplyIff(s.pool.list);
  }

  // No bind and no duplication of a handle fails.
  ghost predicate Supplied(size: nat, steps: seq<Label>) {
    forall l <- steps :: l.Act? ==> l.supply.binds >= size && l.supply.handles >= size
  }

  ghost predicate ListsFit(s: State, size: nat) {
    s.size == size && |s.pool.list| <= size && forall f <- s.clones :: |s.clones[f].own| <= size
  }

  ghost predicate ListsFull(s: State, size: nat) {
    |s.pool.list| in {0, size} && forall f <- s.clones :: |s.clones[f].own| in {0, size}
  }

  lemma ListsStep(s: State, l: Label, size: nat)
    requires ListsFit(s, size) && Enabled(s, l)
    ensures ListsFit(Do(s, l), size)
    ensures ListsFull(s, size) && (l.Act? ==> l.supply.binds >= size && l.supply.handles >= size) ==>
              ListsFull(Do(s, l), size)
  {
  }

  /** Over every run the shared list and every clone's own list, up to date or not, have at most size
      sockets, and none or exactly size when no bind or duplication fails; so with a size of at most
      100000 every clone can answer on the socket it received on. */
  lemma {:induction false} ListSizes(size: nat, steps: seq<Label>)
    requires After(size, steps).Some?
    ensures ListsFit(After(size, steps).value, size)
    ensures Supplied(size, steps) ==> ListsFull(After(size, steps).value, size)
    ensures size <= 100_000 ==>
              forall f <- After(size, steps).value.clones ::
                RepliesReach(After(size, steps).value.clones[f].own, After(size, steps).value.clones[f].own)
  {
    if steps != [] {
      assert forall l <- B.Front(steps) :: l in steps;
      assert B.Last(steps) in steps;
      ListSizes(size, B.Front(steps));
      ListsStep(After(size, B.Front(steps)).value, B.Last(steps), size);
    }
    var s := After(size, steps).value;
    forall f <- s.clones
      ensures size <= 100_000 ==> RepliesReach(s.clones[f].own, s.clones[f].own)
    {
      ReplyIff(s.clones[f].own);
    }
  }

  /** The reply rule holds of every clone in every run if and only if size is at most 100000. */
  lemma RepliesIff(size: nat)
    ensures size <= 100_000 <==>
            forall steps, f :: After(size, steps).Some? && f in After(size, steps).value.clones ==>
              RepliesReach(After(size, steps).value.clones[f].own, After(size, steps).value.clones[f].own)
  {
    if size > 100_000 {
      var steps, s := FirstSockets(size);
      ReplyIff(s.clones[0].own);
      assert After(size, steps).Some? && 0 in After(size, steps).value.clones;
    } else {
      forall steps, f | After(size, steps).Some? && f in After(size, steps).value.clones
        ensures RepliesReach(After(size, steps).value.clones[f].own, After(size, steps).value.clones[f].own)
      {
        ListSizes(size, steps);
      }
    }
  }

  /** The list moves only by a change to cone that empties it, or a change to symmetric that finds it
      empty and binds at least one socket: a list left short by a failed bind is never filled up. */
  lemma ListMovesIff(s: State, l: Label)
    requires Enabled(s, l)
    ensures Do(s, l).pool.list != s.pool.list <==>
            l.Act? && match s.clones[l.flag].loading.status
                      case Cone => s.pool.list != []
                      case Symmetric => s.pool.list == [] && s.size > 0 && l.supply.binds > 0
                      case Close => false
  {
    if l.Act? && s.clones[l.flag].loading.status.Symmetric? && s.pool.list == [] {
      assert |Do(s, l).pool.list| == Fewer(s.size, l.supply.binds);
    }
  }

  // In these further steps no change acts on a cone status.
  ghost predicate NoCone(size: nat, steps: seq<Label>, more: seq<Label>) {
    forall i :: 0 <= i < |more| && more[i].Act? ==> !ActsOnCone(After(size, steps + more[..i]), more[i].flag)
  }

  predicate ActsOnCone(s: Option<State>, f: nat) {
    s.Some? && f in s.value.clones && s.value.clones[f].loading.Loaded? && s.value.clones[f].loading.status.Cone?
  }

  lemma {:induction false} ListKept(size: nat, steps: seq<Label>, more: seq<Label>)
    requires After(size, steps).Some? && After(size, steps + more).Some? && NoCone(size, steps, more)
    requires After(size, steps).value.pool.list != []
    ensures After(size, steps + more).value.pool.list == After(size, steps).value.pool.list
  {
    if more == [] {
      assert steps + more == steps;
    } else {
      var f := B.Front(more);
      assert B.Front(steps + more) == steps + f;
      assert forall i :: 0 <= i <= |f| ==> f[..i] == more[..i];
      assert f == more[..|f|];
      ListKept(size, steps, f);
      ListMovesIff(After(size, steps + f).value, B.Last(more));
    }
  }

  // The change finds the list empty and binds some sockets, but not all.
  predicate FallsShort(s: State, l: Label) {
    l.Act? && l.flag in s.clones && s.clones[l.flag].loading.Loaded? && s.clones[l.flag].loading.status.Symmetric?
    && s.pool.list == [] && 0 < l.supply.binds < s.size
  }

  predicate IsShort(s: State) {
    0 < |s.pool.list| < s.size
  }

  // A step leaves the list short exactly if it falls short, or finds it so and does not act on cone.
  lemma ShortStep(s: State, l: Label)
    requires Enabled(s, l) && |s.pool.list| <= s.size
    ensures IsShort(Do(s, l)) <==>
            FallsShort(s, l) || (IsShort(s) && !(l.Act? && ActsOnCone(Some(s), l.flag)))
  {
    if l.Act? && s.clones[l.flag].loading.status.Symmetric? && s.pool.list == [] {
      assert |Do(s, l).pool.list| == Fewer(s.size, l.supply.binds);
    }
  }

  // The i-th step fell short, and no change has acted on cone since.
  ghost predicate FellShortAt(size: nat, steps: seq<Label>, i: nat) {
    i < |steps| && After(size, steps[..i]).Some? && FallsShort(After(size, steps[..i]).value, steps[i])
    && forall j :: i < j < |steps| && steps[j].Act? ==> !ActsOnCone(After(size, steps[..j]), steps[j].flag)
  }

  /** Over every run the shared list has some but not all of its sockets if and only if some change found
      it empty and bound only a part of them, and no change has acted on a cone status since. */
  lemma {:induction false} ShortIff(size: nat, steps: seq<Label>)
    requires After(size, steps).Some?
    ensures IsShort(After(size, steps).value) <==> exists i: nat :: FellShortAt(size, steps, i)
  {
    if steps != [] {
      var f := B.Front(steps);
      ShortIff(size, f);
      ListSizes(size, f);
      ShortStep(After(size, f).value, B.Last(steps));
      FellShortStep(size, steps);
    }
  }

  lemma FellShortStep(size: nat, steps: seq<Label>)
    requires steps != [] && After(size, B.Front(steps)).Some?
    ensures (exists i: nat :: FellShortAt(size, steps, i)) <==>
            FallsShort(After(size, B.Front(steps)).value, B.Last(steps))
            || ((B.Last(steps).Act? ==> !ActsOnCone(After(size, B.Front(steps)), B.Last(steps).flag))
                && exists i: nat :: FellShortAt(size, B.Front(steps), i))
  {
    var f := B.Front(steps);
    assert steps[..|f|] == f && forall i :: 0 <= i <= |f| ==> steps[..i] == f[..i];
    assert forall i: nat :: i < |f| ==>
      (FellShortAt(size, steps, i) <==>
       FellShortAt(size, f, i) && (B.Last(steps).Act? ==> !ActsOnCone(After(size, f), B.Last(steps).flag)));
    if FallsShort(After(size, f).value, B.Last(steps)) {
      assert FellShortAt(size, steps, |f|);
    }
  }

  // Wakes that are not lost

  // The clone has a change to come by an event or one under way, or its caller has an error.
  predicate Pends(c: Replica) {
    c.told || c.event || (c.loading.Loaded? && c.loading.current)
  }

  predicate WillChange(s: State, f: nat, c: Replica) {
    Pends(c) || (s.guard.Waking? && f in s.guard.rest)
  }

  // A change under way with a status that is no longer the last one stored.
  predicate Outdated(c: Replica) {
    c.loading.Loaded? && !c.loading.current
  }

  predicate Needs(c: Replica) {
    (c.phase.Live? && c.stale) || Outdated(c)
  }

  ghost predicate NoneForgotten(s: State) {
    forall f <- s.clones :: Needs(s.clones[f]) ==> WillChange(s, f, s.clones[f])
  }

  // The last event of a stale clone goes unhandled, or a wake fails before the turn of one that has
  // none: nothing else will bring it up to date.
  ghost predicate Forgets(s: State, l: Label) {
    match l
    case Lose(f) =>
      f in s.clones && s.clones[f].stale && !s.clones[f].told
      && !(s.clones[f].loading.Loaded? && s.clones[f].loading.current)
      && !(s.guard.Waking? && f in s.guard.rest)
    case WakeFails =>
      s.guard.Waking? && exists f <- s.guard.rest ::
        f in s.clones && s.clones[f].stale && !s.clones[f].told && !s.clones[f].event
        && (s.clones[f].phase.Live? || s.clones[f].loading.Loaded?)
        && !(s.clones[f].loading.Loaded? && s.clones[f].loading.current)
    case _ => false
  }

  /** A step leaves some stale clone with no change to come if and only if a data return drops the
      last change event of one, or a wake fails before one is woken. */
  lemma ForgottenIff(s: State, l: Label)
    requires Registry(s) && NoneForgotten(s) && Enabled(s, l)
    ensures NoneForgotten(Do(s, l)) <==> !Forgets(s, l)
  {
    if l.WakeFails? {
      WakeFailsForgets(s);
    } else {
      var s' := Do(s, l);
      if l.Wake? {
        assert forall f <- s.guard.rest :: f == s.guard.rest[0] || f in s.guard.rest[1..];
      }
      if Forgets(s, l) {
        assert !WillChange(s', l.flag, s'.clones[l.flag]);
      } else {
        forall g | g in s'.clones && Needs(s'.clones[g])
          ensures WillChange(s', g, s'.clones[g])
        {
          assert g in s.clones ==> CloneOk(s, g, s.clones[g]);
        }
      }
    }
  }

  lemma WakeFailsForgets(s: State)
    requires Registry(s) && NoneForgotten(s) && Enabled(s, WakeFails)
    ensures NoneForgotten(Do(s, WakeFails)) <==> !Forgets(s, WakeFails)
  {
    var s' := Do(s, WakeFails);
    forall f <- s.clones
      ensures Needs(s'.clones[f]) == Needs(s.clones[f]) && WillChange(s', f, s'.clones[f]) == Pends(s.clones[f])
    {
      assert CloneOk(s, f, s.clones[f]);
    }
    assert forall f <- s.clones :: CloneOk(s, f, s.clones[f]);
  }

  /** In a run that drops no event and in which no wake fails, every stale clone has a change to come
      or its caller an error. So after close the caller of each live clone has its error or gets it. */
  lemma {:induction false} NoneForgottenWithoutLoss(size: nat, steps: seq<Label>)
    requires After(size, steps).Some? && forall l <- steps :: !l.Lose? && !l.WakeFails?
    ensures NoneForgotten(After(size, steps).value)
    ensures var s := After(size, steps).value;
            s.status.Close? ==> forall f <- s.clones :: s.clones[f].phase.Live? ==> WillChange(s, f, s.clones[f])
  {
    if steps != [] {
      var f := B.Front(steps);
      assert forall l <- f :: l in steps;
      NoneForgottenWithoutLoss(size, f);
      RegistryHolds(size, f);
      assert B.Last(steps) in steps;
      ForgottenIff(After(size, f).value, B.Last(steps));
    }
    RegistryHolds(size, steps);
    var s := After(size, steps).value;
    assert forall f <- s.clones :: CloneOk(s, f, s.clones[f]);
  }

  // Witnesses

  lemma Extend(size: nat, steps: seq<Label>, s: State, l: Label)
    requires After(size, steps) == Some(s) && Enabled(s, l)
    ensures After(size, steps + [l]) == Some(Do(s, l))
  {
    assert B.Front(steps + [l]) == steps;
  }

  // The run leaves the first clone stale under that status, on no socket of its own and not told of a
  // close, with nothing pending that would ever make it run change.
  ghost predicate LeftBehind(size: nat, to: Status, steps: seq<Label>) {
    After(size, steps).Some?
    && var s := After(size, steps).value;
       s.status == to && s.guard.Unheld? && 0 in s.clones && s.clones[0].phase.Live?
       && s.clones[0].stale && s.clones[0].own == [] && !s.clones[0].told && !WillChange(s, 0, s.clones[0])
  }

  /** A lost change event: one flip to symmetric, or one close, may never be acted on. */
  lemma LostChange(size: nat, to: Status)
    requires !to.Cone?
    ensures exists steps :: LeftBehind(size, to, steps)
  {
    var steps, s := Step(size, [], Init(size), Store(to));
    steps, s := Step(size, steps, s, Wake);
    steps, s := Step(size, steps, s, Release);
    steps, s := Step(size, steps, s, Lose(0));
    assert LeftBehind(size, to, steps);
  }

  /** A wake that fails does the same: the flip or the close has been stored, and its caller has an
      error, but the clones after the failing one are never told. */
  lemma LostWake(size: nat, to: Status)
    requires !to.Cone?
    ensures exists steps: seq<Label> :: LeftBehind(size, to, steps) && forall l <- steps :: !l.Lose?
  {
    var steps, s := Step(size, [], Init(size), Store(to));
    steps, s := Step(size, steps, s, WakeFails);
    assert LeftBehind(size, to, steps);
  }

  // One flip with a single registered clone, run to the end.
  lemma Flip(size: nat, steps: seq<Label>, s: State, to: Status) returns (steps': seq<Label>, s': State)
    requires After(size, steps) == Some(s) && s.guard.Unheld? && s.wakers == [0]
    requires s.clones.Keys == {0} && !to.Close? && !s.status.Close? && to != s.status
    ensures After(size, steps') == Some(s')
    ensures s' == s.(status := to, clones := map[0 := Outdate(s.clones[0]).(call := Woken, event := true)])
  {
    var c := s.clones[0];
    steps', s' := Step(size, steps, s, Store(to));
    assert s'.clones == map[0 := Outdate(c)];
    steps', s' := Step(size, steps', s', Wake);
    assert s'.clones == map[0 := Outdate(c).(call := Woken, event := true)];
    steps', s' := Step(size, steps', s', Release);
  }

  function Numbers(from: nat, size: nat): seq<nat> {
    seq(size, i => from + i)
  }

  // The only clone is symmetric and up to date, on the first sockets.
  lemma FirstSockets(size: nat) returns (steps: seq<Label>, s: State)
    requires size > 0
    ensures After(size, steps) == Some(s)
    ensures s == State(size, Symmetric, Pool(Numbers(0, size), size), 1, [0], Unheld,
                       map[0 := Replica(Numbers(0, size), Live, Idle, false, Woken, false, false)])
  {
    steps, s := Flip(size, [], Init(size), Symmetric);
    steps, s := Step(size, steps, s, Load(0));
    ChangeMirrors(Symmetric, s.pool, [], size, Supply(size, size));
    steps, s := Step(size, steps, s, Act(0, Supply(size, size)));
  }

  // It has loaded the status of a flip to cone, and the status has flipped back since.
  lemma CaughtBetween(size: nat) returns (steps: seq<Label>, s: State)
    requires size > 0
    ensures After(size, steps) == Some(s)
    ensures s == State(size, Symmetric, Pool(Numbers(0, size), size), 1, [0], Unheld,
                       map[0 := Replica(Numbers(0, size), Live, Loaded(Cone, false), true, Woken, true, false)])
  {
    steps, s := FirstSockets(size);
    steps, s := Flip(size, steps, s, Cone);
    steps, s := Step(size, steps, s, Load(0));
    steps, s := Flip(size, steps, s, Symmetric);
  }

  // A second clone is made meanwhile and is up to date on the same sockets.
  lemma SecondClone(size: nat) returns (steps: seq<Label>, s: State)
    requires size > 0
    ensures After(size, steps) == Some(s)
    ensures s == State(size, Symmetric, Pool(Numbers(0, size), size), 2, [0, 1], Unheld,
                       map[0 := Replica(Numbers(0, size), Live, Loaded(Cone, false), true, Woken, true, false),
                           1 := Replica(Numbers(0, size), Live, Idle, false, Uncalled, false, false)])
  {
    steps, s := CaughtBetween(size);
    steps, s := Step(size, steps, s, TakeFlag);
    steps, s := Step(size, steps, s, Register(1));
    steps, s := Step(size, steps, s, Load(1));
    ChangeMirrors(Symmetric, s.pool, [], size, Supply(size, size));
    steps, s := Step(size, steps, s, Act(1, Supply(size, size)));
  }

  // The run leaves two clones up to date under a symmetric status, with nothing pending for either,
  // the second on none of the sockets of the shared list.
  ghost predicate Drifted(size: nat, steps: seq<Label>) {
    After(size, steps).Some?
    && var s := After(size, steps).value;
       s.status.Symmetric? && s.guard.Unheld? && s.clones.Keys == {0, 1}
       && (forall f <- s.clones :: s.clones[f].phase.Live? && !s.clones[f].stale
                                   && s.clones[f].loading.Idle? && !s.clones[f].event)
       && s.clones[0].own == s.pool.list && |s.clones[1].own| == |s.pool.list| == size
       && forall i :: 0 <= i < size ==> s.clones[1].own[i] !in s.pool.list
  }

  /** A change split by two flips: one of two up-to-date clones listens where no sender sends from. */
  lemma MirrorDrift(size: nat)
    requires size > 0
    ensures exists steps :: Drifted(size, steps)
  {
    var steps, s := SecondClone(size);
    steps, s := Step(size, steps, s, Act(0, Supply(size, size)));
    assert s.pool == Pool([], size) && s.clones[0] == Replica([], Live, Idle, true, Woken, true, false);
    steps, s := Step(size, steps, s, Load(0));
    steps, s := Step(size, steps, s, Act(0, Supply(size, size)));
    assert s.pool == Pool(Numbers(size, size), 2 * size);
    assert Drifted(size, steps);
  }

  // The run leaves a symmetric list of that many sockets, with no status store under way, a clone up
  // to date on them, and nothing pending for it or for the one that bound them.
  ghost predicate Short(size: nat, count: nat, steps: seq<Label>) {
    After(size, steps).Some?
    && var s := After(size, steps).value;
       s.status.Symmetric? && s.guard.Unheld? && |s.pool.list| == count && s.clones.Keys == {0, 1}
       && (forall f <- s.clones :: s.clones[f].phase.Live? && s.clones[f].loading.Idle? && !s.clones[f].event)
       && s.clones[0].own == [] && UpToDate(s.clones[1]) && s.clones[1].own == s.pool.list
  }

  // The only clone has failed to bind all sockets.
  lemma BoundShort(size: nat, count: nat) returns (steps: seq<Label>, s: State)
    requires 0 < count < size
    ensures After(size, steps) == Some(s)
    ensures s == State(size, Symmetric, Pool(Numbers(0, count), count), 1, [0], Unheld,
                       map[0 := Replica([], Live, Idle, true, Woken, false, true)])
  {
    steps, s := Flip(size, [], Init(size), Symmetric);
    steps, s := Step(size, steps, s, Load(0));
    steps, s := Step(size, steps, s, Act(0, Supply(count, size)));
    assert s.pool.list == Numbers(0, count);
  }

  lemma ShortList(size: nat, count: nat) returns (steps: seq<Label>)
    requires 0 < count < size
    ensures Short(size, count, steps)
  {
    var s;
    steps, s := BoundShort(size, count);
    steps, s := Step(size, steps, s, TakeFlag);
    steps, s := Step(size, steps, s, Register(1));
    steps, s := Step(size, steps, s, Load(1));
    ChangeMirrors(Symmetric, s.pool, [], size, Supply(0, size));
    steps, s := Step(size, steps, s, Act(1, Supply(0, size)));
  }

  /** One failed bind can leave any shorter list behind, and then, whatever follows, the list stays
      as it is until a change acts on a cone status. */
  lemma ShortUntilCone(size: nat, count: nat)
    requires 0 < count < size
    ensures exists steps :: Short(size, count, steps)
    ensures forall steps, more :: Short(size, count, steps) && After(size, steps + more).Some?
              && NoCone(size, steps, more)
              ==> After(size, steps + more).value.pool.list == After(size, steps).value.pool.list
  {
    var steps := ShortList(size, count);
    forall steps, more | Short(size, count, steps) && After(size, steps + more).Some? && NoCone(size, steps, more)
      ensures After(size, steps + more).value.pool.list == After(size, steps).value.pool.list
    {
      ListKept(size, steps, more);
    }
  }

  lemma Step(size: nat, steps: seq<Label>, s: State, l: Label) returns (steps': seq<Label>, s': State)
    requires After(size, steps) == Some(s) && Enabled(s, l)
    ensures steps' == steps + [l] && s' == Do(s, l) && After(size, steps') == Some(s')
  {
    Extend(size, steps, s, l);
    steps', s' := steps + [l], Do(s, l);
  }
}

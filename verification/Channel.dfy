/**
 One channel clone and what it shares with the others: the NAT status, the socket list and the
 waker registry. What the sockets deliver, what a poll reports, which system calls fail and what
 other threads leave in the shared fields meanwhile come from outside.
 */
module Channel {
  import opened Common
  import opened Sockets
  import R = RouteTable
  import B = Bindings

  // A datagram, with the clock reading its key is stamped with, or an error.
  datatype Packet = Data(addr: SocketAddr, now: int) | Fault

  // Fault: a socket could not be bound or duplicated, or a poll failed.
  datatype Received = Got(key: RouteKey) | ReadError | Timeout | ChannelClosed | SystemError | Pending

  // One event of a poll: its token, and the shared fields and the supply when it is handled.
  datatype Event = Event(token: nat, status: Status, pool: Pool, supply: Supply)

  datatype Poll = Failed | Events(events: seq<Event>)

  // What the n-th receive attempt of a clone finds on a socket; None on the default socket.
  type Arrivals = nat -> (Option<nat> -> Option<Packet>)

  class Hub {
    var status: Status
    var pool: Pool
    var flagGen: nat
    var wakers: seq<nat>      // flags of the registered clones
    var woken: seq<nat>       // flags in the order their wakers were woken
    var token: bool           // the idle thread's parker

    ghost predicate Valid()
      reads this
    {
      B.Distinct(wakers) && forall flag <- wakers :: flag < flagGen
    }

    constructor ()
      ensures Valid() && status == Cone && pool == Pool([], 0) && flagGen == 1 && wakers == [0] && woken == [] && !token
    {
      status, pool, flagGen, wakers, woken, token := Cone, Pool([], 0), 1, [0], [], false;
    }

    // Wakes the registered clones, in registration order, up to the first wake that fails.
    method WakeAll(wakes: nat) returns (ok: bool)
      modifies this`woken
      ensures ok <==> |wakers| <= wakes
      ensures woken == old(woken) + wakers[..Fewer(|wakers|, wakes)]
    {
      for i := 0 to |wakers|
        invariant i <= wakes && woken == old(woken) + wakers[..i]
      {
        if i == wakes {
          return false;
        }
        woken := woken + [wakers[i]];
      }
      ok := true;
    }

    /** A flip wakes every registered clone once, unless a wake fails: then the later ones are left out
        and the error is returned, with the status flipped all the same. Asking for the present type
        does nothing; a closed channel refuses and stays closed. */
    method SetNatType(to: Status, wakes: nat) returns (ok: bool)
      requires Valid() && !to.Close?
      modifies this`status, this`woken
      ensures Valid()
      ensures status == if old(status).Close? then Close else to
      ensures var flipped := !old(status).Close? && old(status) != to;
              && woken == old(woken) + (if flipped then wakers[..Fewer(|wakers|, wakes)] else [])
              && (ok <==> old(status) == to || (flipped && |wakers| <= wakes))
    {
      match status {
        case Cone =>
          if to.Symmetric? {
            status := Symmetric;
          } else {
            return true;
          }
        case Symmetric =>
          if to.Cone? {
            status := Cone;
          } else {
            return true;
          }
        case Close =>
          return false;
      }
      ok := WakeAll(wakes);
    }

    method CloseAll(wakes: nat) returns (ok: bool)
      requires Valid()
      modifies this`status, this`woken, this`token
      ensures Valid() && status.Close? && token
      ensures woken == old(woken) + wakers[..Fewer(|wakers|, wakes)] && (ok <==> |wakers| <= wakes)
    {
      status := Close;
      token := true;
      ok := WakeAll(wakes);
    }

    method TakeFlag() returns (flag: nat)
      requires Valid()
      modifies this`flagGen
      ensures Valid() && flag == old(flagGen) && flagGen == flag + 1 && flag !in wakers
    {
      assert forall i :: 0 <= i < |wakers| ==> wakers[i] in wakers;
      flag := flagGen;
      flagGen := flagGen + 1;
    }

    method Register(flag: nat)
      requires Valid() && flag < flagGen && flag !in wakers
      modifies this`wakers
      ensures Valid() && wakers == old(wakers) + [flag]
    {
      assert forall i :: 0 <= i < |wakers| ==> wakers[i] in wakers;
      wakers := wakers + [flag];
    }

    // Drop: exactly this flag's entry goes, the others keep their order.
    method Unregister(flag: nat)
      requires Valid()
      modifies this`wakers
      ensures Valid() && wakers == B.Retain(old(wakers), flag)
    {
      B.RetainMembers(wakers, flag);
      wakers := B.Retain(wakers, flag);
    }
  }

  // What other threads leave in the hub while a clone is made: the flags when it registers, the status
  // and the list when its change runs.
  datatype Meanwhile = Meanwhile(flagGen: nat, wakers: seq<nat>, status: Status, pool: Pool)

  // Other clones take later flags, and none the one just taken.
  predicate Allowed(taken: nat, m: Meanwhile) {
    taken < m.flagGen && B.Distinct(m.wakers) && forall flag <- m.wakers :: flag < m.flagGen && flag != taken
  }

  class Clone {
    const hub: Hub
    const table: R.Table
    const size: nat
    const flag: nat
    const arrivals: Arrivals
    var udpList: seq<nat>
    var tried: seq<Option<nat>>  // the sockets of the receive attempts so far

    ghost predicate Valid()
      reads this, hub, table
    {
      hub as object != table && table.Valid()
    }

    constructor (hub: Hub, table: R.Table, size: nat, flag: nat, arrivals: Arrivals)
      requires hub as object != table && table.Valid()
      ensures Valid() && udpList == [] && tried == []
      ensures this.hub == hub && this.table == table && this.size == size && this.flag == flag
      ensures this.arrivals == arrivals
    {
      this.hub, this.table, this.size, this.flag, this.arrivals := hub, table, size, flag, arrivals;
      udpList, tried := [], [];
    }

    /** try_clone: a fresh flag, registered last, and one change, with other threads in between. When that
        change fails there is no clone, but the registration stays, and so does what the change did to
        the shared list. */
    method TryClone(ready: bool, other: Meanwhile, supply: Supply, arrivals: Arrivals) returns (clone: Option<Clone>)
      requires Valid() && hub.Valid() && Allowed(hub.flagGen, other)
      modifies hub
      ensures Valid() && hub.Valid()
      ensures !ready ==>
                clone.None? && hub.flagGen == old(hub.flagGen) + 1 && hub.wakers == old(hub.wakers)
                && hub.status == old(hub.status) && hub.pool == old(hub.pool)
      ensures ready ==>
                && hub.flagGen == other.flagGen && hub.wakers == other.wakers + [old(hub.flagGen)]
                && hub.status == other.status && hub.pool == PoolAfter(other.status, other.pool, size, supply)
      ensures hub.woken == old(hub.woken) && hub.token == old(hub.token)
      ensures clone.Some? <==> ready && !Fails(other.status, other.pool, size, supply)
      ensures clone.Some? ==>
                && fresh(clone.value) && clone.value.Valid() && clone.value.flag == old(hub.flagGen)
                && clone.value.hub == hub && clone.value.table == table && clone.value.size == size
                && clone.value.tried == [] && clone.value.udpList == hub.pool.list
    {
      var flag := hub.TakeFlag();
      if !ready {
        return None;
      }
      hub.flagGen, hub.wakers := other.flagGen, other.wakers;
      hub.Register(flag);
      hub.status, hub.pool := other.status, other.pool;
      var c := new Clone(hub, table, size, flag, arrivals);
      var error := c.Change(supply);
      if error.None? {
        ChangeMirrors(other.status, other.pool, [], size, supply);
      }
      clone := if error.Some? then None else Some(c);
    }

    /** Clears this clone's sockets and, by the status, empties the shared list or fills it when it is
        empty and mirrors it, up to the first system call that fails. */
    method Change(supply: Supply) returns (error: Option<Received>)
      requires Valid()
      modifies this`udpList, hub`pool
      ensures Valid() && error == ChangeError(hub.status, old(hub.pool), size, supply)
      ensures error == Some(ChannelClosed) <==> hub.status.Close?
      ensures error.None? || error.value.ChannelClosed? || error.value.SystemError?
      ensures error.None? <==> !Fails(hub.status, old(hub.pool), size, supply)
      ensures hub.pool == PoolAfter(hub.status, old(hub.pool), size, supply)
      ensures udpList == OwnAfter(hub.status, old(hub.pool), old(udpList), size, supply)
    {
      match hub.status {
        case Cone =>
          udpList := [];
          hub.pool := hub.pool.(list := []);
        case Symmetric =>
          udpList := [];
          if hub.pool.list == [] {
            ghost var first := hub.pool.next;
            for i := 0 to size
              invariant udpList == [] && i <= supply.binds && hub.pool == Pool(seq(i, j => first + j), first + i)
            {
              if i == supply.binds {
                return Some(SystemError);
              }
              hub.pool := Pool(hub.pool.list + [hub.pool.next], hub.pool.next + 1);
            }
          }
          error := MirrorList(supply.handles);
          return;
        case Close =>
          return Some(ChannelClosed);
      }
      error := None;
    }

    // Duplicates the handles of the shared list, up to the first failure.
    method MirrorList(handles: nat) returns (error: Option<Received>)
      requires udpList == []
      modifies this`udpList
      ensures udpList == hub.pool.list[..Fewer(|hub.pool.list|, handles)]
      ensures error == if handles < |hub.pool.list| then Some(SystemError) else None
    {
      var list := hub.pool.list;
      for i := 0 to |list|
        invariant i <= handles && udpList == list[..i]
      {
        if i == handles {
          return Some(SystemError);
        }
        udpList := udpList + [list[i]];
      }
      error := None;
    }

    // One non-blocking receive; a datagram also stamps its key.
    method UdpRecv(socket: Option<nat>, index: nat) returns (r: Option<Received>)
      requires Valid()
      modifies this`tried, table`times, table`history
      ensures Valid() && tried == old(tried) + [socket] && Finds(arrivals(|old(tried)|)(socket), index, r)
      ensures Stamped(old(table.history), table.history, ClockAt(arrivals, tried), r)
    {
      var packet := arrivals(|tried|)(socket);
      tried := tried + [socket];
      match packet {
        case None => r := None;
        case Some(Fault) => r := Some(ReadError);
        case Some(Data(addr, now)) =>
          var key := RouteKey(index, addr);
          table.Touch(R.Read, key, now);
          r := Some(Got(key));
      }
    }

    // Every socket once: the default one, then the list in order, up to the first that yields.
    method RecvEach() returns (r: Option<Received>)
      requires Valid()
      modifies this`tried, table`times, table`history
      ensures Valid() && PassEnds(arrivals, old(Now()), Now(), r)
      ensures Stamped(old(table.history), table.history, ClockAt(arrivals, tried), r)
    {
      r := UdpRecv(None, DEFAULT_TOKEN);
      AttemptOutcome(arrivals, old(tried), None, DEFAULT_TOKEN, udpList, r);
      if r.Some? {
        assert [Option<nat>.None] <= Order(udpList);
        return;
      }
      ghost var mid := tried;
      r := RecvList();
      assert mid + Each(udpList) == old(tried) + Order(udpList);
      SilentThen(arrivals, mid, tried, |old(tried)|, udpList, r);
    }

    method RecvList() returns (r: Option<Received>)
      requires Valid()
      modifies this`tried, table`times, table`history
      ensures Valid() && old(tried) <= tried <= old(tried) + Each(udpList)
      ensures r.None? ==> tried == old(tried) + Each(udpList)
      ensures Outcome(arrivals, tried, |old(tried)|, udpList, r)
      ensures Stamped(old(table.history), table.history, ClockAt(arrivals, tried), r)
    {
      for index := 0 to |udpList|
        invariant Valid() && tried == old(tried) + Each(udpList[..index]) && table.history == old(table.history)
        invariant Silent(arrivals, tried, |old(tried)|)
      {
        EachStep(udpList, index);
        ghost var mid := tried;
        r := UdpRecv(Some(udpList[index]), index);
        AttemptOutcome(arrivals, mid, Some(udpList[index]), index, udpList, r);
        SilentThen(arrivals, mid, tried, |old(tried)|, udpList, r);
        if r.Some? {
          return;
        }
      }
      assert udpList[..|udpList|] == udpList;
      r := None;
    }

    function Now(): View
      reads this, hub
    {
      View(udpList, hub.pool, tried)
    }

    // One event: a change, or a receive on the socket its token names, if there is one.
    method HandleEvent(event: Event) returns (r: Option<Received>)
      requires Valid()
      modifies this, hub`status, hub`pool, table`times, table`history
      ensures Valid() && hub.status == event.status
      ensures Now() == Effect(event, size, old(Now()))
      ensures Answers(arrivals, event, size, |old(tried)|, Now(), r)
      ensures event.token == 100_001 ==> tried == old(tried) && table.history == old(table.history)
      ensures event.token != 100_001 ==> udpList == old(udpList) && hub.pool == event.pool
      ensures event.token == 100_000 ==> tried == old(tried) + [None]
      ensures event.token < 100_000 && event.token < |udpList| ==> tried == old(tried) + [Some(udpList[event.token])]
      ensures event.token !in {100_000, 100_001} && event.token >= |udpList| ==>
                r.None? && tried == old(tried) && table.history == old(table.history)
      ensures Stamped(old(table.history), table.history, ClockAt(arrivals, tried), r)
    {
      hub.status, hub.pool := event.status, event.pool;
      r := None;
      if event.token == CHANGE_TOKEN {
        r := Change(event.supply);
      } else if event.token == DEFAULT_TOKEN {
        r := UdpRecv(None, DEFAULT_TOKEN);
        AttemptOutcome(arrivals, old(tried), None, DEFAULT_TOKEN, udpList, r);
      } else if event.token < |udpList| {
        r := UdpRecv(Some(udpList[event.token]), event.token);
        AttemptOutcome(arrivals, old(tried), Some(udpList[event.token]), event.token, udpList, r);
      }
    }

    /** The first n events of one poll, in order, n being the first that yields a result or all of
        them. A change event is handled exactly when it is among those: a datagram read earlier in
        the batch leaves it unhandled. */
    method HandleBatch(events: seq<Event>) returns (r: Option<Received>, n: nat)
      requires Valid()
      modifies this, hub`status, hub`pool, table`times, table`history
      ensures Valid() && n <= |events| && (r.None? ==> n == |events|)
      ensures BatchEnds(arrivals, events[..n], size, old(Now()), Now(), r)
      ensures Stamped(old(table.history), table.history, ClockAt(arrivals, tried), r)
    {
      n := 0;
      while n < |events|
        invariant table.history == old(table.history)
        invariant Valid() && n <= |events| && BatchEnds(arrivals, events[..n], size, old(Now()), Now(), None)
      {
        ghost var before := Now();
        r := HandleEvent(events[n]);
        assert B.Front(events[..n + 1]) == events[..n];
        EventStep(arrivals, events[..n + 1], size, old(Now()), before, Now(), r);
        n := n + 1;
        if r.Some? {
          return;
        }
      }
      r := None;
    }

    // One round of the receive loop: a pass over the sockets, a poll, its events.
    method RecvOnce(poll: Poll) returns (r: Option<Received>)
      requires Valid()
      modifies this, hub`status, hub`pool, table`times, table`history
      ensures Valid() && RoundEnds(arrivals, poll, size, old(Now()), Now(), r)
      ensures Stamped(old(table.history), table.history, ClockAt(arrivals, tried), r)
    {
      r := RecvEach();
      if r.Some? {
        return;
      }
      var n := 0;
      match poll {
        case Failed => r := Some(SystemError);
        case Events(events) =>
          if events == [] {
            r := Some(Timeout);
          } else {
            r, n := HandleBatch(events);
          }
      }
      assert PollEnds(arrivals, poll, n, size, Passed(old(Now())), Now(), r);
    }

    /** The receive loop over a script of polls; Pending when the script ends inside it. The first p
        polls gave nothing and all their events were handled; the result is that of the round after
        them. So no datagram is read and dropped, and a key names the socket of the last attempt in
        the list as it now stands; that key is stamped, once, and nothing else is. */
    method RecvFrom(polls: seq<Poll>) returns (r: Received, p: nat)
      requires Valid()
      modifies this, hub`status, hub`pool, table`times, table`history
      ensures Valid() && LoopEnds(arrivals, polls, p, size, old(Now()), Now(), r)
      ensures Outcome(arrivals, tried, |old(tried)|, udpList, Read(Some(r)))
      ensures Stamped(old(table.history), table.history, ClockAt(arrivals, tried), Some(r))
    {
      ghost var first := Now();
      p := 0;
      while p < |polls|
        invariant Valid() && p <= |polls| && QuietUntil(arrivals, polls, p, size, first, Now())
        invariant table.history == old(table.history)
      {
        ghost var mid := Now();
        var once := RecvOnce(polls[p]);
        RoundStep(arrivals, polls, p, size, first, mid, Now(), once);
        if once.Some? {
          return once.value, p;
        }
        p := p + 1;
      }
      r := Pending;
    }

    /** Stamps the key, then picks the socket by index; None is the error answer. With at most 100000
        sockets it is the socket that datagrams with that key are received on. */
    method SendToRoute(key: RouteKey, now: int) returns (socket: Option<Option<nat>>)
      requires Valid()
      modifies table`times, table`history
      ensures Valid() && table.history == old(table.history) + [R.Touched(R.Write, key, now)]
      ensures socket == Picked(udpList, key.index)
      ensures socket.None? <==> key.index != 100_000 && key.index >= |udpList|
      ensures key.index == 100_000 ==> socket == Some(None)
      ensures key.index != 100_000 && key.index < |udpList| ==> socket == Some(Some(udpList[key.index]))
      ensures |udpList| <= 100_000 ==>
                forall from :: ReportedAs(udpList, key.index, from) ==> socket == Some(from)
    {
      table.Touch(R.Write, key, now);
      if key.index == DEFAULT_TOKEN {
        socket := Some(None);
      } else if key.index < |udpList| {
        socket := Some(Some(udpList[key.index]));
      } else {
        socket := None;
      }
      ReplyIff(udpList);
    }

    // send_to_id: the key of the id's route, if it has one.
    method SendToId(id: R.Id, now: int) returns (socket: Option<Option<nat>>)
      requires Valid()
      modifies table`times, table`history
      ensures Valid()
      ensures id !in table.routes ==> socket.None? && table.history == old(table.history)
      ensures id in table.routes ==> socket == Picked(udpList, table.routes[id].index)
      ensures socket.None? <==>
                id !in table.routes
                || (table.routes[id].index != 100_000 && table.routes[id].index >= |udpList|)
      ensures id in table.routes && table.routes[id].index == 100_000 ==> socket == Some(None)
      ensures id in table.routes && socket.Some? && table.routes[id].index != 100_000 ==>
                socket == Some(Some(udpList[table.routes[id].index]))
      ensures id in table.routes ==>
                table.history == old(table.history) + [R.Touched(R.Write, table.routes[id].Key(), now)]
    {
      if id !in table.routes {
        return None;
      }
      socket := SendToRoute(table.routes[id].Key(), now);
    }
  }

  // Receive attempts

  // From that attempt on, none found anything.
  predicate Silent(arrivals: Arrivals, tried: seq<Option<nat>>, from: nat) {
    forall i :: from <= i < |tried| ==> arrivals(i)(tried[i]).None?
  }

  // The result is that of the last attempt, under an index the list gives its socket, and the
  // attempts before it, from that one on, found nothing.
  predicate Yields(arrivals: Arrivals, tried: seq<Option<nat>>, from: nat, list: seq<nat>, r: Received) {
    tried != [] && from < |tried| && Silent(arrivals, tried[..|tried| - 1], from)
    && match arrivals(|tried| - 1)(tried[|tried| - 1])
       case None => false
       case Some(Fault) => r.ReadError?
       case Some(Data(addr, _)) => r.Got? && r.key.addr == addr && ReportedAs(list, r.key.index, tried[|tried| - 1])
  }

  predicate Outcome(arrivals: Arrivals, tried: seq<Option<nat>>, from: nat, list: seq<nat>, r: Option<Received>) {
    if r.None? then Silent(arrivals, tried, from) else Yields(arrivals, tried, from, list, r.value)
  }

  // The clock reading of the last attempt's datagram.
  function ClockAt(arrivals: Arrivals, tried: seq<Option<nat>>): int {
    if tried == [] then 0
    else
      match arrivals(|tried| - 1)(tried[|tried| - 1])
      case Some(Data(_, now)) => now
      case _ => 0
  }

  // What a result adds to the history of the table: a key returned has been stamped.
  predicate Stamped(before: seq<R.Event>, history: seq<R.Event>, clock: int, r: Option<Received>) {
    if r.Some? && r.value.Got? then history == before + [R.Touched(R.Read, r.value.key, clock)]
    else history == before
  }

  // What the next attempt finds, and the result made of it.
  predicate Finds(packet: Option<Packet>, index: nat, r: Option<Received>) {
    match packet
    case None => r.None?
    case Some(Fault) => r == Some(ReadError)
    case Some(Data(addr, _)) => r == Some(Got(RouteKey(index, addr)))
  }

  lemma AttemptOutcome(arrivals: Arrivals, tried: seq<Option<nat>>, socket: Option<nat>, index: nat,
                       list: seq<nat>, r: Option<Received>)
    requires Finds(arrivals(|tried|)(socket), index, r) && ReportedAs(list, index, socket)
    ensures Outcome(arrivals, tried + [socket], |tried|, list, r)
  {
    var tried' := tried + [socket];
    assert tried'[|tried'| - 1] == socket && tried'[..|tried'| - 1] == tried;
  }

  // An outcome after silent attempts is one of all of them.
  lemma SilentThen(arrivals: Arrivals, tried: seq<Option<nat>>, tried': seq<Option<nat>>, from: nat,
                   list: seq<nat>, r: Option<Received>)
    requires from <= |tried| && tried <= tried' && Silent(arrivals, tried, from)
    requires Outcome(arrivals, tried', |tried|, list, r)
    ensures Outcome(arrivals, tried', from, list, r)
  {
    forall i | from <= i < |if r.None? then tried' else tried'[..|tried'| - 1]|
      ensures arrivals(i)(tried'[i]).None?
    {
      if i < |tried| {
        assert tried'[i] == tried[i];
      } else {
        assert r.Some? ==> tried'[..|tried'| - 1][i] == tried'[i];
      }
    }
  }

  /** One attempt in plain terms: nothing ready gives nothing, an error is the result, a datagram gives the
      key of its address under that index, and only a key is stamped, with the datagram's time. */
  lemma AttemptInNumbers(arrivals: Arrivals, tried: seq<Option<nat>>, socket: Option<nat>, index: nat,
                         before: seq<R.Event>, history: seq<R.Event>, r: Option<Received>)
    requires Finds(arrivals(|tried|)(socket), index, r)
    requires Stamped(before, history, ClockAt(arrivals, tried + [socket]), r)
    ensures match arrivals(|tried|)(socket)
            case None => r.None? && history == before
            case Some(Fault) => r == Some(ReadError) && history == before
            case Some(Data(addr, now)) =>
              r == Some(Got(RouteKey(index, addr)))
              && history == before + [R.Touched(R.Read, RouteKey(index, addr), now)]
  {
    assert (tried + [socket])[|tried|] == socket;
  }

  /** A result in plain terms: nothing found before the last attempt; that attempt's error, or the key made
      of its datagram's address and, for the default socket, 100000, else a position of its socket. */
  lemma ResultInNumbers(arrivals: Arrivals, tried: seq<Option<nat>>, from: nat, list: seq<nat>, r: Option<Received>)
    requires Outcome(arrivals, tried, from, list, r)
    ensures forall i :: from <= i < |tried| - (if r.Some? then 1 else 0) ==> arrivals(i)(tried[i]).None?
    ensures r.Some? ==>
              from < |tried|
              && match arrivals(|tried| - 1)(tried[|tried| - 1])
                 case None => false
                 case Some(Fault) => r.value == ReadError
                 case Some(Data(addr, now)) =>
                   r.value.Got? && r.value.key.addr == addr && ClockAt(arrivals, tried) == now
                   && if tried[|tried| - 1].None? then r.value.key.index == 100_000
                      else r.value.key.index < |list| && Some(list[r.value.key.index]) == tried[|tried| - 1]
  {
    if r.Some? {
      var before := tried[..|tried| - 1];
      assert forall i :: from <= i < |before| ==> before[i] == tried[i];
    }
  }

  /** What a receive call returns, in plain terms: a key is that of the last attempt's datagram, named after
      the socket it came from, and is stamped with the datagram's time; an error is the last attempt's;
      any other result comes with every attempt silent; only a key is stamped. */
  lemma ReceivedInNumbers(arrivals: Arrivals, tried: seq<Option<nat>>, from: nat, list: seq<nat>, r: Received,
                          before: seq<R.Event>, history: seq<R.Event>)
    requires Outcome(arrivals, tried, from, list, Read(Some(r)))
    requires Stamped(before, history, ClockAt(arrivals, tried), Some(r))
    ensures r.Got? ==>
              from < |tried|
              && match arrivals(|tried| - 1)(tried[|tried| - 1])
                 case Some(Data(addr, now)) =>
                   r.key.addr == addr && history == before + [R.Touched(R.Read, r.key, now)]
                   && if tried[|tried| - 1].None? then r.key.index == 100_000
                      else r.key.index < |list| && Some(list[r.key.index]) == tried[|tried| - 1]
                 case _ => false
    ensures r.ReadError? ==> from < |tried| && arrivals(|tried| - 1)(tried[|tried| - 1]) == Some(Fault)
    ensures !r.Got? ==> history == before
    ensures forall i :: from <= i < |tried| - (if r.Got? || r.ReadError? then 1 else 0) ==>
              arrivals(i)(tried[i]).None?
  {
    ResultInNumbers(arrivals, tried, from, list, Read(Some(r)));
  }

  /** A pass tries the default socket first and then each socket of the list in its place. */
  lemma {:induction false} OrderInNumbers(list: seq<nat>)
    ensures |Order(list)| == 1 + |list| && Order(list)[0] == None
    ensures forall i :: 0 <= i < |list| ==> Order(list)[1 + i] == Some(list[i])
  {
    if list != [] {
      OrderInNumbers(B.Front(list));
      assert Order(list) == Order(B.Front(list)) + [Some(B.Last(list))];
    }
  }

  // The sockets of one pass over all of them.
  function Order(list: seq<nat>): seq<Option<nat>> {
    [None] + Each(list)
  }

  function Each(list: seq<nat>): seq<Option<nat>> {
    if list == [] then [] else Each(B.Front(list)) + [Some(B.Last(list))]
  }

  lemma {:induction false} EachPrefix(list: seq<nat>, i: nat)
    requires i <= |list|
    ensures Each(list[..i]) <= Each(list)
    decreases |list| - i
  {
    if i == |list| {
      assert list[..i] == list;
    } else {
      assert B.Front(list[..i + 1]) == list[..i];
      EachPrefix(list, i + 1);
    }
  }

  lemma EachStep(list: seq<nat>, i: nat)
    requires i < |list|
    ensures Each(list[..i + 1]) == Each(list[..i]) + [Some(list[i])]
    ensures Each(list[..i]) + [Some(list[i])] <= Each(list)
  {
    assert B.Front(list[..i + 1]) == list[..i];
    EachPrefix(list, i + 1);
  }

  // Events

  // A clone's own sockets, the shared pool, and the receive attempts so far.
  datatype View = View(own: seq<nat>, pool: Pool, tried: seq<Option<nat>>)

  function ChangeError(status: Status, pool: Pool, size: nat, supply: Supply): Option<Received> {
    if !Fails(status, pool, size, supply) then None
    else if status.Close? then Some(ChannelClosed)
    else Some(SystemError)
  }

  // The receive attempt an event makes: none when its token names no socket.
  function ReadBy(token: nat, list: seq<nat>): seq<Option<nat>> {
    if Picked(list, token).None? then [] else [Picked(list, token).value]
  }

  function Effect(e: Event, size: nat, v: View): View {
    if e.token == CHANGE_TOKEN then
      View(OwnAfter(e.status, e.pool, v.own, size, e.supply), PoolAfter(e.status, e.pool, size, e.supply), v.tried)
    else View(v.own, e.pool, v.tried + ReadBy(e.token, v.own))
  }

  // What an event yields: the error of its change, or the outcome of its receive attempt.
  predicate Answers(arrivals: Arrivals, e: Event, size: nat, from: nat, v: View, r: Option<Received>) {
    if e.token == CHANGE_TOKEN then r == ChangeError(e.status, e.pool, size, e.supply)
    else Outcome(arrivals, v.tried, from, v.own, r)
  }

  function Through(events: seq<Event>, size: nat, v: View): View {
    if events == [] then v else Effect(B.Last(events), size, Through(B.Front(events), size, v))
  }

  // No change failed, the last events set aside.
  predicate CalmBut(events: seq<Event>, size: nat, last: nat) {
    forall i :: 0 <= i < |events| - last && events[i].token == CHANGE_TOKEN ==>
      !Fails(events[i].status, events[i].pool, size, events[i].supply)
  }

  // All those events were handled, and only the last one yields a result.
  predicate BatchEnds(arrivals: Arrivals, events: seq<Event>, size: nat, first: View, v: View, r: Option<Received>) {
    v == Through(events, size, first)
    && (r.Some? ==> events != []) && CalmBut(events, size, if r.Some? then 1 else 0)
    && if r.Some? && B.Last(events).token == CHANGE_TOKEN
       then Silent(arrivals, v.tried, |first.tried|) && Answers(arrivals, B.Last(events), size, |v.tried|, v, r)
       else Outcome(arrivals, v.tried, |first.tried|, v.own, r)
  }

  lemma EventStep(arrivals: Arrivals, events: seq<Event>, size: nat, first: View, v: View, v': View,
                  r: Option<Received>)
    requires events != [] && BatchEnds(arrivals, B.Front(events), size, first, v, None)
    requires v' == Effect(B.Last(events), size, v)
    requires Answers(arrivals, B.Last(events), size, |v.tried|, v', r)
    ensures BatchEnds(arrivals, events, size, first, v', r)
  {
    ThroughTried(B.Front(events), size, first);
    assert v' == Through(events, size, first);
    if B.Last(events).token != CHANGE_TOKEN {
      assert v.tried <= v'.tried;
      SilentThen(arrivals, v.tried, v'.tried, |first.tried|, v'.own, r);
    } else {
      assert v'.tried == v.tried;
    }
    assert CalmBut(events, size, if r.Some? then 1 else 0) by {
      assert CalmBut(B.Front(events), size, 0);
    }
  }

  /** Events take effect one after another, in the order of the batch. */
  lemma ThroughInOrder(events: seq<Event>, size: nat, v: View)
    ensures events == [] ==> Through(events, size, v) == v
    ensures events != [] ==> Through(events, size, v) == Through(events[1..], size, Effect(events[0], size, v))
  {
    if events != [] {
      assert events == [events[0]] + events[1..];
      ThroughAppend([events[0]], events[1..], size, v);
      assert B.Front([events[0]]) == [];
      assert Through([], size, v) == v;
    }
  }

  lemma {:induction false} ThroughAppend(a: seq<Event>, b: seq<Event>, size: nat, v: View)
    ensures Through(a + b, size, v) == Through(b, size, Through(a, size, v))
    decreases b
  {
    if b == [] {
      assert a + b == a;
    } else {
      assert B.Front(a + b) == a + B.Front(b);
      ThroughAppend(a, B.Front(b), size, v);
    }
  }

  lemma {:induction false} ThroughTried(events: seq<Event>, size: nat, v: View)
    ensures v.tried <= Through(events, size, v).tried
  {
    if events != [] {
      ThroughTried(B.Front(events), size, v);
    }
  }

  /** The list a batch leaves is decided by the last change event handled that did not see a close,
      whatever the list was before and whatever receives come after it; a batch without one, as when a
      datagram ends it before that event, leaves the list as it was. */
  lemma {:induction false} LastChangeDecides(events: seq<Event>, size: nat, v: View, k: nat)
    requires k <= |events|
    requires forall i :: k <= i < |events| ==> events[i].token != CHANGE_TOKEN || events[i].status.Close?
    ensures k == 0 ==> Through(events, size, v).own == v.own
    ensures k > 0 && events[k - 1].token == CHANGE_TOKEN && !events[k - 1].status.Close? ==>
              Through(events, size, v).own
              == OwnAfter(events[k - 1].status, events[k - 1].pool, [], size, events[k - 1].supply)
  {
    if k < |events| {
      LastChangeDecides(B.Front(events), size, v, k);
    }
  }

  // Rounds

  // The state after a round that yields nothing.
  function Round(poll: Poll, size: nat, v: View): View {
    Through(if poll.Events? then poll.events else [], size, Passed(v))
  }

  function Passed(v: View): View {
    v.(tried := v.tried + Order(v.own))
  }

  function Rounds(polls: seq<Poll>, size: nat, v: View): View {
    if polls == [] then v else Round(B.Last(polls), size, Rounds(B.Front(polls), size, v))
  }

  // A pass over the sockets ended there: with the first that yields, or after all of them.
  predicate PassEnds(arrivals: Arrivals, first: View, v: View, r: Option<Received>) {
    v.own == first.own && v.pool == first.pool && first.tried < v.tried <= first.tried + Order(first.own)
    && (r.None? ==> v == Passed(first)) && Outcome(arrivals, v.tried, |first.tried|, v.own, r)
  }

  // The pass found nothing, and then the poll failed, timed out or reported those events.
  predicate PollEnds(arrivals: Arrivals, poll: Poll, n: nat, size: nat, mid: View, v: View, r: Option<Received>) {
    match poll
    case Failed => v == mid && r == Some(SystemError)
    case Events(events) =>
      if events == [] then v == mid && r == Some(Timeout)
      else n <= |events| && (r.None? ==> n == |events|) && BatchEnds(arrivals, events[..n], size, mid, v, r)
  }

  ghost predicate RoundEnds(arrivals: Arrivals, poll: Poll, size: nat, first: View, v: View, r: Option<Received>) {
    (r.Some? && PassEnds(arrivals, first, v, r))
    || (PassEnds(arrivals, first, Passed(first), None)
        && exists n :: PollEnds(arrivals, poll, n, size, Passed(first), v, r))
  }

  // A receive attempt's own result; any other comes from an event, a poll or the end of the script.
  function Read(r: Option<Received>): Option<Received> {
    if r.Some? && (r.value.Got? || r.value.ReadError?) then r else None
  }

  lemma PollOutcome(arrivals: Arrivals, poll: Poll, n: nat, size: nat, mid: View, v: View, r: Option<Received>)
    requires PollEnds(arrivals, poll, n, size, mid, v, r)
    ensures r.None? ==> v == Through(poll.events, size, mid)
    ensures mid.tried <= v.tried && Outcome(arrivals, v.tried, |mid.tried|, v.own, Read(r))
  {
    if poll.Events? && poll.events != [] {
      ThroughTried(poll.events[..n], size, mid);
      assert poll.events[..|poll.events|] == poll.events;
    }
  }

  lemma RoundOutcome(arrivals: Arrivals, poll: Poll, size: nat, from: nat, first: View, v: View, r: Option<Received>)
    requires from <= |first.tried| && Silent(arrivals, first.tried, from)
    requires RoundEnds(arrivals, poll, size, first, v, r)
    ensures r.None? ==> v == Round(poll, size, first)
    ensures first.tried <= v.tried && Outcome(arrivals, v.tried, from, v.own, Read(r))
  {
    if r.Some? && PassEnds(arrivals, first, v, r) {
      SilentThen(arrivals, first.tried, v.tried, from, v.own, r);
    } else {
      var mid := Passed(first);
      var n :| PollEnds(arrivals, poll, n, size, mid, v, r);
      SilentThen(arrivals, first.tried, mid.tried, from, mid.own, None);
      PollOutcome(arrivals, poll, n, size, mid, v, r);
      SilentThen(arrivals, mid.tried, v.tried, from, v.own, Read(r));
    }
  }

  /** A round in plain terms: it tries the default socket first; a failed poll and a poll without events end
      it, with their own answers unless a socket had one; it ends without a result only when the poll had
      events, and then all of them have taken effect after a pass over every socket. */
  lemma RoundInNumbers(arrivals: Arrivals, poll: Poll, size: nat, first: View, v: View, r: Option<Received>)
    requires RoundEnds(arrivals, poll, size, first, v, r)
    ensures |first.tried| < |v.tried| && first.tried <= v.tried && v.tried[|first.tried|] == None
    ensures poll == Failed ==> r.Some? && (r.value.SystemError? || r.value.Got? || r.value.ReadError?)
    ensures poll == Events([]) ==> r.Some? && (r.value.Timeout? || r.value.Got? || r.value.ReadError?)
    ensures r == Some(Timeout) ==> poll == Events([])
    ensures r.None? ==>
              poll.Events? && poll.events != []
              && v == Through(poll.events, size, first.(tried := first.tried + Order(first.own)))
  {
    OrderInNumbers(first.own);
    if !(r.Some? && PassEnds(arrivals, first, v, r)) {
      var n :| PollEnds(arrivals, poll, n, size, Passed(first), v, r);
      PollOutcome(arrivals, poll, n, size, Passed(first), v, r);
      assert v.tried[|first.tried|] == Passed(first).tried[|first.tried|];
    }
  }

  // The state after p rounds, none of which yielded.
  predicate QuietUntil(arrivals: Arrivals, polls: seq<Poll>, p: nat, size: nat, first: View, v: View) {
    p <= |polls| && v == Rounds(polls[..p], size, first)
    && first.tried <= v.tried && Silent(arrivals, v.tried, |first.tried|)
  }

  // The first p rounds yielded nothing, and then the script was over or the next one gave the result.
  ghost predicate LoopEnds(arrivals: Arrivals, polls: seq<Poll>, p: nat, size: nat, first: View, v: View, r: Received) {
    p <= |polls| && (r.Pending? <==> p == |polls|)
    && QuietUntil(arrivals, polls, p, size, first, Rounds(polls[..p], size, first))
    && if r.Pending? then v == Rounds(polls[..p], size, first)
       else RoundEnds(arrivals, polls[p], size, Rounds(polls[..p], size, first), v, Some(r))
  }

  lemma RoundStep(arrivals: Arrivals, polls: seq<Poll>, p: nat, size: nat, first: View, mid: View, v: View,
                  r: Option<Received>)
    requires p < |polls| && QuietUntil(arrivals, polls, p, size, first, mid)
    requires RoundEnds(arrivals, polls[p], size, mid, v, r) && r != Some(Pending)
    ensures r.None? ==> QuietUntil(arrivals, polls, p + 1, size, first, v)
    ensures r.Some? ==> LoopEnds(arrivals, polls, p, size, first, v, r.value)
    ensures Outcome(arrivals, v.tried, |first.tried|, v.own, Read(r))
  {
    RoundOutcome(arrivals, polls[p], size, |first.tried|, mid, v, r);
    assert B.Front(polls[..p + 1]) == polls[..p] && B.Last(polls[..p + 1]) == polls[p];
  }
}

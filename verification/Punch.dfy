/**
 The punch scheduler: which datagrams one punch sends, in which order and through which sockets,
 when sends may fail and the shared socket list and the NAT status may change at any moment.
 */
module Punch {
  import opened Common
  import opened Ports
  import B = Bindings

  type Id = B.Id

  datatype Ip = Ip4(bits: nat) | Ip6(bits: nat) {
    predicate Unspecified() {
      bits == 0
    }
  }

  // No socket number means the default socket.
  datatype Datagram = Datagram(socket: Option<nat>, ip: Ip, port: nat)

  datatype Attempt = Accepted | Busy | Failed

  datatype NatType = SymmetricNat | ConeNat

  datatype NatInfo = NatInfo(publicIps: seq<Ip>, publicPort: nat, publicPortRange: nat,
                             localIp: Ip, localPort: nat, natType: NatType)

  // Panicked: a build that checks its arithmetic has stopped.
  datatype Outcome = Ok | Closed | SendFailed | Panicked

  // Whether a datagram gets out when its attempts, from this one on, end like that.
  function Succeeds(attempts: nat -> Attempt, from: nat): bool
    decreases 11 - from
  {
    if from >= 11 then false
    else match attempts(from)
      case Accepted => true
      case Failed => false
      case Busy => Succeeds(attempts, from + 1)
  }

  /** Busy sends are repeated, anything else ends the loop; the eleventh busy answer is an error. */
  method SendAll(attempts: nat -> Attempt) returns (ok: bool, tries: nat)
    ensures 1 <= tries <= 11
    ensures forall i :: 0 <= i < tries - 1 ==> attempts(i).Busy?
    ensures ok <==> attempts(tries - 1).Accepted?
    ensures attempts(tries - 1).Busy? ==> tries == 11
    ensures ok == Succeeds(attempts, 0)
  {
    var count := 0;
    while true
      invariant 0 <= count <= 10
      invariant forall i :: 0 <= i < count ==> attempts(i).Busy?
      invariant Succeeds(attempts, 0) == Succeeds(attempts, count)
      decreases 11 - count
    {
      match attempts(count) {
        case Accepted => return true, count + 1;
        case Failed => return false, count + 1;
        case Busy =>
          count := count + 1;
          if count > 10 {
            return false, count;
          }
      }
    }
  }

  /** A datagram gets out exactly when one of its first eleven attempts is accepted and all before it
      were busy. */
  lemma {:induction false} SucceedsIff(attempts: nat -> Attempt, from: nat)
    requires from <= 11
    ensures Succeeds(attempts, from) <==>
            exists k: nat :: from <= k < 11 && attempts(k).Accepted? && forall i :: from <= i < k ==> attempts(i).Busy?
    decreases 11 - from
  {
    if from < 11 {
      SucceedsIff(attempts, from + 1);
      if attempts(from).Busy? && Succeeds(attempts, from) {
        var k: nat :| from + 1 <= k < 11 && attempts(k).Accepted?
          && forall i :: from + 1 <= i < k ==> attempts(i).Busy?;
        assert forall i :: from <= i < k ==> attempts(i).Busy?;
      }
    }
  }

  // Pieces laid end to end, each made from the position it starts at.
  function Flat<T, D>(piece: (nat, T) -> seq<D>, n: nat, items: seq<T>): seq<D>
    decreases items
  {
    if items == [] then []
    else
      var first := piece(n, items[0]);
      first + Flat(piece, n + |first|, items[1..])
  }

  lemma {:induction false} FlatAppend<T, D>(piece: (nat, T) -> seq<D>, n: nat, a: seq<T>, b: seq<T>)
    ensures Flat(piece, n, a + b) == Flat(piece, n, a) + Flat(piece, n + |Flat(piece, n, a)|, b)
    decreases a
  {
    if a == [] {
      assert a + b == b;
    } else {
      FlatAppend(piece, n + |piece(n, a[0])|, a[1..], b);
      FlatStep(piece, n, a, b);
    }
  }

  lemma FlatOne<T, D>(piece: (nat, T) -> seq<D>, n: nat, item: T)
    ensures Flat(piece, n, [item]) == piece(n, item)
  {
    assert [item][1..] == [];
    assert Flat(piece, n + |piece(n, item)|, []) == [];
    assert Flat(piece, n, [item]) == piece(n, item) + [];
  }

  lemma FlatStep<T, D>(piece: (nat, T) -> seq<D>, n: nat, a: seq<T>, b: seq<T>)
    requires a != []
    requires var m := n + |piece(n, a[0])|;
             Flat(piece, m, a[1..] + b) == Flat(piece, m, a[1..]) + Flat(piece, m + |Flat(piece, m, a[1..])|, b)
    ensures Flat(piece, n, a + b) == Flat(piece, n, a) + Flat(piece, n + |Flat(piece, n, a)|, b)
  {
    var first := piece(n, a[0]);
    var x := Flat(piece, n + |first|, a[1..]);
    var y := Flat(piece, n + |first| + |x|, b);
    assert (a + b)[0] == a[0] && (a + b)[1..] == a[1..] + b;
    assert Flat(piece, n, a + b) == first + (x + y);
    Reassociate(first, x, y);
  }

  /** The outside world: how the attempts of the n-th datagram end, and the shared socket list as it
      stands when n datagrams have been sent. Both are arbitrary, so they cover every error pattern
      and every concurrent change of NAT status. */
  datatype World = World(attempts: nat -> (nat -> Attempt), shared: nat -> seq<nat>) {
    predicate Gets(n: nat) {
      Succeeds(attempts(n), 0)
    }

    predicate AllGet(n: nat, count: nat) {
      forall i :: n <= i < n + count ==> Gets(i)
    }

    // What of a plan leaves before an error stops it: everything up to the first failing datagram.
    function Sent(n: nat, plan: seq<Datagram>): seq<Datagram>
      decreases plan
    {
      if plan == [] then []
      else if !Gets(n) then [plan[0]]
      else [plan[0]] + Sent(n + 1, plan[1..])
    }

    // The datagrams for one target: the default socket alone, or it and then every shared socket.
    function Burst(n: nat, isCone: bool, target: (nat, Ip)): seq<Datagram> {
      [Datagram(None, target.1, target.0)] + if isCone then [] else OnSockets(shared(n + 1), target)
    }

    // The datagrams for several targets, if all of them get out.
    function Plan(n: nat, isCone: bool, targets: seq<(nat, Ip)>): seq<Datagram> {
      Flat(Bursts(isCone), n, targets)
    }

    function Bursts(isCone: bool): (nat, (nat, Ip)) -> seq<Datagram> {
      (n: nat, target: (nat, Ip)) => Burst(n, isCone, target)
    }

    // The log grew by the plan for the targets, cut at the first error; ok tells there was none.
    ghost predicate Delivers(before: seq<Datagram>, isCone: bool, targets: seq<(nat, Ip)>,
                             log: seq<Datagram>, ok: bool) {
      var plan := Plan(|before|, isCone, targets);
      log == before + Sent(|before|, plan) && ok == AllGet(|before|, |plan|)
    }

    /** A delivery, spelled out: without error the log grew by the whole plan, and otherwise by the plan up
        to and including the first datagram that did not get out. */
    lemma DeliversSpelled(before: seq<Datagram>, isCone: bool, targets: seq<(nat, Ip)>, log: seq<Datagram>, ok: bool)
      requires Delivers(before, isCone, targets, log, ok)
      ensures ok <==> forall i :: |before| <= i < |before| + |Plan(|before|, isCone, targets)| ==> Gets(i)
      ensures ok ==> log == before + Plan(|before|, isCone, targets)
      ensures !ok ==>
                exists c: nat ::
                  StopsAt(|before|, |Plan(|before|, isCone, targets)|, c)
                  && log == before + Plan(|before|, isCone, targets)[..c + 1]
    {
      SentExactly(|before|, Plan(|before|, isCone, targets));
    }

    lemma {:induction false} SentAppend(n: nat, a: seq<Datagram>, b: seq<Datagram>)
      ensures Sent(n, a + b) == if AllGet(n, |a|) then a + Sent(n + |a|, b) else Sent(n, a)
      decreases a
    {
      if a == [] {
        assert a + b == b;
      } else {
        SentAppend(n + 1, a[1..], b);
        assert (a + b)[0] == a[0] && (a + b)[1..] == a[1..] + b;
        assert AllGet(n, |a|) <==> Gets(n) && AllGet(n + 1, |a[1..]|);
      }
    }

    // Of datagrams numbered from n on, the c-th is the first that does not get out.
    ghost predicate StopsAt(n: nat, count: nat, c: nat) {
      c < count && !Gets(n + c) && forall i :: n <= i < n + c ==> Gets(i)
    }

    /** What leaves of a plan: all of it, or everything up to and including the first failing datagram. */
    lemma {:induction false} SentExactly(n: nat, plan: seq<Datagram>)
      ensures AllGet(n, |plan|) ==> Sent(n, plan) == plan
      ensures !AllGet(n, |plan|) ==> exists c: nat :: StopsAt(n, |plan|, c) && Sent(n, plan) == plan[..c + 1]
      decreases plan
    {
      if AllGet(n, |plan|) {
        SentWhole(n, plan);
      } else if !Gets(n) {
        assert StopsAt(n, |plan|, 0) && plan[..1] == [plan[0]];
      } else {
        SentExactly(n + 1, plan[1..]);
        var c: nat :| StopsAt(n + 1, |plan[1..]|, c) && Sent(n + 1, plan[1..]) == plan[1..][..c + 1];
        assert StopsAt(n, |plan|, c + 1) && plan[..c + 2] == [plan[0]] + plan[1..][..c + 1];
      }
    }

    lemma AllGetAppend(n: nat, a: nat, b: nat)
      ensures AllGet(n, a + b) <==> AllGet(n, a) && AllGet(n + a, b)
    {
    }

    lemma SentWhole(n: nat, a: seq<Datagram>)
      requires AllGet(n, |a|)
      ensures Sent(n, a) == a
    {
      SentAppend(n, a, []);
      assert a + [] == a;
    }

    lemma SentUpTo(n: nat, plan: seq<Datagram>, c: nat)
      requires c < |plan| && AllGet(n, c) && !Gets(n + c)
      ensures Sent(n, plan) == plan[..c + 1] && !AllGet(n, |plan|)
    {
      assert plan == plan[..c] + plan[c..];
      SentAppend(n, plan[..c], plan[c..]);
      assert plan[..c + 1] == plan[..c] + [plan[c]];
    }

    lemma PlanAppend(n: nat, isCone: bool, a: seq<(nat, Ip)>, b: seq<(nat, Ip)>)
      ensures Plan(n, isCone, a + b) == Plan(n, isCone, a) + Plan(n + |Plan(n, isCone, a)|, isCone, b)
    {
      FlatAppend(Bursts(isCone), n, a, b);
    }

    lemma DeliversOne(before: seq<Datagram>, isCone: bool, target: (nat, Ip), log: seq<Datagram>, ok: bool)
      requires log == before + Sent(|before|, Burst(|before|, isCone, target))
      requires ok == AllGet(|before|, |Burst(|before|, isCone, target)|)
      ensures Delivers(before, isCone, [target], log, ok)
    {
      FlatOne(Bursts(isCone), |before|, target);
    }

    // Deliveries compose: the second part follows the first, or is left out after an error.
    lemma DeliversThen(before: seq<Datagram>, isCone: bool, a: seq<(nat, Ip)>, mid: seq<Datagram>,
                       b: seq<(nat, Ip)>, log: seq<Datagram>, ok: bool)
      requires Delivers(before, isCone, a, mid, true) && Delivers(mid, isCone, b, log, ok)
      ensures Delivers(before, isCone, a + b, log, ok)
    {
      var n := |before|;
      var first := Plan(n, isCone, a);
      SentWhole(n, first);
      assert mid == before + first && |mid| == n + |first|;
      var second := Plan(|mid|, isCone, b);
      var rest := Sent(|mid|, second);
      assert log == (before + first) + rest;
      Reassociate(before, first, rest);
      PlanAppend(n, isCone, a, b);
      SentAppend(n, first, second);
      AllGetAppend(n, |first|, |second|);
    }

    lemma DeliversCut(before: seq<Datagram>, isCone: bool, a: seq<(nat, Ip)>, b: seq<(nat, Ip)>, log: seq<Datagram>)
      requires Delivers(before, isCone, a, log, false)
      ensures Delivers(before, isCone, a + b, log, false)
    {
      var n := |before|;
      var first := Plan(n, isCone, a);
      PlanAppend(n, isCone, a, b);
      var second := Plan(n + |first|, isCone, b);
      SentAppend(n, first, second);
      AllGetAppend(n, |first|, |second|);
    }

    // One more target, all earlier ones having been sent.
    lemma TargetStep(before: seq<Datagram>, isCone: bool, all: seq<(nat, Ip)>, c: nat,
                     mid: seq<Datagram>, log: seq<Datagram>, ok: bool)
      requires c < |all| && Delivers(before, isCone, all[..c], mid, true)
      requires log == mid + Sent(|mid|, Burst(|mid|, isCone, all[c]))
      requires ok == AllGet(|mid|, |Burst(|mid|, isCone, all[c])|)
      ensures ok ==> Delivers(before, isCone, all[..c + 1], log, true)
      ensures !ok ==> Delivers(before, isCone, all, log, false)
    {
      DeliversOne(mid, isCone, all[c], log, ok);
      DeliversThen(before, isCone, all[..c], mid, [all[c]], log, ok);
      assert all[..c + 1] == all[..c] + [all[c]];
      if !ok {
        DeliversCut(before, isCone, all[..c + 1], all[c + 1..], log);
        assert all == all[..c + 1] + all[c + 1..];
      }
    }
  }

  function OnSockets(sockets: seq<nat>, target: (nat, Ip)): seq<Datagram> {
    seq(|sockets|, i requires 0 <= i < |sockets| => Datagram(Some(sockets[i]), target.1, target.0))
  }

  // One datagram from the default socket and one from each of these.
  function Everywhere(list: seq<nat>, ip: Ip, port: nat): (r: seq<Datagram>)
    ensures |r| == 1 + |list| && r[0] == Datagram(None, ip, port)
    ensures forall i :: 0 <= i < |list| ==> r[1 + i] == Datagram(Some(list[i]), ip, port)
  {
    [Datagram(None, ip, port)] + OnSockets(list, (port, ip))
  }

  class Wire {
    const world: World
    var log: seq<Datagram>

    constructor (world: World)
      ensures log == [] && this.world == world
    {
      this.world := world;
      log := [];
    }

    method SendToAddr(ip: Ip, port: nat) returns (ok: bool)
      modifies this`log
      ensures log == old(log) + [Datagram(None, ip, port)] && ok == world.Gets(|old(log)|)
    {
      var tries;
      ok, tries := SendAll(world.attempts(|log|));
      log := log + [Datagram(None, ip, port)];
    }

    /** The default socket first, then every shared socket in order, up to the first datagram that does
        not get out. */
    method SendToAddrAll(ip: Ip, port: nat) returns (ok: bool)
      modifies this`log
      ensures ok ==> log == old(log) + Everywhere(world.shared(|old(log)| + 1), ip, port)
      ensures ok <==> forall i :: |old(log)| <= i <= |old(log)| + |world.shared(|old(log)| + 1)| ==> world.Gets(i)
      ensures !ok ==>
                var whole := Everywhere(world.shared(|old(log)| + 1), ip, port);
                exists c: nat :: world.StopsAt(|old(log)|, |whole|, c) && log == old(log) + whole[..c + 1]
      ensures log == old(log) + world.Sent(|old(log)|, world.Burst(|old(log)|, false, (port, ip)))
      ensures ok == world.AllGet(|old(log)|, |world.Burst(|old(log)|, false, (port, ip))|)
    {
      ghost var n := |log|;
      ghost var burst := world.Burst(n, false, (port, ip));
      assert burst == Everywhere(world.shared(n + 1), ip, port);
      world.SentExactly(n, burst);
      ok := SendToAddr(ip, port);
      if !ok {
        world.SentUpTo(n, burst, 0);
        return;
      }
      ok := SendToShared(world.shared(|log|), ip, port, n, burst);
      assert old(log) == old(log) + burst[..0];
    }

    // The rest of a burst, over the shared sockets, its first datagram being out.
    method SendToShared(list: seq<nat>, ip: Ip, port: nat, ghost n: nat, ghost burst: seq<Datagram>) returns (ok: bool)
      requires |burst| == 1 + |list| && |log| == n + 1 && log[n] == burst[0] && world.Gets(n)
      requires forall i :: 0 <= i < |list| ==> burst[1 + i] == Datagram(Some(list[i]), ip, port)
      modifies this`log
      ensures log == old(log)[..n] + world.Sent(n, burst)
      ensures ok == world.AllGet(n, |burst|)
    {
      for i := 0 to |list|
        invariant log == old(log)[..n] + burst[..1 + i]
        invariant world.AllGet(n, 1 + i)
      {
        var tries;
        ok, tries := SendAll(world.attempts(|log|));
        log := log + [Datagram(Some(list[i]), ip, port)];
        assert burst[..2 + i] == burst[..1 + i] + [burst[1 + i]];
        if !ok {
          world.SentUpTo(n, burst, 1 + i);
          return;
        }
      }
      assert burst[..1 + |list|] == burst;
      world.SentWhole(n, burst);
      ok := true;
    }

    // The c-th of these targets, after the ones before it.
    method SendNext(isCone: bool, ip: Ip, port: nat, ghost before: seq<Datagram>, ghost all: seq<(nat, Ip)>,
                    ghost c: nat) returns (ok: bool)
      requires c < |all| && all[c] == (port, ip) && world.Delivers(before, isCone, all[..c], log, true)
      modifies this`log
      ensures world.Delivers(before, isCone, if ok then all[..c + 1] else all, log, ok)
    {
      ghost var mid := log;
      ok := SendToTarget(isCone, ip, port);
      world.TargetStep(before, isCone, all, c, mid, log, ok);
    }

    // To the default socket, or through every socket when this side is not a cone.
    method SendToTarget(isCone: bool, ip: Ip, port: nat) returns (ok: bool)
      modifies this`log
      ensures log == old(log) + world.Sent(|old(log)|, world.Burst(|old(log)|, isCone, (port, ip)))
      ensures ok == world.AllGet(|old(log)|, |world.Burst(|old(log)|, isCone, (port, ip))|)
    {
      ghost var n := |log|;
      if isCone {
        ok := SendToAddr(ip, port);
        OneDatagram(world, n, (port, ip));
      } else {
        ok := SendToAddrAll(ip, port);
      }
    }
  }

  // The bounds of a punch in each mode: predicted ports and window size.
  function Near(isCone: bool): nat {
    if isCone then 60 else 5
  }

  function Wide(isCone: bool): nat {
    if isCone then 800 else 10
  }

  // The predicted ports tried, when the interval is narrow enough.
  function NearTargets(info: NatInfo, predicted: seq<nat>, isCone: bool): seq<(nat, Ip)>
    requires Picks(info.publicPort, info.publicPortRange, Near(isCone)) <= |predicted|
  {
    if info.publicPortRange < Near(isCone) * 4
    then Tried(predicted[..Picks(info.publicPort, info.publicPortRange, Near(isCone))], info.publicIps, Near(isCone))
    else []
  }

  function WindowTargets(ports: seq<nat>, cursor: nat, info: NatInfo, isCone: bool): seq<(nat, Ip)>
    requires cursor <= |ports|
  {
    Tried(Window(ports, cursor, Wide(isCone)), info.publicIps, Wide(isCone))
  }

  function Targets(ports: seq<nat>, cursor: nat, info: NatInfo, predicted: seq<nat>, isCone: bool): seq<(nat, Ip)>
    requires cursor <= |ports|
    requires Picks(info.publicPort, info.publicPortRange, Near(isCone)) <= |predicted|
  {
    NearTargets(info, predicted, isCone) + WindowTargets(ports, cursor, info, isCone)
  }

  // The datagram to the local address, left out when that is all zero.
  function Local(info: NatInfo): (r: seq<Datagram>)
    ensures info.localIp.bits == 0 && info.localPort == 0 ==> r == []
    ensures info.localIp.bits != 0 || info.localPort != 0 ==> r == [Datagram(None, info.localIp, info.localPort)]
  {
    if !info.localIp.Unspecified() || info.localPort != 0
    then [Datagram(None, info.localIp, info.localPort)] else []
  }

  function ConeTargets(info: NatInfo): seq<(nat, Ip)> {
    seq(|info.publicIps|, i requires 0 <= i < |info.publicIps| => (info.publicPort, info.publicIps[i]))
  }

  predicate IsU16(info: NatInfo) {
    info.publicPort < TOP && info.publicPortRange < TOP
  }

  // A vector holding each of the ports 1 to 65535 once.
  ghost predicate AllPorts(ports: seq<nat>) {
    |ports| == 65535 && B.Distinct(ports) && forall p :: p in ports <==> 1 <= p <= 65535
  }

  class Puncher {
    const wire: Wire
    const portVec: seq<nat>
    var portIndex: map<Id, nat>
    ghost var calls: map<Id, seq<nat>>  // window sizes of the successful symmetric punches of each id

    ghost predicate Valid()
      reads this
    {
      AllPorts(portVec) && portIndex.Keys >= calls.Keys
      && (forall id <- portIndex :: portIndex[id] == Cursor(65535, Calls(id)))
    }

    ghost function Calls(id: Id): seq<nat>
      reads this
    {
      if id in calls then calls[id] else []
    }

    // Builds the vector of all ports; shuffled is what the shuffle makes of it.
    constructor (wire: Wire, shuffled: seq<nat>)
      requires multiset(shuffled) == multiset(seq(65534, i => i + 1) + [65535])
      ensures Valid() && this.wire == wire && portVec == shuffled && portIndex == map[] && calls == map[]
    {
      this.wire := wire;
      portVec := shuffled;
      portIndex, calls := map[], map[];
      new;
      ShuffledPorts(shuffled);
    }

    // try_clone: the same ports in another order, and no cursors.
    constructor Clone(other: Puncher, shuffled: seq<nat>)
      requires other.Valid() && multiset(shuffled) == multiset(other.portVec)
      ensures Valid() && wire == other.wire && portVec == shuffled && portIndex == map[] && calls == map[]
    {
      wire := other.wire;
      portVec := shuffled;
      portIndex, calls := map[], map[];
      new;
      Reshuffled(other.portVec, shuffled);
    }

    // The nested send loop.
    method PunchPorts(ports: seq<nat>, ips: seq<Ip>, max: nat, isCone: bool) returns (ok: bool)
      requires max > 0
      modifies wire`log
      ensures wire.world.Delivers(old(wire.log), isCone, Tried(ports, ips, max), wire.log, ok)
    {
      ghost var all := Tried(ports, ips, max);
      ghost var before := wire.log;
      var count := 0;
      PairsLength(ports, ips);
      for i := 0 to |ports|
        invariant count == i * |ips| && count < max && count <= |all|
        invariant wire.world.Delivers(before, isCone, all[..count], wire.log, true)
      {
        ghost var row := count;
        for j := 0 to |ips|
          invariant count == row + j && count < max && count <= |all|
          invariant wire.world.Delivers(before, isCone, all[..count], wire.log, true)
        {
          InPlace(ports, ips, max, i, j, count);
          count := count + 1;
          if count == max {
            assert all[..count - 1] == all;
            return true;
          }
          ok := wire.SendNext(isCone, ips[j], ports[i], before, all, count - 1);
          if !ok {
            return;
          }
        }
        Distribute(i + 1, |ips|);
      }
      assert all[..count] == all;
      ok := true;
    }

    /** One punch. first and second are the two status loads; shuffled is what the shuffle makes of
        the predicted ports; checks says whether the build checks its arithmetic. */
    method Punch(id: Id, info: NatInfo, first: Status, second: Status, shuffled: seq<nat>, checks: bool)
      returns (r: Outcome)
      requires Valid() && IsU16(info)
      requires multiset(shuffled) == multiset(Candidates(info.publicPort, info.publicPortRange))
      modifies this, wire`log
      ensures Valid()
      ensures first.Close? <==> r.Closed?
      ensures r.Closed? ==> wire.log == old(wire.log) && portIndex == old(portIndex) && calls == old(calls)
      ensures !r.Closed? && info.natType.ConeNat? ==> portIndex == old(portIndex) && calls == old(calls)
      ensures !r.Closed? && info.natType.ConeNat? ==>
                wire.world.Delivers(old(wire.log) + Local(info), true, ConeTargets(info), wire.log, r.Ok?)
      ensures !r.Closed? && info.natType.ConeNat? && r.Ok? ==>
                wire.log == old(wire.log) + Local(info) + AllTo(info.publicIps, info.publicPort)
      ensures !r.Closed? && info.natType.ConeNat? && !r.Ok? ==>
                exists c: nat ::
                  wire.world.StopsAt(|old(wire.log) + Local(info)|, |info.publicIps|, c)
                  && wire.log == old(wire.log) + Local(info) + AllTo(info.publicIps, info.publicPort)[..c + 1]
      ensures r.Panicked? <==>
                checks && !r.Closed? && info.natType.SymmetricNat? && info.publicPort == info.publicPortRange == 0
      ensures r.Panicked? ==>
                wire.log == old(wire.log) + Local(info) && portIndex == old(portIndex) && calls == old(calls)
      ensures !r.Closed? && !r.Panicked? && info.natType.SymmetricNat? ==>
                SymmetricPunch(wire.world, old(wire.log), portVec, old(Calls(id)), info, shuffled, second.Cone?,
                               wire.log, r.Ok?)
      ensures !r.Closed? && !r.Panicked? && info.natType.SymmetricNat? ==>
                calls == if r.Ok? then old(calls)[id := old(Calls(id)) + [Wide(second.Cone?)]] else old(calls)
    {
      if first.Close? {
        return Closed;
      }
      if !info.localIp.Unspecified() || info.localPort != 0 {
        var _ := wire.SendToAddr(info.localIp, info.localPort);
      }
      var isCone := second.Cone?;
      ghost var start0 := wire.log;
      assert start0 == old(wire.log) + Local(info);
      match info.natType {
        case SymmetricNat =>
          r := PunchSymmetric(id, info, isCone, shuffled, checks);
        case ConeNat =>
          r := PunchCone(info, old(wire.log));
      }
    }

    // The branch for a peer behind a cone NAT.
    method PunchCone(info: NatInfo, ghost before: seq<Datagram>) returns (r: Outcome)
      requires wire.log == before + Local(info)
      modifies wire`log
      ensures r.Ok? || r.SendFailed?
      ensures r.Ok? ==> wire.log == before + Local(info) + AllTo(info.publicIps, info.publicPort)
      ensures r.SendFailed? ==>
                exists c: nat ::
                  wire.world.StopsAt(|before + Local(info)|, |info.publicIps|, c)
                  && wire.log == before + Local(info) + AllTo(info.publicIps, info.publicPort)[..c + 1]
      ensures wire.world.Delivers(before + Local(info), true, ConeTargets(info), wire.log, r.Ok?)
    {
      ghost var start, all := wire.log, ConeTargets(info);
      for i := 0 to |info.publicIps|
        invariant wire.world.Delivers(start, true, all[..i], wire.log, true)
      {
        ghost var mid := wire.log;
        var sent := wire.SendToAddr(info.publicIps[i], info.publicPort);
        OneDatagram(wire.world, |mid|, all[i]);
        wire.world.TargetStep(start, true, all, i, mid, wire.log, sent);
        if !sent {
          ConeSpelled(wire.world, before, info, wire.log, false);
          return SendFailed;
        }
      }
      assert all[..|info.publicIps|] == all;
      ConeSpelled(wire.world, before, info, wire.log, true);
      r := Ok;
    }

    // The branch for a peer behind a symmetric NAT: predicted ports first, then the window.
    method PunchSymmetric(id: Id, info: NatInfo, isCone: bool, shuffled: seq<nat>, checks: bool)
      returns (r: Outcome)
      requires Valid() && IsU16(info)
      requires multiset(shuffled) == multiset(Candidates(info.publicPort, info.publicPortRange))
      modifies this, wire`log
      ensures Valid() && !r.Closed?
      ensures Cursor(65535, old(Calls(id))) < 65535
      ensures Picks(info.publicPort, info.publicPortRange, Near(isCone)) <= |shuffled|
      ensures r.Panicked? <==> checks && info.publicPort == info.publicPortRange == 0
      ensures r.Panicked? ==> wire.log == old(wire.log) && portIndex == old(portIndex)
      ensures !r.Panicked? ==> wire.world.Delivers(old(wire.log), isCone,
                Targets(portVec, Cursor(65535, old(Calls(id))), info, shuffled, isCone), wire.log, r.Ok?)
      ensures calls == if r.Ok? then old(calls)[id := old(Calls(id)) + [Wide(isCone)]] else old(calls)
    {
      CursorInBounds(65535, Calls(id));
      PicksFit(info, shuffled, Near(isCone));
      ghost var near := NearTargets(info, shuffled, isCone);
      ghost var window := WindowTargets(portVec, Cursor(65535, Calls(id)), info, isCone);
      r := PunchNear(info, isCone, shuffled, checks);
      if !r.Ok? {
        if r.SendFailed? {
          wire.world.DeliversCut(old(wire.log), isCone, near, window, wire.log);
        }
        return;
      }
      ghost var mid := wire.log;
      var sent := PunchWindow(id, info, isCone);
      wire.world.DeliversThen(old(wire.log), isCone, near, mid, window, wire.log, sent);
      return if sent then Ok else SendFailed;
    }

    method PunchNear(info: NatInfo, isCone: bool, shuffled: seq<nat>, checks: bool) returns (r: Outcome)
      requires IsU16(info)
      requires multiset(shuffled) == multiset(Candidates(info.publicPort, info.publicPortRange))
      modifies wire`log
      ensures Picks(info.publicPort, info.publicPortRange, Near(isCone)) <= |shuffled|
      ensures !r.Closed? && (r.Panicked? <==> checks && info.publicPort == info.publicPortRange == 0)
      ensures r.Panicked? ==> wire.log == old(wire.log)
      ensures !r.Panicked? ==>
                wire.world.Delivers(old(wire.log), isCone, NearTargets(info, shuffled, isCone), wire.log, r.Ok?)
    {
      var maxK1 := if isCone then 60 else 5;
      PicksFit(info, shuffled, maxK1);
      if info.publicPortRange >= maxK1 * 4 {
        return Ok;
      }
      var minPort := if info.publicPort > info.publicPortRange then info.publicPort - info.publicPortRange else 1;
      var sum := info.publicPort + info.publicPortRange;
      var maxPort := if sum >= TOP then 65535 else sum;
      if checks && (maxPort < minPort || maxPort - minPort + 1 >= TOP) {
        return Panicked;
      }
      var span := (maxPort - minPort + 1) % TOP;
      var k := if span > maxK1 then maxK1 else span;
      var sent := PunchPorts(shuffled[..k], info.publicIps, maxK1, isCone);
      r := if sent then Ok else SendFailed;
    }

    method PunchWindow(id: Id, info: NatInfo, isCone: bool) returns (sent: bool)
      requires Valid()
      modifies this, wire`log
      ensures Valid() && Cursor(65535, old(Calls(id))) < 65535
      ensures wire.world.Delivers(old(wire.log), isCone,
                WindowTargets(portVec, Cursor(65535, old(Calls(id))), info, isCone), wire.log, sent)
      ensures calls == if sent then old(calls)[id := old(Calls(id)) + [Wide(isCone)]] else old(calls)
    {
      ghost var done := Calls(id);
      var maxK2 := if isCone then 800 else 10;
      var start, end, index := NextWindow(id, maxK2);
      sent := PunchPorts(portVec[start..end], info.publicIps, maxK2, isCone);
      if sent {
        Advance(id, maxK2, index);
      }
    }

    // The slice at the id's cursor, which starts at 0, and the cursor to store if it is sent.
    method NextWindow(id: Id, k: nat) returns (start: nat, end: nat, index: nat)
      requires Valid()
      modifies this`portIndex
      ensures Valid() && id in portIndex
      ensures start == Cursor(65535, Calls(id)) < 65535
      ensures start <= end == End(65535, start, k) <= |portVec| && index == Next(65535, start, k)
    {
      CursorInBounds(65535, Calls(id));
      if id !in portIndex {
        portIndex := portIndex[id := 0];
      }
      start := portIndex[id];
      end := start + k;
      index := end;
      if end >= |portVec| {
        end := |portVec|;
        index := 0;
      }
    }

    method Advance(id: Id, k: nat, index: nat)
      requires Valid() && id in portIndex && index == Next(65535, Cursor(65535, Calls(id)), k)
      modifies this`portIndex, this`calls
      ensures Valid() && calls == old(calls)[id := old(Calls(id)) + [k]]
    {
      CursorAfter(65535, Calls(id), k);
      portIndex := portIndex[id := index];
      calls := calls[id := Calls(id) + [k]];
    }
  }

  lemma {:induction false} ConePlan(world: World, n: nat, targets: seq<(nat, Ip)>)
    ensures |world.Plan(n, true, targets)| == |targets|
    ensures forall i :: 0 <= i < |targets| ==>
              world.Plan(n, true, targets)[i] == Datagram(None, targets[i].1, targets[i].0)
    decreases targets
  {
    if targets != [] {
      ConePlan(world, n + 1, targets[1..]);
      assert world.Burst(n, true, targets[0]) == [Datagram(None, targets[0].1, targets[0].0)];
    }
  }

  // A punch of a cone peer: its public port on each of its ips, through the default socket.
  lemma ConeSpelled(world: World, before: seq<Datagram>, info: NatInfo, log: seq<Datagram>, ok: bool)
    requires world.Delivers(before + Local(info), true, ConeTargets(info), log, ok)
    ensures ok ==> log == before + Local(info) + AllTo(info.publicIps, info.publicPort)
    ensures !ok ==>
              exists c: nat ::
                world.StopsAt(|before + Local(info)|, |info.publicIps|, c)
                && log == before + Local(info) + AllTo(info.publicIps, info.publicPort)[..c + 1]
  {
    var n := |before + Local(info)|;
    ConePlan(world, n, ConeTargets(info));
    assert world.Plan(n, true, ConeTargets(info)) == AllTo(info.publicIps, info.publicPort);
    world.SentExactly(n, world.Plan(n, true, ConeTargets(info)));
  }

  // One datagram from the default socket to that port on each ip.
  function AllTo(ips: seq<Ip>, port: nat): (r: seq<Datagram>)
    ensures |r| == |ips| && forall i :: 0 <= i < |ips| ==> r[i] == Datagram(None, ips[i], port)
  {
    seq(|ips|, i requires 0 <= i < |ips| => Datagram(None, ips[i], port))
  }

  // What a symmetric punch sends, given the punches of the same id so far.
  ghost predicate SymmetricPunch(world: World, before: seq<Datagram>, ports: seq<nat>, calls: seq<nat>, info: NatInfo,
                                 predicted: seq<nat>, isCone: bool, log: seq<Datagram>, ok: bool) {
    Cursor(65535, calls) < 65535 == |ports|
    && Picks(info.publicPort, info.publicPortRange, Near(isCone)) <= |predicted|
    && world.Delivers(before + Local(info), isCone, Targets(ports, Cursor(65535, calls), info, predicted, isCone),
                      log, ok)
  }

  // Where the loop over ports and ips stands after count targets.
  lemma InPlace(ports: seq<nat>, ips: seq<Ip>, max: nat, i: nat, j: nat, count: nat)
    requires i < |ports| && j < |ips| && count == i * |ips| + j && count < max
    ensures count + 1 == max ==> |Tried(ports, ips, max)| == count
    ensures count + 1 < max ==>
              count < |Tried(ports, ips, max)| && Tried(ports, ips, max)[count] == (ports[i], ips[j])
  {
    PairAt(ports, ips, i, j);
  }

  lemma OneDatagram(world: World, n: nat, target: (nat, Ip))
    ensures world.Burst(n, true, target) == [Datagram(None, target.1, target.0)]
    ensures world.Sent(n, world.Burst(n, true, target)) == world.Burst(n, true, target)
    ensures world.AllGet(n, 1) == world.Gets(n)
  {
  }

  lemma ShuffledPorts(shuffled: seq<nat>)
    requires multiset(shuffled) == multiset(seq(65534, i => i + 1) + [65535])
    ensures AllPorts(shuffled)
  {
    var built: seq<nat> := seq(65534, i => i + 1) + [65535];
    forall p | 1 <= p <= 65535
      ensures p in built
    {
      assert built[p - 1] == p;
    }
    Reshuffled(built, shuffled);
  }

  lemma Reshuffled(a: seq<nat>, b: seq<nat>)
    requires AllPorts(a) && multiset(b) == multiset(a)
    ensures AllPorts(b)
  {
    assert |multiset(a)| == |a| && |multiset(b)| == |b|;
    PermutationDistinct(a, b);
    assert forall p :: p in b <==> p in multiset(b);
    assert forall p :: p in a <==> p in multiset(a);
  }

  lemma PicksFit(info: NatInfo, shuffled: seq<nat>, most: nat)
    requires IsU16(info)
    requires multiset(shuffled) == multiset(Candidates(info.publicPort, info.publicPortRange))
    ensures Picks(info.publicPort, info.publicPortRange, most) <= |shuffled|
  {
    if info.publicPort == 0 && info.publicPortRange == 0 {
      SpanFits(0, 0, most);
    } else {
      PredictionInterval(info.publicPort, info.publicPortRange, most, shuffled);
    }
  }

  // Cycles of the class's own window sizes

  /** A cycle over the 65535 ports takes 82 cone punches or 6554 non-cone ones. */
  lemma CycleLengths()
    ensures Wraps(65535, Constant(Wide(true), 82)) == 1 && Wraps(65535, Constant(Wide(true), 81)) == 0
    ensures Wraps(65535, Constant(Wide(false), 6554)) == 1 && Wraps(65535, Constant(Wide(false), 6553)) == 0
  {
    CycleLength(65535, 800, 82);
    CycleLength(65535, 10, 6554);
  }

  /** The last window of a cycle is short, so a cone cycle with one ip a punch tries 65454 distinct
      targets and a non-cone cycle 58982: one port of every full window is left out. */
  lemma CycleCounts(ports: seq<nat>, ips: seq<seq<Ip>>, isCone: bool)
    requires AllPorts(ports) && OneIpEach(ips) && |ips| == if isCone then 82 else 6554
    ensures |TriedOver(ports, Constant(Wide(isCone), |ips|), ips)| == if isCone then 65454 else 58982
    ensures B.Distinct(TriedOver(ports, Constant(Wide(isCone), |ips|), ips))
  {
    CycleCoverage(ports, ips, Wide(isCone));
    LastWindow(ports, ips, Wide(isCone), |ips| - 1);
  }

  // What a run of punches puts on the wire

  // The targets of the datagrams sent through the default socket, in order.
  function OnDefault(log: seq<Datagram>): seq<(nat, Ip)> {
    if log == [] then []
    else TargetOn(log[0]) + OnDefault(log[1..])
  }

  function TargetOn(d: Datagram): seq<(nat, Ip)> {
    if d.socket.None? then [(d.port, d.ip)] else []
  }

  lemma {:induction false} OnDefaultAppend(a: seq<Datagram>, b: seq<Datagram>)
    ensures OnDefault(a + b) == OnDefault(a) + OnDefault(b)
    decreases a
  {
    if a == [] {
      assert a + b == b;
    } else {
      OnDefaultAppend(a[1..], b);
      assert (a + b)[0] == a[0] && (a + b)[1..] == a[1..] + b;
      assert OnDefault(a + b) == TargetOn(a[0]) + OnDefault(a[1..] + b);
      Reassociate(TargetOn(a[0]), OnDefault(a[1..]), OnDefault(b));
    }
  }

  lemma {:induction false} SharedOnly(sockets: seq<nat>, target: (nat, Ip))
    ensures OnDefault(OnSockets(sockets, target)) == []
    decreases sockets
  {
    if sockets != [] {
      SharedOnly(sockets[1..], target);
      assert OnSockets(sockets, target)[1..] == OnSockets(sockets[1..], target);
    }
  }

  lemma BurstOnDefault(world: World, n: nat, isCone: bool, target: (nat, Ip))
    ensures OnDefault(world.Burst(n, isCone, target)) == [target]
  {
    var shared := if isCone then [] else OnSockets(world.shared(n + 1), target);
    var one := [Datagram(None, target.1, target.0)];
    SharedOnly(if isCone then [] else world.shared(n + 1), target);
    OnDefaultAppend(one, shared);
    assert one[1..] == [];
  }

  // Each target has one datagram on the default socket.
  lemma {:induction false} PlanOnDefault(world: World, n: nat, isCone: bool, targets: seq<(nat, Ip)>)
    ensures OnDefault(world.Plan(n, isCone, targets)) == targets
    decreases targets
  {
    if targets != [] {
      var first := world.Burst(n, isCone, targets[0]);
      BurstOnDefault(world, n, isCone, targets[0]);
      PlanOnDefault(world, n + |first|, isCone, targets[1..]);
      OnDefaultAppend(first, world.Plan(n + |first|, isCone, targets[1..]));
    }
  }

  // At that position of the log the target goes out from the default socket and then from every socket
  // shared at that moment.
  ghost predicate FromEverySocket(world: World, log: seq<Datagram>, p: nat, target: (nat, Ip)) {
    var list := world.shared(p + 1);
    p + |list| < |log| && log[p] == Datagram(None, target.1, target.0)
    && forall k :: 0 <= k < |list| ==> log[p + 1 + k] == Datagram(Some(list[k]), target.1, target.0)
  }

  lemma {:induction false} PlanReaches(world: World, before: seq<Datagram>, targets: seq<(nat, Ip)>, i: nat)
    returns (p: nat)
    requires i < |targets|
    ensures |before| <= p && FromEverySocket(world, before + world.Plan(|before|, false, targets), p, targets[i])
    decreases targets
  {
    var first := world.Burst(|before|, false, targets[0]);
    var rest := world.Plan(|before| + |first|, false, targets[1..]);
    assert world.Plan(|before|, false, targets) == first + rest;
    Reassociate(before, first, rest);
    if i == 0 {
      p := |before|;
      BurstReaches(world, before, rest, targets[0]);
    } else {
      p := PlanReaches(world, before + first, targets[1..], i - 1);
    }
  }

  lemma BurstReaches(world: World, before: seq<Datagram>, rest: seq<Datagram>, target: (nat, Ip))
    ensures FromEverySocket(world, before + world.Burst(|before|, false, target) + rest, |before|, target)
  {
    var first := world.Burst(|before|, false, target);
    assert first[0] == Datagram(None, target.1, target.0);
    assert forall k :: 0 <= k < |first| ==> (before + first + rest)[|before| + k] == first[k];
  }

  /** A successful symmetric punch that found this side not to be a cone has sent to each of its targets
      from the default socket and from every shared socket. */
  lemma EverySocket(world: World, before: seq<Datagram>, ports: seq<nat>, calls: seq<nat>, info: NatInfo,
                    predicted: seq<nat>, log: seq<Datagram>, i: nat) returns (p: nat)
    requires SymmetricPunch(world, before, ports, calls, info, predicted, false, log, true)
    requires i < |Targets(ports, Cursor(65535, calls), info, predicted, false)|
    ensures |before| <= p
    ensures FromEverySocket(world, log, p, Targets(ports, Cursor(65535, calls), info, predicted, false)[i])
  {
    var start := before + Local(info);
    var targets := Targets(ports, Cursor(65535, calls), info, predicted, false);
    world.SentWhole(|start|, world.Plan(|start|, false, targets));
    p := PlanReaches(world, start, targets, i);
  }

  /** The targets of a symmetric punch in numbers: of the predicted ports, when the range is below 240
      (20 when not a cone), as many as there are candidates but at most 60 (5), then the 800 (10) ports at
      the cursor, clamped to the end; each with the pass over the ips that stops at that bound. */
  lemma TargetsInNumbers(ports: seq<nat>, cursor: nat, info: NatInfo, predicted: seq<nat>, isCone: bool)
    requires cursor <= |ports| && IsU16(info) && !(info.publicPort == 0 && info.publicPortRange == 0)
    requires multiset(predicted) == multiset(Candidates(info.publicPort, info.publicPortRange))
    ensures Picks(info.publicPort, info.publicPortRange, Near(isCone)) <= |predicted|
    ensures var near := if isCone then 60 else 5;
            var wide := if isCone then 800 else 10;
            Targets(ports, cursor, info, predicted, isCone)
            == (if info.publicPortRange < (if isCone then 240 else 20)
                then Tried(predicted[..if |predicted| > near then near else |predicted|], info.publicIps, near) else [])
               + Tried(ports[cursor..if cursor + wide >= |ports| then |ports| else cursor + wide], info.publicIps, wide)
  {
    PredictionInterval(info.publicPort, info.publicPortRange, Near(isCone), predicted);
  }

  // One punch of a run: its arguments, and the wire's log before and after it.
  datatype Call = Call(info: NatInfo, predicted: seq<nat>, isCone: bool, before: seq<Datagram>, log: seq<Datagram>)

  function Widths(run: seq<Call>): seq<nat> {
    if run == [] then [] else Widths(B.Front(run)) + [Wide(B.Last(run).isCone)]
  }

  function IpLists(run: seq<Call>): seq<seq<Ip>> {
    if run == [] then [] else IpLists(B.Front(run)) + [B.Last(run).info.publicIps]
  }

  // Successful symmetric punches of one id. Whatever else is sent between two of them does not matter.
  ghost predicate Run(world: World, ports: seq<nat>, run: seq<Call>) {
    run == []
    || (Run(world, ports, B.Front(run)) && RunCall(world, ports, B.Last(run), Widths(B.Front(run))))
  }

  ghost predicate RunCall(world: World, ports: seq<nat>, c: Call, calls: seq<nat>) {
    SymmetricPunch(world, c.before, ports, calls, c.info, c.predicted, c.isCone, c.log, true)
  }

  // The targets it puts on the wire after the predicted ones.
  function OfWindow(c: Call): seq<(nat, Ip)> {
    if |c.before + Local(c.info)| <= |c.log|
       && Picks(c.info.publicPort, c.info.publicPortRange, Near(c.isCone)) <= |c.predicted|
    then
      var sent := OnDefault(c.log[|c.before + Local(c.info)|..]);
      var near := NearTargets(c.info, c.predicted, c.isCone);
      if near <= sent then sent[|near|..] else []
    else []
  }

  function OfWindows(run: seq<Call>): seq<(nat, Ip)> {
    if run == [] then [] else OfWindows(B.Front(run)) + OfWindow(B.Last(run))
  }

  /** A successful symmetric punch has put exactly its targets on the wire, in order, after the
      datagram for the local address; the last of them are those of its window. */
  lemma CallOnWire(world: World, ports: seq<nat>, c: Call, calls: seq<nat>)
    requires RunCall(world, ports, c, calls)
    ensures c.before + Local(c.info) <= c.log
    ensures OnDefault(c.log[|c.before + Local(c.info)|..])
            == Targets(ports, Cursor(65535, calls), c.info, c.predicted, c.isCone)
    ensures OfWindow(c) == WindowTargets(ports, Cursor(65535, calls), c.info, c.isCone)
  {
    var n := |c.before + Local(c.info)|;
    var targets := Targets(ports, Cursor(65535, calls), c.info, c.predicted, c.isCone);
    var plan := world.Plan(n, c.isCone, targets);
    world.SentWhole(n, plan);
    PlanOnDefault(world, n, c.isCone, targets);
    assert c.log[n..] == plan;
  }

  lemma WidthsPositive(run: seq<Call>)
    ensures Sizes(Widths(run)) && |Widths(run)| == |IpLists(run)| == |run|
  {
  }

  /** Over a run of successful symmetric punches of one id, the targets the windows put on the wire,
      end to end, are those the cursor's windows are said to try. */
  lemma {:induction false} RunOnWire(world: World, ports: seq<nat>, run: seq<Call>)
    requires ports != [] && Run(world, ports, run)
    ensures Sizes(Widths(run)) && |IpLists(run)| == |Widths(run)|
    ensures OfWindows(run) == TriedOver(ports, Widths(run), IpLists(run))
  {
    WidthsPositive(run);
    if run != [] {
      var f := B.Front(run);
      RunOnWire(world, ports, f);
      CallOnWire(world, ports, B.Last(run), Widths(f));
      assert B.Front(Widths(run)) == Widths(f) && B.Front(IpLists(run)) == IpLists(f);
    }
  }

  /** So the first cycle of an id, whose peer shows one ip at each punch, puts 65454 distinct window
      targets on the wire when all its punches find a cone, and 58982 when none does. */
  lemma CycleOnWire(world: World, ports: seq<nat>, run: seq<Call>, isCone: bool)
    requires AllPorts(ports) && Run(world, ports, run)
    requires |run| == (if isCone then 82 else 6554)
    requires forall c <- run :: c.isCone == isCone && |c.info.publicIps| == 1
    ensures B.Distinct(OfWindows(run)) && |OfWindows(run)| == if isCone then 65454 else 58982
  {
    SameWidths(run, isCone);
    RunOnWire(world, ports, run);
    CycleCounts(ports, IpLists(run), isCone);
  }

  lemma {:induction false} SameWidths(run: seq<Call>, isCone: bool)
    requires forall c <- run :: c.isCone == isCone && |c.info.publicIps| == 1
    ensures Widths(run) == Constant(Wide(isCone), |run|) && |IpLists(run)| == |run| && OneIpEach(IpLists(run))
  {
    if run != [] {
      assert forall c <- B.Front(run) :: c in run;
      SameWidths(B.Front(run), isCone);
      assert B.Last(run) in run;
    }
  }

  // The send budget

  lemma {:induction false} SentNoLonger(world: World, n: nat, plan: seq<Datagram>)
    ensures world.Sent(n, plan) <= plan
    decreases plan
  {
    if plan != [] {
      SentNoLonger(world, n + 1, plan[1..]);
    }
  }

  lemma {:induction false} PlanSize(world: World, n: nat, isCone: bool, targets: seq<(nat, Ip)>, most: nat)
    requires isCone || forall i :: |world.shared(i)| <= most
    ensures |world.Plan(n, isCone, targets)| <= |targets| * (1 + if isCone then 0 else most)
    ensures isCone ==> forall d <- world.Plan(n, isCone, targets) :: d.socket.None?
    decreases targets
  {
    if targets != [] {
      var first := world.Burst(n, isCone, targets[0]);
      PlanSize(world, n + |first|, isCone, targets[1..], most);
      assert world.Plan(n, isCone, targets) == first + world.Plan(n + |first|, isCone, targets[1..]);
      var each := 1 + if isCone then 0 else most;
      assert |targets| * each == (|targets| - 1) * each + each;
    }
  }

  lemma TargetsSize(ports: seq<nat>, cursor: nat, info: NatInfo, predicted: seq<nat>, isCone: bool)
    requires cursor <= |ports|
    requires Picks(info.publicPort, info.publicPortRange, Near(isCone)) <= |predicted|
    ensures |Targets(ports, cursor, info, predicted, isCone)| <= if isCone then 59 + 799 else 4 + 9
  {
  }

  /** Whatever the list of shared sockets and the status do meanwhile, a symmetric punch that found
      the NAT to be a cone sends at most 1 + 59 + 799 datagrams, all from the default socket; one
      that did not sends at most 1 + 13 * (1 + N) while the list never exceeds N sockets. */
  lemma SendBudget(world: World, before: seq<Datagram>, ports: seq<nat>, calls: seq<nat>, info: NatInfo,
                   predicted: seq<nat>, isCone: bool, log: seq<Datagram>, ok: bool, most: nat)
    requires SymmetricPunch(world, before, ports, calls, info, predicted, isCone, log, ok)
    requires isCone || forall i :: |world.shared(i)| <= most
    ensures before <= log
    ensures isCone ==> |log| - |before| <= 1 + 59 + 799
    ensures isCone ==> forall i :: |before| <= i < |log| ==> log[i].socket.None?
    ensures !isCone ==> |log| - |before| <= 1 + 13 * (1 + most)
  {
    var targets := Targets(ports, Cursor(65535, calls), info, predicted, isCone);
    var n := |before + Local(info)|;
    var plan := world.Plan(n, isCone, targets);
    TargetsSize(ports, Cursor(65535, calls), info, predicted, isCone);
    PlanSize(world, n, isCone, targets, most);
    SentNoLonger(world, n, plan);
    if !isCone {
      MulMonotone(|targets|, 13, 1 + most);
    } else {
      forall i | n <= i < |log|
        ensures log[i].socket.None?
      {
        assert log[i] == plan[i - n];
        assert plan[i - n] in plan;
      }
    }
  }
}

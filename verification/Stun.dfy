/**
 The aggregation of STUN answers into a NAT type, the public addresses and a port spread. The
 exchange with a server is its outcome: no answer, or the mapped address of the first request and of
 the second one if there was one. Sets are walked in an arbitrary order.
 */
module Stun {
  import opened Common
  import opened Ports
  import P = Punch

  datatype Reply = Reply(first: SocketAddr, second: Option<SocketAddr>)

  // Addresses as the socket types hold them: 16-bit ports.
  predicate IsU16(addrs: set<SocketAddr>) {
    forall a <- addrs :: a.port < TOP
  }

  function V4Ports(addrs: set<SocketAddr>): set<nat> {
    set a <- addrs | a.V4? :: a.port
  }

  function V4Ips(addrs: set<SocketAddr>): set<nat> {
    set a <- addrs | a.V4? :: a.ip
  }

  // The largest distance between two of the ports; zero when there are none.
  ghost predicate IsSpread(ports: set<nat>, range: nat) {
    (ports == {} ==> range == 0) && Within(ports, range)
    && (ports != {} ==> exists p, q :: p in ports && q in ports && p - q == range)
  }

  // What one server contributes. A second mapping, when it is IPv4, adds the first one again.
  function Observed(reply: Option<Reply>): set<SocketAddr> {
    match reply
    case None => {}
    case Some(r) => if r.first.V4? || (r.second.Some? && r.second.value.V4?) then {r.first} else {}
  }

  function Union(replies: seq<Option<Reply>>): set<SocketAddr> {
    if replies == [] then {} else Union(replies[..|replies| - 1]) + Observed(replies[|replies| - 1])
  }

  method TestServer(reply: Reply) returns (addrs: set<SocketAddr>)
    ensures addrs == Observed(Some(reply))
    ensures addrs == if reply.first.V4? || (reply.second.Some? && reply.second.value.V4?) then {reply.first} else {}
  {
    addrs := {};
    if reply.first.V4? {
      addrs := addrs + {reply.first};
    }
    match reply.second {
      case None =>
      case Some(second) =>
        if second.V4? {
          addrs := addrs + {reply.first};
        }
    }
  }

  // One round over all servers.
  method TestRound(replies: seq<Option<Reply>>) returns (natType: P.NatType, ips: set<nat>, range: nat)
    requires IsU16(Union(replies))
    ensures natType.SymmetricNat? <==> |Union(replies)| > 1
    ensures ips == V4Ips(Union(replies))
    ensures IsSpread(V4Ports(Union(replies)), range) && range < TOP
    ensures forall ip :: ip in ips <==> exists a <- Union(replies) :: a.V4? && a.ip == ip
    ensures forall a, b :: a in Union(replies) && b in Union(replies) && a.V4? && b.V4? ==> a.port - b.port <= range
    ensures range == 0
            || exists a, b :: a in Union(replies) && b in Union(replies) && a.V4? && b.V4? && a.port - b.port == range
  {
    var addrs: set<SocketAddr> := {};
    for i := 0 to |replies|
      invariant addrs == Union(replies[..i])
    {
      assert replies[..i + 1][..i] == replies[..i];
      if replies[i].Some? {
        var more := TestServer(replies[i].value);
        addrs := addrs + more;
      }
    }
    assert replies[..|replies|] == replies;
    natType := if |addrs| > 1 then P.SymmetricNat else P.ConeNat;
    ips, range := Spread(addrs);
    SpreadOfAddrs(addrs, range);
  }

  // The spread in terms of the addresses.
  lemma SpreadOfAddrs(addrs: set<SocketAddr>, range: nat)
    requires IsSpread(V4Ports(addrs), range)
    ensures forall a, b :: a in addrs && b in addrs && a.V4? && b.V4? ==> a.port - b.port <= range
    ensures range == 0 || exists a, b :: a in addrs && b in addrs && a.V4? && b.V4? && a.port - b.port == range
  {
    forall a, b | a in addrs && b in addrs && a.V4? && b.V4?
      ensures a.port - b.port <= range
    {
      assert a.port in V4Ports(addrs) && b.port in V4Ports(addrs);
    }
    if range != 0 {
      var p, q :| p in V4Ports(addrs) && q in V4Ports(addrs) && p - q == range;
      var a :| a in addrs && a.V4? && a.port == p;
      var b :| b in addrs && b.V4? && b.port == q;
    }
  }

  /** The addresses collected from the servers, spelled out: the first mapping of each server that answered
      and gave an IPv4 address in either mapping. */
  lemma UnionInNumbers(replies: seq<Option<Reply>>, a: SocketAddr)
    ensures a in Union(replies) <==>
            exists i :: 0 <= i < |replies| && replies[i].Some? && replies[i].value.first == a
                        && (a.V4? || (replies[i].value.second.Some? && replies[i].value.second.value.V4?))
  {
    UnionMembers(replies, a);
    assert forall i :: 0 <= i < |replies| ==> (a in Observed(replies[i]) <==>
      replies[i].Some? && replies[i].value.first == a
      && (a.V4? || (replies[i].value.second.Some? && replies[i].value.second.value.V4?)));
  }

  // Bounds of a set of ports as the loop keeps them: the initial pair while it is empty.
  ghost predicate Bounds(ports: set<nat>, lo: nat, hi: nat) {
    (ports == {} ==> lo == 65535 && hi == 0)
    && (ports != {} ==> lo in ports && hi in ports)
    && forall p <- ports :: lo <= p <= hi
  }

  // The walk over the collected addresses.
  method Spread(addrs: set<SocketAddr>) returns (ips: set<nat>, range: nat)
    requires IsU16(addrs)
    ensures ips == V4Ips(addrs)
    ensures IsSpread(V4Ports(addrs), range) && range < TOP
  {
    var minPort: nat, maxPort: nat := 65535, 0;
    ips := {};
    var rest := addrs;
    while rest != {}
      invariant rest <= addrs && ips == V4Ips(addrs - rest)
      invariant Bounds(V4Ports(addrs - rest), minPort, maxPort)
      decreases rest
    {
      var a :| a in rest;
      Walk(addrs, rest, a);
      if a.V4? {
        ips := ips + {a.ip};
        BoundsStep(V4Ports(addrs - rest), minPort, maxPort, a.port);
        if minPort > a.port {
          minPort := a.port;
        }
        if maxPort < a.port {
          maxPort := a.port;
        }
      }
      rest := rest - {a};
    }
    assert addrs - rest == addrs;
    SameEmptiness(addrs);
    range := if ips == {} then 0 else maxPort - minPort;
  }

  lemma BoundsStep(ports: set<nat>, lo: nat, hi: nat, p: nat)
    requires Bounds(ports, lo, hi) && p < TOP
    ensures Bounds(ports + {p}, if lo > p then p else lo, if hi < p then p else hi)
  {
  }

  lemma SameEmptiness(addrs: set<SocketAddr>)
    ensures V4Ips(addrs) == {} <==> V4Ports(addrs) == {}
  {
    if a :| a in addrs && a.V4? {
      assert a.ip in V4Ips(addrs) && a.port in V4Ports(addrs);
    }
  }

  lemma Walk(addrs: set<SocketAddr>, rest: set<SocketAddr>, a: SocketAddr)
    requires a in rest && rest <= addrs
    ensures V4Ips(addrs - (rest - {a})) == V4Ips(addrs - rest) + if a.V4? then {a.ip} else {}
    ensures V4Ports(addrs - (rest - {a})) == V4Ports(addrs - rest) + if a.V4? then {a.port} else {}
  {
    assert addrs - (rest - {a}) == (addrs - rest) + {a};
  }

  // A round's result, or None when its socket could not be bound.
  datatype Verdict = Verdict(natType: P.NatType, ips: set<nat>, range: nat)

  ghost predicate Within(ports: set<nat>, range: nat) {
    forall p, q :: p in ports && q in ports ==> p - q <= range
  }

  // Some round collected two addresses.
  ghost predicate AnySymmetric(rounds: seq<Option<seq<Option<Reply>>>>) {
    exists r <- rounds :: r.Some? && |Union(r.value)| > 1
  }

  // Some round collected that IPv4 address.
  ghost predicate Seen(rounds: seq<Option<seq<Option<Reply>>>>, ip: nat) {
    exists r <- rounds :: r.Some? && ip in V4Ips(Union(r.value))
  }

  // No round spreads further, and one spreads that far unless it is zero.
  ghost predicate Widest(rounds: seq<Option<seq<Option<Reply>>>>, range: nat) {
    (forall r <- rounds :: r.Some? ==> Within(V4Ports(Union(r.value)), range))
    && (range == 0 || exists r <- rounds :: r.Some? && IsSpread(V4Ports(Union(r.value)), range))
  }

  // What the verdict says about the rounds it covers.
  ghost predicate Sums(rounds: seq<Option<seq<Option<Reply>>>>, v: Verdict) {
    v.range < TOP && (v.natType.SymmetricNat? <==> AnySymmetric(rounds))
    && (forall ip :: ip in v.ips <==> Seen(rounds, ip)) && Widest(rounds, v.range)
  }

  lemma AnySymmetricStep(rounds: seq<Option<seq<Option<Reply>>>>, r: Option<seq<Option<Reply>>>)
    ensures AnySymmetric(rounds + [r]) <==> AnySymmetric(rounds) || (r.Some? && |Union(r.value)| > 1)
  {
    assert forall x <- rounds + [r] :: x in rounds || x == r;
    assert r in rounds + [r] && forall x <- rounds :: x in rounds + [r];
  }

  lemma SeenStep(rounds: seq<Option<seq<Option<Reply>>>>, r: Option<seq<Option<Reply>>>, ip: nat)
    ensures Seen(rounds + [r], ip) <==> Seen(rounds, ip) || (r.Some? && ip in V4Ips(Union(r.value)))
  {
    assert forall x <- rounds + [r] :: x in rounds || x == r;
    assert r in rounds + [r] && forall x <- rounds :: x in rounds + [r];
  }

  lemma WidestStep(rounds: seq<Option<seq<Option<Reply>>>>, r: Option<seq<Option<Reply>>>, before: nat, range: nat)
    requires Widest(rounds, before)
    requires if r.Some? then IsSpread(V4Ports(Union(r.value)), range) else range == 0
    ensures Widest(rounds + [r], if before < range then range else before)
  {
    assert forall x <- rounds + [r] :: x in rounds || x == r;
    assert r in rounds + [r] && forall x <- rounds :: x in rounds + [r];
  }

  lemma SumsStep(rounds: seq<Option<seq<Option<Reply>>>>, v: Verdict, r: seq<Option<Reply>>,
                 natType: P.NatType, ips: set<nat>, range: nat)
    requires Sums(rounds, v) && range < TOP
    requires natType.SymmetricNat? <==> |Union(r)| > 1
    requires ips == V4Ips(Union(r)) && IsSpread(V4Ports(Union(r)), range)
    ensures Sums(rounds + [Some(r)], Verdict(if natType.SymmetricNat? then natType else v.natType, v.ips + ips,
                                             if v.range < range then range else v.range))
  {
    AnySymmetricStep(rounds, Some(r));
    forall ip
      ensures Seen(rounds + [Some(r)], ip) <==> ip in v.ips + ips
    {
      SeenStep(rounds, Some(r), ip);
    }
    WidestStep(rounds, Some(r), v.range, range);
  }

  // A round whose socket could not be bound adds nothing.
  lemma SumsSkip(rounds: seq<Option<seq<Option<Reply>>>>, v: Verdict)
    requires Sums(rounds, v)
    ensures Sums(rounds + [None], v)
  {
    AnySymmetricStep(rounds, None);
    forall ip
      ensures Seen(rounds + [None], ip) <==> ip in v.ips
    {
      SeenStep(rounds, None, ip);
    }
    WidestStep(rounds, None, v.range, 0);
  }

  /** Two rounds: symmetric if either is, all their addresses, the larger of their spreads. */
  method TestNat(rounds: seq<Option<seq<Option<Reply>>>>) returns (v: Verdict)
    requires |rounds| == 2
    requires forall r <- rounds :: r.Some? ==> IsU16(Union(r.value))
    ensures Sums(rounds, v)
    ensures v.natType.SymmetricNat? <==> |Collected(rounds[0])| > 1 || |Collected(rounds[1])| > 1
    ensures v.ips == V4Ips(Collected(rounds[0])) + V4Ips(Collected(rounds[1]))
    ensures forall r <- rounds :: Within(V4Ports(Collected(r)), v.range)
    ensures v.range == 0 || exists r <- rounds :: IsSpread(V4Ports(Collected(r)), v.range)
  {
    v := Verdict(P.ConeNat, {}, 0);
    for i := 0 to 2
      invariant Sums(rounds[..i], v)
    {
      ghost var before := v;
      assert rounds[..i + 1] == rounds[..i] + [rounds[i]];
      if rounds[i].Some? {
        var natType, ips, range := TestRound(rounds[i].value);
        SumsStep(rounds[..i], v, rounds[i].value, natType, ips, range);
        if natType.SymmetricNat? {
          v := v.(natType := P.SymmetricNat);
        }
        v := v.(ips := v.ips + ips);
        if v.range < range {
          v := v.(range := range);
        }
      } else {
        SumsSkip(rounds[..i], v);
      }
    }
    assert rounds[..2] == rounds;
    TwoRounds(rounds, v);
  }

  // The addresses of a round; none when its socket could not be bound.
  function Collected(round: Option<seq<Option<Reply>>>): (r: set<SocketAddr>)
    ensures round.None? ==> r == {}
    ensures round.Some? ==> r == Union(round.value)
  {
    if round.Some? then Union(round.value) else {}
  }

  lemma TwoRounds(rounds: seq<Option<seq<Option<Reply>>>>, v: Verdict)
    requires |rounds| == 2 && Sums(rounds, v)
    ensures v.natType.SymmetricNat? <==> |Collected(rounds[0])| > 1 || |Collected(rounds[1])| > 1
    ensures v.ips == V4Ips(Collected(rounds[0])) + V4Ips(Collected(rounds[1]))
    ensures forall r <- rounds :: Within(V4Ports(Collected(r)), v.range)
    ensures v.range == 0 || exists r <- rounds :: IsSpread(V4Ports(Collected(r)), v.range)
  {
    assert forall r <- rounds :: r == rounds[0] || r == rounds[1];
    assert rounds[0] in rounds && rounds[1] in rounds;
    forall ip
      ensures ip in v.ips <==> ip in V4Ips(Collected(rounds[0])) + V4Ips(Collected(rounds[1]))
    {
      assert ip in v.ips <==> Seen(rounds, ip);
    }
  }

  /** If a port reported for a peer is one of a round's IPv4 ports and the reported range covers that
      round's spread, every non-zero IPv4 port of the round is a candidate of the punch interval. */
  lemma SpreadFitsInterval(addrs: set<SocketAddr>, port: nat, range: nat, other: nat)
    requires IsU16(addrs) && range < TOP && Within(V4Ports(addrs), range)
    requires port in V4Ports(addrs) && other in V4Ports(addrs) && other != 0
    ensures other in Candidates(port, range)
  {
    assert port - other <= range && other - port <= range;
    var all := Candidates(port, range);
    assert MinPort(port, range) <= other <= MaxPort(port, range);
    assert all[other - MinPort(port, range)] == other;
  }

  /** Second mappings never count: the verdict of a round is symmetric exactly when two servers
      contributed different first mappings. */
  lemma SymmetricIff(replies: seq<Option<Reply>>)
    ensures |Union(replies)| > 1 <==>
            exists i, j :: 0 <= i < j < |replies| && Observed(replies[i]) != {} && Observed(replies[j]) != {}
                           && replies[i].value.first != replies[j].value.first
  {
    var all := Union(replies);
    if i, j :| 0 <= i < j < |replies| && Observed(replies[i]) != {} && Observed(replies[j]) != {}
               && replies[i].value.first != replies[j].value.first {
      UnionMembers(replies, replies[i].value.first);
      UnionMembers(replies, replies[j].value.first);
      assert {replies[i].value.first, replies[j].value.first} <= all;
      SubsetSize({replies[i].value.first, replies[j].value.first}, all);
    }
    if |all| > 1 {
      var a :| a in all;
      assert |all - {a}| > 0;
      var b :| b in all - {a};
      UnionMembers(replies, a);
      UnionMembers(replies, b);
      var i :| 0 <= i < |replies| && a in Observed(replies[i]);
      var j :| 0 <= j < |replies| && b in Observed(replies[j]);
      assert replies[i].value.first == a && replies[j].value.first == b;
    }
  }

  /** However far apart a server maps the two requests it was sent, the one address it contributes is
      the first: a round in which no other server is heard never comes out symmetric. */
  lemma LoneServerIsCone(a: SocketAddr, b: SocketAddr, replies: seq<Option<Reply>>, k: nat)
    requires k < |replies| && replies[k] == Some(Reply(a, Some(b))) && (a.V4? || b.V4?)
    requires forall i :: 0 <= i < |replies| && i != k ==> Observed(replies[i]) == {}
    ensures Union(replies) == {a} && |Union(replies)| == 1
  {
    forall x
      ensures x in Union(replies) <==> x == a
    {
      UnionMembers(replies, x);
      assert a in Observed(replies[k]);
    }
  }

  lemma {:induction false} UnionMembers(replies: seq<Option<Reply>>, a: SocketAddr)
    ensures a in Union(replies) <==> exists i :: 0 <= i < |replies| && a in Observed(replies[i])
  {
    if replies != [] {
      var f := replies[..|replies| - 1];
      UnionMembers(f, a);
      assert forall i :: 0 <= i < |f| ==> f[i] == replies[i];
    }
  }

  lemma SubsetSize<T>(a: set<T>, b: set<T>)
    requires a <= b
    ensures |a| <= |b|
  {
    assert b == a + (b - a);
  }
}

/** Shared vocabulary: socket addresses, route keys in the order the time table is scanned, NAT status. */
module Common {

  datatype Option<+T> = None | Some(value: T)

  // Ordered as the derived orders of the address types: V4 before V6, then field by field.
  datatype SocketAddr =
    | V4(ip: nat, port: nat)
    | V6(ip: nat, port: nat, flow: nat, scope: nat)

  datatype RouteKey = RouteKey(index: nat, addr: SocketAddr)

  datatype Route = Route(index: nat, addr: SocketAddr, metric: nat, rt: int) {
    function Key(): RouteKey {
      RouteKey(index, addr)
    }
  }

  datatype Status = Cone | Symmetric | Close

  predicate AddrLess(a: SocketAddr, b: SocketAddr) {
    match (a, b)
    case (V4(_, _), V6(_, _, _, _)) => true
    case (V6(_, _, _, _), V4(_, _)) => false
    case (V4(i, p), V4(j, q)) => i < j || (i == j && p < q)
    case (V6(i, p, f, s), V6(j, q, g, t)) =>
      i < j || (i == j && (p < q || (p == q && (f < g || (f == g && s < t)))))
  }

  predicate Less(a: RouteKey, b: RouteKey) {
    a.index < b.index || (a.index == b.index && AddrLess(a.addr, b.addr))
  }

  /** The order field by field: index first, then IPv4 before IPv6, then address, port, flow and scope. */
  lemma OrderInFields(a: RouteKey, b: RouteKey)
    ensures a.index != b.index ==> (Less(a, b) <==> a.index < b.index)
    ensures a.index == b.index && a.addr.V4? != b.addr.V4? ==> (Less(a, b) <==> a.addr.V4?)
    ensures a.index == b.index && a.addr.V4? == b.addr.V4? && a.addr.ip != b.addr.ip ==>
              (Less(a, b) <==> a.addr.ip < b.addr.ip)
    ensures a.index == b.index && a.addr.V4? == b.addr.V4? && a.addr.ip == b.addr.ip && a.addr.port != b.addr.port ==>
              (Less(a, b) <==> a.addr.port < b.addr.port)
    ensures a.index == b.index && a.addr.V6? && b.addr.V6? && a.addr.ip == b.addr.ip && a.addr.port == b.addr.port ==>
              (Less(a, b) <==> a.addr.flow < b.addr.flow
                               || (a.addr.flow == b.addr.flow && a.addr.scope < b.addr.scope))
  {
  }

  lemma LessIsStrictTotal(a: RouteKey, b: RouteKey, c: RouteKey)
    ensures !Less(a, a)
    ensures Less(a, b) || a == b || Less(b, a)
    ensures Less(a, b) && Less(b, c) ==> Less(a, c)
  {
  }

  predicate IsLeast(k: RouteKey, keys: set<RouteKey>) {
    k in keys && forall other <- keys :: other == k || Less(k, other)
  }

  lemma {:induction false} LeastExists(keys: set<RouteKey>) returns (k: RouteKey)
    requires keys != {}
    ensures IsLeast(k, keys)
  {
    var first :| first in keys;
    var rest := keys - {first};
    assert forall other <- keys :: other == first || other in rest;
    if rest == {} {
      k := first;
    } else {
      var m := LeastExists(rest);
      LessIsStrictTotal(first, m, m);
      k := if Less(m, first) then m else first;
      forall other <- keys
        ensures other == k || Less(k, other)
      {
        assert other == first || other in rest;
        LessIsStrictTotal(first, m, other);
      }
    }
  }

  // The key the ordered map's iterator yields first.
  function Least(keys: set<RouteKey>): (k: RouteKey)
    requires keys != {}
    ensures IsLeast(k, keys)
  {
    assert exists k :: IsLeast(k, keys) by {
      var k := LeastExists(keys);
    }
    assert forall k, m :: IsLeast(k, keys) && IsLeast(m, keys) ==> k == m by {
      forall k, m | IsLeast(k, keys) && IsLeast(m, keys)
        ensures k == m
      {
        LessIsStrictTotal(k, m, k);
      }
    }
    var k :| IsLeast(k, keys);
    k
  }
}

/** The shared socket list, what one run of change does to it, and how a route key picks a socket. */
module Sockets {
  import opened Common

  const DEFAULT_TOKEN := 100_000
  const CHANGE_TOKEN := 100_001

  // The list every sender uses, and the number the next bound socket gets.
  datatype Pool = Pool(list: seq<nat>, next: nat)

  // How many sockets can be bound, and then how many handles duplicated, before one fails.
  datatype Supply = Supply(binds: nat, handles: nat)

  function Fewer(a: nat, b: nat): (r: nat)
    ensures r <= a && r <= b && (r == a || r == b)
  {
    if a < b then a else b
  }

  // An empty list is filled up to the first bind that fails; what was bound stays in it.
  function Refill(p: Pool, size: nat, supply: Supply): Pool {
    if p.list == [] then
      var n := Fewer(size, supply.binds);
      Pool(seq(n, i => p.next + i), p.next + n)
    else p
  }

  predicate BindFails(p: Pool, size: nat, supply: Supply) {
    p.list == [] && supply.binds < size
  }

  // A change that has read that status is an error.
  predicate Fails(loaded: Status, p: Pool, size: nat, supply: Supply) {
    match loaded
    case Cone => false
    case Symmetric => BindFails(p, size, supply) || supply.handles < |Refill(p, size, supply).list|
    case Close => true
  }

  // The pool after such a change. A close changes nothing.
  function PoolAfter(loaded: Status, p: Pool, size: nat, supply: Supply): Pool {
    match loaded
    case Cone => p.(list := [])
    case Symmetric => Refill(p, size, supply)
    case Close => p
  }

  // The sockets the clone itself listens on afterwards.
  function OwnAfter(loaded: Status, p: Pool, own: seq<nat>, size: nat, supply: Supply): seq<nat> {
    match loaded
    case Cone => []
    case Symmetric =>
      var list := Refill(p, size, supply).list;
      if BindFails(p, size, supply) then [] else list[..Fewer(|list|, supply.handles)]
    case Close => own
  }

  /** One change, spelled out. Cone empties both lists and cannot fail. Symmetric keeps a list that is not
      empty; an empty one it fills with the next numbers, as many as can be bound up to size, and if that
      is all of them, or the list was there, the clone gets as many of it as there are handles; it fails
      when either runs short. Close fails and changes nothing. */
  lemma ChangeInNumbers(loaded: Status, p: Pool, own: seq<nat>, size: nat, supply: Supply)
    ensures loaded.Cone? ==>
              PoolAfter(loaded, p, size, supply) == Pool([], p.next) && OwnAfter(loaded, p, own, size, supply) == []
              && !Fails(loaded, p, size, supply)
    ensures loaded.Close? ==>
              PoolAfter(loaded, p, size, supply) == p && OwnAfter(loaded, p, own, size, supply) == own
              && Fails(loaded, p, size, supply)
    ensures loaded.Symmetric? && p.list != [] ==>
              PoolAfter(loaded, p, size, supply) == p
              && OwnAfter(loaded, p, own, size, supply) <= p.list
              && |OwnAfter(loaded, p, own, size, supply)|
                 == (if supply.handles < |p.list| then supply.handles else |p.list|)
              && (Fails(loaded, p, size, supply) <==> supply.handles < |p.list|)
    ensures loaded.Symmetric? && p.list == [] ==>
              var bound := if supply.binds < size then supply.binds else size;
              var after := PoolAfter(loaded, p, size, supply);
              |after.list| == bound && after.next == p.next + bound
              && (forall i :: 0 <= i < bound ==> after.list[i] == p.next + i)
              && OwnAfter(loaded, p, own, size, supply) <= after.list
              && |OwnAfter(loaded, p, own, size, supply)|
                 == (if supply.binds < size then 0 else if supply.handles < size then supply.handles else size)
              && (Fails(loaded, p, size, supply) <==> supply.binds < size || supply.handles < size)
  {
  }

  // A change that goes well leaves the clone with the shared list.
  lemma ChangeMirrors(loaded: Status, p: Pool, own: seq<nat>, size: nat, supply: Supply)
    requires !Fails(loaded, p, size, supply)
    ensures OwnAfter(loaded, p, own, size, supply) == PoolAfter(loaded, p, size, supply).list
  {
    var list := PoolAfter(loaded, p, size, supply).list;
    assert list[..|list|] == list;
  }

  // The socket a key picks: None when the index is out of range, Some(None) for the default socket.
  function Picked(list: seq<nat>, index: nat): Option<Option<nat>> {
    if index == DEFAULT_TOKEN then Some(None)
    else if index < |list| then Some(Some(list[index]))
    else None
  }

  /** The index in numbers: 100000 is the default socket, a position of the list its socket, and any other
      picks none. */
  lemma PickedInNumbers(list: seq<nat>, index: nat)
    ensures index == 100_000 ==> Picked(list, index) == Some(None)
    ensures index != 100_000 && index < |list| ==> Picked(list, index) == Some(Some(list[index]))
    ensures index != 100_000 && index >= |list| ==> Picked(list, index) == None
  {
  }

  // A datagram from that socket is reported with that index.
  predicate ReportedAs(list: seq<nat>, index: nat, from: Option<nat>) {
    match from
    case None => index == DEFAULT_TOKEN
    case Some(s) => index < |list| && list[index] == s
  }

  // Every key reported by the first list leads back to its socket when picked by the second.
  ghost predicate RepliesReach(list: seq<nat>, pick: seq<nat>) {
    forall index: nat, from :: ReportedAs(list, index, from) ==> Picked(pick, index) == Some(from)
  }

  /** Every reported key leads back to the socket it came from if and only if the list has at most
      100000 sockets, so that no position is the default token. (Socket numbers are distinct.) */
  lemma ReplyIff(list: seq<nat>)
    ensures RepliesReach(list, list) <==> |list| <= 100_000
  {
    if |list| > DEFAULT_TOKEN {
      assert ReportedAs(list, DEFAULT_TOKEN, Some(list[DEFAULT_TOKEN]));
    }
  }
}

/**
 * Host identity: a cluster node identified by its network address alone.
 * Equality, order and hash of a host are those of its address. The address
 * type itself is not part of this model: it is an opaque type with equality,
 * and its order and hash are supplied by the caller as functions.
 */
module Hosts {

  /** A network address; only equality is assumed of it here. */
  type Address(==, !new)

  datatype Host = Host(address: Address)

  /** `operator==` on hosts: compares the addresses. */
  function Equal(a: Host, b: Host): (r: bool)
    ensures r <==> a == b
  {
    a.address == b.address
  }

  /** `operator<` on hosts: compares the addresses with the address order. */
  function Less(addrLess: (Address, Address) -> bool, a: Host, b: Host): (r: bool)
    ensures r <==> addrLess(a.address, b.address)
  {
    addrLess(a.address, b.address)
  }

  /** `std::hash` of a host: the hash of its address. */
  function Hash(addrHash: Address -> nat, h: Host): (r: nat)
    ensures r == addrHash(h.address)
  {
    addrHash(h.address)
  }

  /** A strict total order on addresses. */
  ghost predicate StrictTotalOrder(less: (Address, Address) -> bool) {
    && (forall x :: !less(x, x))
    && (forall x, y, z :: less(x, y) && less(y, z) ==> less(x, z))
    && (forall x, y :: x != y ==> less(x, y) || less(y, x))
  }

  /** A strict total order on hosts. */
  ghost predicate StrictTotalHostOrder(addrLess: (Address, Address) -> bool) {
    && (forall a :: !Less(addrLess, a, a))
    && (forall a, b, c :: Less(addrLess, a, b) && Less(addrLess, b, c) ==> Less(addrLess, a, c))
    && (forall a, b :: a != b ==> Less(addrLess, a, b) || Less(addrLess, b, a))
  }

  /** The constructor keeps the address it is given. */
  lemma AddressKept(addr: Address)
    ensures Host(addr).address == addr
  {
  }

  /** Hosts are equal exactly when their addresses are. */
  lemma EqualIffSameAddress(a: Host, b: Host)
    ensures Equal(a, b) <==> a.address == b.address
  {
  }

  /**
   * Host order inherits the address order: when addresses are strictly and
   * totally ordered, so are hosts, which makes hosts usable as ordered keys.
   */
  lemma OrderInherited(addrLess: (Address, Address) -> bool)
    requires StrictTotalOrder(addrLess)
    ensures StrictTotalHostOrder(addrLess)
  {
  }

  /** Equal hosts hash equally, whatever the address hash is. */
  lemma HashRespectsEquality(addrHash: Address -> nat, a: Host, b: Host)
    requires Equal(a, b)
    ensures Hash(addrHash, a) == Hash(addrHash, b)
  {
  }
}

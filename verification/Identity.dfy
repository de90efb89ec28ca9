/** Addresses, prefixes and the exact kernel identities that the registry records. */
module Identity {

  datatype Option<+T> = None | Some(value: T)

  const MANAGED_TABLE := 254
  const MANAGED_PARK_METRIC := 42760
  const SCOPE_LINK := 253

  datatype Addr = V4(value: nat) | V6(value: nat) {
    function Width(): nat {
      if V4? then 32 else 128
    }

    predicate IsMapped() {
      V6? && value / Pow2(32) == 0xffff
    }

    predicate IsLoopback() {
      if V4? then value / Pow2(24) == 127 else value == 1
    }
  }

  function Pow2(n: nat): (r: nat)
    ensures r > 0
  {
    if n == 0 then 1 else 2 * Pow2(n - 1)
  }

  datatype Prefix = Prefix(addr: Addr, bits: int) {
    predicate IsValid() {
      0 <= bits <= addr.Width() && addr.value < Pow2(addr.Width())
    }

    /** A masked prefix: all host bits are zero. */
    predicate IsCanonical() {
      IsValid() && addr.value % Pow2(addr.Width() - bits) == 0
    }

    predicate IsHost() {
      IsValid() && bits == addr.Width()
    }
  }

  /** A next hop as the registry stores it: absent, an address, or text that does not parse. */
  datatype NextHop = NoHop | Hop(addr: Addr) | Unparsed(text: string) {
    predicate MatchesFamily(prefix: Prefix) {
      Hop? && !addr.IsMapped() && addr.V4? == prefix.addr.V4?
    }
  }

  /** The exact kernel identity of one selected route. */
  datatype RouteId = RouteId(
    table: int, ifIndex: int, nextHop: NextHop, protocol: int, metric: nat, scope: int, luid: nat) {

    predicate Valid(prefix: Prefix) {
      && prefix.IsCanonical()
      && table == MANAGED_TABLE
      && ifIndex > 0
      && (nextHop == NoHop || nextHop.MatchesFamily(prefix))
      && protocol > 0
      && (scope == 0 || scope == SCOPE_LINK)
    }
  }

  datatype ParkKind = Unreachable | Loopback

  /** The exact kernel identity of one park row. */
  datatype ParkId = ParkId(
    kind: ParkKind, table: int, ifIndex: int, nextHop: NextHop, protocol: int, metric: nat, scope: int, luid: nat) {

    predicate Valid(prefix: Prefix) {
      && prefix.IsCanonical()
      && table == MANAGED_TABLE
      && protocol > 0
      && metric == MANAGED_PARK_METRIC
      && (match kind
          case Unreachable => ifIndex == 0 && nextHop == NoHop && luid == 0
          case Loopback => ifIndex > 0 && nextHop.MatchesFamily(prefix) && nextHop.addr.IsLoopback())
      && (scope == 0 || scope == SCOPE_LINK)
    }
  }

  /** One same-prefix kernel row, projected into exactly one of three classes. */
  datatype Row = Route(route: RouteId) | Park(park: ParkId) | Foreign(description: string)
}

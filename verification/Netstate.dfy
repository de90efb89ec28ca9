/** Underlay snapshots, their transport identity, and the one function that numbers their changes. */
module Netstate {
  import opened Identity

  datatype Path = Path(family: int, ifIndex: int, iface: string, gateway: Option<Addr>, preferredSrc: Option<Addr>,
                       mtu: int, table: int, metric: nat)

  datatype Snapshot = Snapshot(epoch: nat, v4: Option<Path>, v6: Option<Path>, connectionId: string, bssid: string,
                               observedAt: int) {
    predicate HasPath() {
      v4.Some? || v6.Some?
    }
  }

  const ZERO := Snapshot(0, None, None, "", "", 0)

  datatype Reason =
    | NoReason | Initial | InterfaceChanged | GatewayChanged | SourceChanged | AvailabilityChanged | WifiChanged
    | ResumeReason

  /** Connection metadata and the observation time are not part of the identity. */
  predicate IdentityEqual(a: Snapshot, b: Snapshot) {
    a.v4 == b.v4 && a.v6 == b.v6 && a.bssid == b.bssid
  }

  predicate LinkChanged(a: Option<Path>, b: Option<Path>) {
    a.Some? && b.Some? && (a.value.ifIndex != b.value.ifIndex || a.value.iface != b.value.iface)
  }

  predicate GatewayDiffers(a: Option<Path>, b: Option<Path>) {
    a.Some? && b.Some? && a.value.gateway != b.value.gateway
  }

  predicate SourceDiffers(a: Option<Path>, b: Option<Path>) {
    a.Some? && b.Some? && a.value.preferredSrc != b.value.preferredSrc
  }

  /** The two snapshots show a path of this family each, and a property of these paths differs. */
  predicate Differ<T(==)>(a: Option<Path>, b: Option<Path>, property: Path -> T) {
    a.Some? && b.Some? && property(a.value) != property(b.value)
  }

  predicate EitherDiffers<T(==)>(prev: Snapshot, next: Snapshot, property: Path -> T) {
    Differ(prev.v4, next.v4, property) || Differ(prev.v6, next.v6, property)
  }

  /** The reason names the most significant difference; a change of anything else counts as one of the interface. */
  predicate Explains(reason: Reason, prev: Snapshot, next: Snapshot) {
    var link := EitherDiffers(prev, next, (p: Path) => (p.ifIndex, p.iface));
    var gateway := EitherDiffers(prev, next, (p: Path) => p.gateway);
    var source := EitherDiffers(prev, next, (p: Path) => p.preferredSrc);
    var appeared := prev.v4.Some? != next.v4.Some? || prev.v6.Some? != next.v6.Some?;
    if prev.epoch == 0 then reason == Initial
    else if link then reason == InterfaceChanged
    else if gateway then reason == GatewayChanged
    else if source then reason == SourceChanged
    else if appeared then reason == AvailabilityChanged
    else if prev.bssid != next.bssid then reason == WifiChanged
    else reason == InterfaceChanged
  }

  datatype Comparison = Comparison(merged: Snapshot, reason: Reason, changed: bool)

  /** Numbers the next snapshot. The epoch it carries is ignored. */
  function Compare(prev: Snapshot, next: Snapshot): (r: Comparison)
    ensures r.changed <==> prev.v4 != next.v4 || prev.v6 != next.v6 || prev.bssid != next.bssid
    ensures r.merged == next.(epoch := if r.changed then prev.epoch + 1 else prev.epoch)
    ensures r.changed <==> r.reason != NoReason
    ensures r.changed ==> Explains(r.reason, prev, next)
  {
    if prev.epoch == 0 && !IdentityEqual(prev, next) then Comparison(next.(epoch := 1), Initial, true)
    else if IdentityEqual(prev, next) then Comparison(next.(epoch := prev.epoch), NoReason, false)
    else
      var reason :=
        if LinkChanged(prev.v4, next.v4) || LinkChanged(prev.v6, next.v6) then InterfaceChanged
        else if GatewayDiffers(prev.v4, next.v4) || GatewayDiffers(prev.v6, next.v6) then GatewayChanged
        else if SourceDiffers(prev.v4, next.v4) || SourceDiffers(prev.v6, next.v6) then SourceChanged
        else if prev.v4.Some? != next.v4.Some? || prev.v6.Some? != next.v6.Some? then AvailabilityChanged
        else if prev.bssid != next.bssid then WifiChanged
        else InterfaceChanged;
      Comparison(next.(epoch := prev.epoch + 1), reason, true)
  }

  /** How often the identity changed from one snapshot to the next. */
  function Changes(history: seq<Snapshot>): nat {
    if |history| <= 1 then 0
    else
      var n := |history|;
      Changes(history[..n - 1]) + if IdentityEqual(history[n - 2], history[n - 1]) then 0 else 1
  }

  lemma ChangesAppend(history: seq<Snapshot>, next: Snapshot)
    requires history != []
    ensures Changes(history + [next]) ==
            Changes(history) + if IdentityEqual(history[|history| - 1], next) then 0 else 1
  {
  }
}

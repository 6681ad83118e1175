/** The per-family IP configuration of an interface and its in-place update. */
module Ip {

  datatype InterfaceIpAddr = InterfaceIpAddr(ip: string, prefixLength: nat)

  /** `InterfaceIp` of the library. The backends also fill `dhcp`, `autoconf`
      and `addresses` (their `InterfaceIpv4`/`InterfaceIpv6`), so the record
      carries them too; `autoconf` is only meaningful for IPv6. */
  datatype InterfaceIp = InterfaceIp(
    enabled: bool,
    dhcp: bool,
    autoconf: bool,
    addresses: seq<InterfaceIpAddr>)

  /** `Default for InterfaceIp`: disabled, no flags, no addresses. */
  const DEFAULT_IP: InterfaceIp := InterfaceIp(false, false, false, [])

  /** The default block is disabled and has nothing set. */
  lemma DefaultIpDisabled()
    ensures !DEFAULT_IP.enabled && !DEFAULT_IP.dhcp && !DEFAULT_IP.autoconf
    ensures DEFAULT_IP.addresses == []
  {
  }

  /** The value `self.update(other)` leaves in `self`. */
  function UpdatedIp(self: InterfaceIp, other: InterfaceIp): InterfaceIp
  {
    self.(enabled := other.enabled)
  }

  /** `InterfaceIp::update`: overwrites `enabled` and nothing else. */
  method Update(self: InterfaceIp, other: InterfaceIp) returns (updated: InterfaceIp)
    ensures updated == UpdatedIp(self, other)
    ensures updated.enabled == other.enabled
    ensures updated.dhcp == self.dhcp && updated.autoconf == self.autoconf
    ensures updated.addresses == self.addresses
  {
    updated := self;
    updated := updated.(enabled := other.enabled);
  }

  lemma UpdateIdempotent(self: InterfaceIp, other: InterfaceIp)
    ensures UpdatedIp(UpdatedIp(self, other), other) == UpdatedIp(self, other)
  {
  }

  /** Updating with an equal value is a no-op. */
  lemma UpdateWithSelf(self: InterfaceIp)
    ensures UpdatedIp(self, self) == self
  {
  }
}

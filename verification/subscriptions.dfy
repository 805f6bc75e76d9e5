/** The subscription rows, which the VPN and the billing tables share. */
module Subscriptions {
  datatype Protocol = WireGuard | VlessReality | Shadowsocks | Trojan

  datatype SubStatus = Active | Paused | Blocked | Expired | Migrated | Deleted

  datatype Sub = Sub(user: nat, server: nat, country: nat, protocol: Protocol, status: SubStatus, expiresAt: int)
}

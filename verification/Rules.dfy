/** Values shared by the IP-ban control plane: addresses, risk reports and rules
    (src/ipban/include/rule.h, src/ipban/include/ip.h, src/ipban/judge.cpp). */
module Rules {

  datatype Option<+T> = None | Some(value: T)

  datatype Fam = V4 | V6

  /** An address or a network. IPv4 uses the first four bytes only. */
  datatype Ip = Ip(fam: Fam, prefix: nat, bytes: seq<bv8>)

  datatype Src = WAF | RATE | BIZ | ADMIN | STATIC | EMERG

  datatype Act = ALLOW | DENY

  datatype Rule = Rule(
    id: string,
    ip: Ip,
    action: Act,
    src: Src,
    priority: int,
    createdAtMs: nat,
    expireAtMs: nat,   // absolute; 0 means permanent
    version: nat,
    reason: string)

  datatype Risk = Risk(id: string, ip: Ip, src: Src, banMs: nat, reason: string)

  const INT64_MAX: nat := 0x7FFF_FFFF_FFFF_FFFF
  const UINT64_MAX: nat := 0xFFFF_FFFF_FFFF_FFFF

  function RulePriority(src: Src, action: Act): int {
    match src
    case EMERG => 1000
    case ADMIN => if action == DENY then 900 else 800
    case STATIC => if action == ALLOW then 750 else 300
    case WAF => 600
    case BIZ => 500
    case RATE => 400
  }

  function SrcName(src: Src): string {
    match src
    case WAF => "waf"
    case RATE => "rate"
    case BIZ => "biz"
    case ADMIN => "admin"
    case STATIC => "static"
    case EMERG => "emerg"
  }

  /** Expiry as the arbiter compares it: permanent is the largest. */
  function Deadline(r: Rule): nat {
    if r.expireAtMs == 0 then UINT64_MAX else r.expireAtMs
  }

  /** Has the rule's lifetime passed at `now`? */
  predicate Gone(r: Rule, now: nat) {
    r.expireAtMs != 0 && r.expireAtMs <= now
  }
}

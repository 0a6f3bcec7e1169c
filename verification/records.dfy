/** Resource records as the backend hands them to the zone check, the decoded
    view of their content, and the zone's configuration. */
module Records {
  import opened Common
  import opened Names

  /** A record type by its 16-bit numeric code. */
  type QType = c: nat | c < 0x1_0000

  type Uint32 = n: nat | n < 0x1_0000_0000

  /** The backend's pseudo-type for empty non-terminals. */
  const ENT: QType := 0
  const A: QType := 1
  const NS: QType := 2
  const CNAME: QType := 5
  const SOA: QType := 6
  const MX: QType := 15
  const TXT: QType := 16
  const AAAA: QType := 28
  const SRV: QType := 33
  const DNAME: QType := 39
  const DS: QType := 43
  const RRSIG: QType := 46
  const NSEC: QType := 47
  const DNSKEY: QType := 48
  const NSEC3: QType := 50
  const TLSA: QType := 52
  const SVCB: QType := 64
  const HTTPS: QType := 65

  /** Service-binding parameter keys (the SvcParamKey registry). */
  const MandatoryKey: nat := 0
  const AlpnKey: nat := 1
  const NoDefaultAlpnKey: nat := 2

  /** One row of a zone: owner, type, TTL, the content in zone-file text, and
      whether the rectifier marked it authoritative. The class is always IN. */
  datatype Record = Record(qname: Name, qtype: QType, ttl: Uint32, content: string, auth: bool)

  predicate IsAddress(t: QType) {
    t == A || t == AAAA
  }

  /** The parts of decoded content the zone check looks at. */
  datatype RData =
    | Opaque
      /** NS, MX and SRV: the host name the record points at. */
    | Host(target: Name)
      /** SVCB and HTTPS: priority (0 is alias form), target, the keys of
          the parameters present, the keys listed by `mandatory`, and whether
          the IPv4/IPv6 hints are set to "auto". */
    | Service(priority: nat, target: Name, params: set<nat>, mandatory: set<nat>,
              autoV4: bool, autoV6: bool)
      /** RRSIG: the type it covers. */
    | Signature(covered: QType)

  /** The codec's verdict on one content string: `canonical` is false when
      the content does not render back to itself (ignoring case; for AAAA,
      when it is not a plain IPv6 literal), which is worth a warning. */
  datatype Decoded = Decoded(canonical: bool, data: RData)

  datatype Nsec3Param = Nsec3Param(flags: nat)

  /** Everything about the zone the check reads besides its records. The
      codec and the hostname rules are oracles; the flags are the DNSSEC
      posture; `supplied` says the records came from an editing buffer
      rather than from the backend's listing. `metadata` lists the zone's
      metadata kinds with their values, in the backend's order; the backend
      holds each kind once, and each entry is checked on its own. */
  datatype Config = Config(
    zone: Name,
    decode: (QType, string) -> Option<Decoded>,
    isHostname: Name -> bool,
    hostnameFault: Record -> bool,
    secured: bool,
    nsec3: Option<Nsec3Param>,
    presigned: bool,
    directDnskey: bool,
    backendDnssec: bool,
    supplied: bool,
    soaMinimum: Uint32,
    metadata: seq<(string, seq<string>)>)

  /** The shape of data the codec of type `t` produces: NS, MX and SRV
      content names a host, SVCB and HTTPS content is a service binding,
      RRSIG content names the type it covers, and the content of every
      other type is opaque to the zone check. */
  predicate FitsType(t: QType, d: RData) {
    match d
    case Opaque => t != NS && t != MX && t != SRV && t != SVCB && t != HTTPS && t != RRSIG
    case Host(_) => t == NS || t == MX || t == SRV
    case Service(_, _, _, _, _, _) => t == SVCB || t == HTTPS
    case Signature(_) => t == RRSIG
  }

  /** Content of type `t` as that type's own parser reads it. A parser only
      yields content of its own class, so an answer of another shape is
      taken as content that does not parse. */
  function Decode(cfg: Config, t: QType, content: string): (r: Option<Decoded>)
    ensures r.Some? ==> FitsType(t, r.value.data) && r == cfg.decode(t, content)
    ensures cfg.decode(t, content).Some? && FitsType(t, cfg.decode(t, content).value.data) ==> r.Some?
  {
    match cfg.decode(t, content)
    case Some(d) => if FitsType(t, d.data) then Some(d) else None
    case None => None
  }

  /** NSEC3 with the opt-out flag set. */
  predicate OptOut(cfg: Config) {
    cfg.nsec3.Some? && cfg.nsec3.value.flags != 0
  }
}

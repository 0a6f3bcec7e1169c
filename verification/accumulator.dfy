/** The single pass over the zone's records: each record is normalised,
    entered into the name indices the cross-record rules consult, checked
    on its own, and either kept or excluded at the first exit it meets. */
module Accumulator {
  import opened Common
  import opened Names
  import opened Records
  import opened Findings
  import opened Normaliser

  /** One SVCB or HTTPS record as the target rules see it: owner, priority,
      target, and whether IPv4/IPv6 hints are automatic. */
  datatype SvcTarget = SvcTarget(owner: Name, priority: nat, target: Name, autoV4: bool, autoV6: bool)

  /** Per service type: owners of alias-form records, owners of any record,
      and the distinct target tuples. */
  datatype SvcIndex = SvcIndex(aliases: set<Name>, owners: set<Name>, targets: seq<SvcTarget>)

  /** A name that hides what lies below it: a non-apex NS (a delegation)
      or a DNAME. */
  datatype Occluder = Occluder(owner: Name, qtype: QType)

  /** The identity of a record within its rrset: owner, type and content,
      lower-cased except for TXT. */
  datatype DupKey = DupKey(owner: Name, qtype: QType, content: string)

  /** The rrset a TTL belongs to; an RRSIG's rrset is also keyed by the type
      it covers. */
  datatype TtlKey = TtlKey(owner: Name, qtype: QType, covered: Option<QType>)

  /** The eight points at which the pass drops a record, in pass order:
      content that does not decode, an owner outside the zone, a duplicate
      of an earlier record, a TTL that differs from the rrset's first, an
      SOA below the apex, a second CNAME at one owner, an RRSIG in a zone
      that is not presigned, and NSEC/NSEC3. */
  datatype Exit = Malformed | Outside | Duplicate | TtlClash | StraySoa | SecondCname | Unsigned | Synthetic

  /** The error each exit reports. */
  function ExitKind(e: Exit): (k: Kind)
    ensures SeverityOf(k) == Error
  {
    match e
    case Malformed => Err(MalformedContent)
    case Outside => Err(OutOfZone)
    case Duplicate => Err(DuplicateRecord)
    case TtlClash => Err(TtlMismatch)
    case StraySoa => Err(SoaNotAtApex)
    case SecondCname => Err(DuplicateCname)
    case Unsigned => Err(UnsignedRrsig)
    case Synthetic => Err(SyntheticType)
  }

  /** How the pass left a record: kept, or excluded at an exit. */
  datatype Fate = Kept | Excluded(exit: Exit)

  /** The accumulated indices. All names in them are canonical. */
  datatype State = State(
    records: seq<Record>,        // the normalised working copies, in input order
    fates: seq<Fate>,            // one per record processed
    tlsas: seq<Name>,
    addresses: set<Name>,
    aRecords: set<Name>,
    aaaaRecords: set<Name>,
    svcb: SvcIndex,
    https: SvcIndex,
    contents: set<DupKey>,
    ttls: map<TtlKey, Uint32>,
    apexNs: bool,
    cnames: seq<Name>,
    noncnames: set<Name>,
    glue: set<Name>,
    checkGlue: seq<Name>,
    occluders: seq<Occluder>,
    cnameChecks: seq<Record>)

  const NoService := SvcIndex({}, {}, [])

  const Init := State([], [], [], {}, {}, {}, NoService, NoService, {}, map[], false, [], {}, {}, [], [], [])

  function DupKeyOf(r: Record): DupKey {
    if r.qtype == TXT then DupKey(r.qname, r.qtype, r.content)
    else DupKey(Canon(r.qname), r.qtype, Lower(r.content))
  }

  /** The decoded data of a record's content; `Opaque` when it does not parse. */
  function DataOf(cfg: Config, r: Record): RData {
    match Decode(cfg, r.qtype, r.content)
    case Some(d) => d.data
    case None => Opaque
  }

  function TtlKeyFor(cfg: Config, r: Record): TtlKey {
    var data := DataOf(cfg, r);
    TtlKey(Canon(r.qname), r.qtype, if r.qtype == RRSIG && data.Signature? then Some(data.covered) else None)
  }

  /** The exit a record's working copy takes, given the indices built from
      the records before it: the eight exclusion points in the order the
      pass meets them. */
  function FateOf(cfg: Config, s: State, r: Record): Fate {
    match Decode(cfg, r.qtype, r.content)
    case None => Excluded(Malformed)
    case Some(d) =>
      if !IsPartOf(r.qname, cfg.zone) then Excluded(Outside)
      else if DupKeyOf(r) in s.contents then Excluded(Duplicate)
      else if TtlKeyFor(cfg, r) in s.ttls && s.ttls[TtlKeyFor(cfg, r)] != r.ttl then Excluded(TtlClash)
      else if !SameName(r.qname, cfg.zone) && r.qtype == SOA then Excluded(StraySoa)
      else if r.qtype == CNAME && Canon(r.qname) in s.cnames then Excluded(SecondCname)
      else if r.qtype == RRSIG && !cfg.presigned then Excluded(Unsigned)
      else if r.qtype == NSEC || r.qtype == NSEC3 then Excluded(Synthetic)
      else Kept
  }

  /** The record left the pass at some exit. */
  predicate IsExcluded(f: Fate) {
    f.Excluded?
  }

  /** The position of each exit in the pass (0 for the first). */
  function ExitOrder(e: Exit): nat {
    match e
    case Malformed => 0
    case Outside => 1
    case Duplicate => 2
    case TtlClash => 3
    case StraySoa => 4
    case SecondCname => 5
    case Unsigned => 6
    case Synthetic => 7
  }

  /** The record got past the exit of kind `k`: it was kept, or it left at
      a later exit. Every effect of the pass that lies after that exit
      happens exactly for such records. */
  predicate Passed(f: Fate, k: Exit) {
    f.Kept? || ExitOrder(f.exit) > ExitOrder(k)
  }

  /** The record reached the exit of kind `k` (it may have left there). */
  predicate Reached(f: Fate, k: Exit) {
    f.Kept? || ExitOrder(f.exit) >= ExitOrder(k)
  }

  /** Whether decoded content renders back to itself (vacuously true when it
      does not decode; such a record leaves at the first exit). */
  predicate Canonical(cfg: Config, r: Record) {
    match Decode(cfg, r.qtype, r.content)
    case Some(d) => d.canonical
    case None => true
  }

  function Note(r: Record, k: Kind, b: bool): seq<Finding> {
    When(b, OnRecord(k, r.qname, r.qtype))
  }

  predicate IsService(r: Record, data: RData) {
    (r.qtype == SVCB || r.qtype == HTTPS) && data.Service?
  }

  /** Self-consistency warnings for one SVCB/HTTPS record: parameters on an
      alias form; on a service form, no-default-alpn without alpn, and one
      warning per key `mandatory` lists that is not present. */
  function ServiceNotes(r: Record, data: RData): (fs: seq<Finding>)
    requires data.Service?
    ensures forall g :: g in fs ==> g.kind == Warn(AliasHasParams) || g.kind == Warn(AlpnMissing) || g.kind == Warn(MandatoryMissing)
  {
    Note(r, Warn(AliasHasParams), data.priority == 0 && data.params != {})
    + Note(r, Warn(AlpnMissing), data.priority != 0 && NoDefaultAlpnKey in data.params && AlpnKey !in data.params)
    + Repeat(OnRecord(Warn(MandatoryMissing), r.qname, r.qtype), MissingMandatory(data))
  }

  /** How many keys a service-form record's `mandatory` parameter lists
      without the record carrying them. */
  function MissingMandatory(data: RData): nat
    requires data.Service?
  {
    if data.priority != 0 && MandatoryKey in data.params then |data.mandatory - data.params| else 0
  }

  /** One warning per missing mandatory key and one for no-default-alpn
      without alpn, both on a service form only, and one for an alias form
      carrying parameters. */
  lemma ServiceNotesCounts(r: Record, data: RData)
    requires data.Service?
    ensures CountKind(ServiceNotes(r, data), Warn(MandatoryMissing))
         == if data.priority != 0 && MandatoryKey in data.params then |data.mandatory - data.params| else 0
    ensures CountKind(ServiceNotes(r, data), Warn(AlpnMissing))
         == if data.priority != 0 && NoDefaultAlpnKey in data.params && AlpnKey !in data.params then 1 else 0
    ensures CountKind(ServiceNotes(r, data), Warn(AliasHasParams)) == if data.priority == 0 && data.params != {} then 1 else 0
  {
    ServiceNotesCount(r, data, Warn(MandatoryMissing));
    ServiceNotesCount(r, data, Warn(AlpnMissing));
    ServiceNotesCount(r, data, Warn(AliasHasParams));
  }

  /** The count of one kind splits over the two single notes and the
      repeated mandatory-key warning. */
  lemma ServiceNotesCount(r: Record, data: RData, k: Kind)
    requires data.Service?
    ensures CountKind(ServiceNotes(r, data), k)
         == (if data.priority == 0 && data.params != {} && k == Warn(AliasHasParams) then 1 else 0)
          + (if data.priority != 0 && NoDefaultAlpnKey in data.params && AlpnKey !in data.params
                && k == Warn(AlpnMissing) then 1 else 0)
          + (if k == Warn(MandatoryMissing) then MissingMandatory(data) else 0)
  {
    var a := data.priority == 0 && data.params != {};
    var b := data.priority != 0 && NoDefaultAlpnKey in data.params && AlpnKey !in data.params;
    var g := OnRecord(Warn(MandatoryMissing), r.qname, r.qtype);
    WhenPairCounts(a, OnRecord(Warn(AliasHasParams), r.qname, r.qtype), b, OnRecord(Warn(AlpnMissing), r.qname, r.qtype), k, Error);
    RepeatKinds(g, MissingMandatory(data), k);
    CountKindAppend(Note(r, Warn(AliasHasParams), a) + Note(r, Warn(AlpnMissing), b), Repeat(g, MissingMandatory(data)), k);
  }

  /** The index of the record's service type. */
  function ServiceIndex(s: State, t: QType): SvcIndex {
    if t == SVCB then s.svcb else s.https
  }

  /** The target tuple of an SVCB/HTTPS record, names lower-cased. */
  function TupleOf(r: Record, data: RData): SvcTarget
    requires data.Service?
  {
    SvcTarget(Canon(r.qname), data.priority, Canon(data.target), data.autoV4, data.autoV6)
  }

  function IndexInto(idx: SvcIndex, r: Record, data: RData): SvcIndex
    requires data.Service?
  {
    var owner := Canon(r.qname);
    SvcIndex(if data.priority == 0 then idx.aliases + {owner} else idx.aliases,
             idx.owners + {owner},
             Insert(idx.targets, TupleOf(r, data)))
  }

  /** The warning for content that does not render back to itself. */
  function ContentNotes(cfg: Config, r: Record, f: Fate): seq<Finding> {
    Note(r, if r.qtype == AAAA then Warn(InvalidIPv6) else Warn(ContentMismatch),
         Passed(f, Malformed) && !Canonical(cfg, r))
  }

  /** An in-zone SVCB/HTTPS record's self-consistency warnings, and the
      warning for a second alias form at the same owner. */
  function ServiceFindings(cfg: Config, s: State, r: Record, f: Fate): seq<Finding> {
    var data := DataOf(cfg, r);
    if Passed(f, Outside) && IsService(r, data) then
      ServiceNotes(r, data)
      + Note(r, Warn(DuplicateAlias), data.priority == 0 && Canon(r.qname) in ServiceIndex(s, r.qtype).aliases)
    else []
  }

  /** Wildcards in opt-out zones, DS at the apex, DNSKEY below it, and the
      hostname rules. */
  function PlacementNotes(cfg: Config, r: Record, f: Fate): seq<Finding> {
    var apex := SameName(r.qname, cfg.zone);
    var wild := Passed(f, TtlClash) && cfg.secured && OptOut(cfg) && IsWildcard(r.qname);
    Note(r, Warn(InsecureWildcard), wild)
    + Note(r, Inform(WildcardHint), wild)
    + Note(r, Warn(DsAtApex), Passed(f, TtlClash) && apex && r.qtype == DS)
    + Note(r, Warn(DnskeyNotAtApex), Passed(f, StraySoa) && !apex && r.qtype == DNSKEY)
    + Note(r, Inform(NotHostname), Passed(f, StraySoa) && IsAddress(r.qtype)
                           && !IsWildcard(r.qname) && !cfg.isHostname(r.qname))
    + Note(r, Warn(HostnameFault), Passed(f, StraySoa) && cfg.hostnameFault(r))
  }

  /** A DNSKEY kept in a zone that is not presigned is mostly ignored, or,
      when DNSKEYs are served directly, should have the SOA minimum as TTL. */
  function DnskeyNotes(cfg: Config, r: Record, f: Fate): seq<Finding> {
    Note(r, Warn(DnskeyIgnored), f.Kept? && !cfg.presigned && r.qtype == DNSKEY && !cfg.directDnskey)
    + Note(r, Warn(DnskeyTtl), f.Kept? && !cfg.presigned && r.qtype == DNSKEY && cfg.directDnskey
                         && r.ttl != cfg.soaMinimum)
  }

  /** Everything the pass reports about one record, in the order it reports
      it: the normaliser's findings on the content as given, then the notes
      on the working copy, then the error of the exit it took, if any. Each
      note is issued only when the record got past the exits that precede
      it in the pass, so the exit error always comes last. */
  function RecordFindings(cfg: Config, s: State, input: Record, f: Fate): seq<Finding> {
    var r := Normalise(input);
    NormaliserFindings(input)
    + ContentNotes(cfg, r, f) + ServiceFindings(cfg, s, r, f) + PlacementNotes(cfg, r, f) + DnskeyNotes(cfg, r, f)
    + (if f.Excluded? then [OnRecord(ExitKind(f.exit), r.qname, r.qtype)] else [])
  }

  /** Processes one record's working copy: its fate is decided by the
      exits, and each index is extended only if the record got past the
      exits that precede the update in the pass. TLSA and address indices
      are filled before any exit. */
  function Step(cfg: Config, s: State, r: Record): (t: State)
    ensures t.fates == s.fates + [FateOf(cfg, s, r)]
    ensures t.records == s.records + [r]
  {
    var f := FateOf(cfg, s, r);
    var data := DataOf(cfg, r);
    var owner := Canon(r.qname);
    var apex := SameName(r.qname, cfg.zone);
    var ttlKey := TtlKeyFor(cfg, r);
    var service := Passed(f, Outside) && IsService(r, data);
    var delegation := Passed(f, StraySoa) && !apex && r.qtype == NS;
    State(
      records := s.records + [r],
      fates := s.fates + [f],
      tlsas := if r.qtype == TLSA then Insert(s.tlsas, owner) else s.tlsas,
      addresses := if IsAddress(r.qtype) then s.addresses + {owner} else s.addresses,
      aRecords := if r.qtype == A then s.aRecords + {owner} else s.aRecords,
      aaaaRecords := if r.qtype == AAAA then s.aaaaRecords + {owner} else s.aaaaRecords,
      svcb := if service && r.qtype == SVCB then IndexInto(s.svcb, r, data) else s.svcb,
      https := if service && r.qtype == HTTPS then IndexInto(s.https, r, data) else s.https,
      contents := if Passed(f, Duplicate) then s.contents + {DupKeyOf(r)} else s.contents,
      ttls := if Passed(f, TtlClash) && ttlKey !in s.ttls then s.ttls[ttlKey := r.ttl] else s.ttls,
      apexNs := s.apexNs || (Passed(f, TtlClash) && apex && r.qtype == NS),
      cnames := if Passed(f, SecondCname) && r.qtype == CNAME then Insert(s.cnames, owner) else s.cnames,
      noncnames := if Passed(f, StraySoa) && r.qtype != CNAME && r.qtype != RRSIG
                   then s.noncnames + {owner} else s.noncnames,
      glue := if Passed(f, StraySoa) && !apex && IsAddress(r.qtype) then s.glue + {owner} else s.glue,
      checkGlue := if delegation && data.Host? && IsPartOf(data.target, r.qname)
                   then Insert(s.checkGlue, Canon(data.target)) else s.checkGlue,
      occluders := if delegation || (Passed(f, StraySoa) && r.qtype == DNAME)
                   then Insert(s.occluders, Occluder(owner, r.qtype)) else s.occluders,
      cnameChecks := if Passed(f, Unsigned) && (r.qtype == MX || r.qtype == NS || r.qtype == SRV)
                     then s.cnameChecks + [r] else s.cnameChecks)
  }

  /** The pass over a sequence of records, as a left fold over their working
      copies. */
  function Run(cfg: Config, rs: seq<Record>): (s: State)
    ensures |s.fates| == |rs| && |s.records| == |rs|
  {
    if rs == [] then Init else Step(cfg, Run(cfg, rs[..|rs| - 1]), Normalise(rs[|rs| - 1]))
  }

  /** What the pass reports, record by record: each record's findings are
      judged against the indices the records before it built. */
  function PassFindings(cfg: Config, rs: seq<Record>): seq<Finding> {
    if rs == [] then []
    else
      var prev := Run(cfg, rs[..|rs| - 1]);
      var x := rs[|rs| - 1];
      PassFindings(cfg, rs[..|rs| - 1]) + RecordFindings(cfg, prev, x, FateOf(cfg, prev, Normalise(x)))
  }
}

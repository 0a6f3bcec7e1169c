/** The rules that run once the pass is over, each over the indices the
    pass built: CNAMEs sharing a name with other data, TLSA records without
    data at the name they protect, SVCB/HTTPS targets, the apex NS, glue,
    occluded records, targets that are CNAMEs, and the authoritative flag. */
module Rules {
  import opened Common
  import opened Names
  import opened Records
  import opened Findings
  import opened Accumulator

  /** Some record other than a CNAME or RRSIG, or a CNAME, got past the
      exits at name `n`. */
  predicate HasData(s: State, n: Name) {
    n in s.cnames || n in s.noncnames
  }

  // ---------------------------------------------------------------- CNAME

  function CnameConflict(s: State, n: Name): seq<Finding> {
    When(n in s.noncnames, OnName(Err(CnameAndOther), n))
  }

  function CnameConflictCheck(s: State): Name -> seq<Finding> {
    n => CnameConflict(s, n)
  }

  /** One error per CNAME owner that also owns other data. */
  function CnameConflicts(s: State): seq<Finding> {
    EmitEach(s.cnames, CnameConflictCheck(s))
  }

  lemma CnameConflictCounts(s: State, n: Name)
    ensures CountKind(CnameConflict(s, n), Err(CnameAndOther)) == if n in s.noncnames then 1 else 0
    ensures Errors(CnameConflict(s, n)) == if n in s.noncnames then 1 else 0
  {
    WhenCounts(n in s.noncnames, OnName(Err(CnameAndOther), n), Err(CnameAndOther), Error);
  }

  /** The rule reports one error per distinct name holding both a CNAME and
      other data, and nothing else. */
  lemma CnameConflictsCount(s: State)
    requires Distinct(s.cnames)
    ensures Errors(CnameConflicts(s)) == CountKind(CnameConflicts(s), Err(CnameAndOther))
                                    == |set n | n in s.cnames && n in s.noncnames|
  {
    var p := (n: Name) => n in s.noncnames;
    forall n | n in s.cnames
      ensures CountKind(CnameConflictCheck(s)(n), Err(CnameAndOther)) == if p(n) then 1 else 0
      ensures CountSeverity(CnameConflictCheck(s)(n), Error) == if p(n) then 1 else 0
    {
      CnameConflictCounts(s, n);
    }
    CountEmitEach(s.cnames, CnameConflictCheck(s), Err(CnameAndOther), p);
    CountSeverityEmitEach(s.cnames, CnameConflictCheck(s), Error, p);
    IndicesWhereDistinct(s.cnames, p);
    assert Matching(s.cnames, p) == (set n | n in s.cnames && n in s.noncnames);
  }

  /** A name's conflict is reported at most once, and exactly when it owns
      a CNAME and other data. */
  lemma CnameConflictOnce(s: State, n: Name)
    requires Distinct(s.cnames)
    ensures multiset(CnameConflicts(s))[OnName(Err(CnameAndOther), n)]
         == if n in s.cnames && n in s.noncnames then 1 else 0
  {
    forall m | m in s.cnames && m != n
      ensures OnName(Err(CnameAndOther), n) !in CnameConflictCheck(s)(m)
    {
    }
    OccurrencesEmitEach(s.cnames, CnameConflictCheck(s), OnName(Err(CnameAndOther), n), n);
  }

  // ----------------------------------------------------------------- TLSA

  /** The name a TLSA record protects: its owner without the port and
      protocol labels. Names of fewer than two labels are left whole, as the
      unsigned subtraction in the label count makes the trim a no-op. */
  function TlsaBase(n: Name): (b: Name)
    ensures |n| >= 2 ==> |b| == |n| - 2 && b == n[|n| - |b|..]
    ensures |n| < 2 ==> b == n
  {
    if |n| >= 2 then n[2..] else n
  }

  /** The wildcard that would cover `n`: its leftmost label replaced by `*`
      (just `*` for the root). */
  function WildcardSibling(n: Name): (w: Name)
    ensures IsWildcard(w)
    ensures n != [] ==> |w| == |n| && w[1..] == n[1..]
  {
    ["*"] + (if n == [] then [] else n[1..])
  }

  /** The protected name is the TLSA owner's ancestor two labels up: the
      owner lies at or below it, two labels deeper. */
  lemma TlsaBaseAncestor(n: Name)
    ensures IsPartOf(n, TlsaBase(n))
    ensures |TlsaBase(n)| == if |n| >= 2 then |n| - 2 else |n|
  {
  }

  /** The covering wildcard is a sibling of `n`: a wildcard of the same
      depth under the same parent, so `n` lies below the wildcard's
      parent and the wildcard below `n`'s. */
  lemma WildcardIsSibling(n: Name)
    requires n != []
    ensures IsWildcard(WildcardSibling(n)) && |WildcardSibling(n)| == |n|
    ensures IsPartOf(n, WildcardSibling(n)[1..]) && IsPartOf(WildcardSibling(n), n[1..])
  {
  }

  function TlsaCheck(s: State, n: Name): seq<Finding> {
    var base := TlsaBase(n);
    When(!HasData(s, base),
         OnName(if HasData(s, WildcardSibling(base)) then Warn(TlsaWildcardOnly) else Warn(TlsaOrphan), n))
  }

  function TlsaCheckFor(s: State): Name -> seq<Finding> {
    n => TlsaCheck(s, n)
  }

  /** One warning per TLSA owner whose protected name has no data. */
  function TlsaFindings(s: State): seq<Finding> {
    EmitEach(s.tlsas, TlsaCheckFor(s))
  }

  /** A TLSA owner draws one warning exactly when its protected name holds
      no data; the warning says whether a wildcard covers that name. */
  lemma TlsaCheckCounts(s: State, n: Name)
    ensures Warnings(TlsaCheck(s, n)) == if HasData(s, TlsaBase(n)) then 0 else 1
    ensures Errors(TlsaCheck(s, n)) == 0
    ensures CountKind(TlsaCheck(s, n), Warn(TlsaWildcardOnly))
         == if !HasData(s, TlsaBase(n)) && HasData(s, WildcardSibling(TlsaBase(n))) then 1 else 0
    ensures CountKind(TlsaCheck(s, n), Warn(TlsaOrphan))
         == if !HasData(s, TlsaBase(n)) && !HasData(s, WildcardSibling(TlsaBase(n))) then 1 else 0
  {
    var base := TlsaBase(n);
    var g := OnName(if HasData(s, WildcardSibling(base)) then Warn(TlsaWildcardOnly) else Warn(TlsaOrphan), n);
    WhenCounts(!HasData(s, base), g, Warn(TlsaWildcardOnly), Warning);
    WhenCounts(!HasData(s, base), g, Warn(TlsaOrphan), Error);
  }

  /** The TLSA rule warns once per distinct TLSA owner whose protected name
      holds no data ... */
  lemma TlsaWarnings(s: State)
    requires Distinct(s.tlsas)
    ensures Warnings(TlsaFindings(s)) == |set n | n in s.tlsas && !HasData(s, TlsaBase(n))|
  {
    TlsaWarningsMatching(s);
    UnprotectedOwners(s);
  }

  /** The TLSA owners whose protected name holds no data. */
  function Unprotected(s: State): Name -> bool {
    n => !HasData(s, TlsaBase(n))
  }

  lemma TlsaWarningsMatching(s: State)
    requires Distinct(s.tlsas)
    ensures Warnings(TlsaFindings(s)) == |Matching(s.tlsas, Unprotected(s))|
  {
    var p := Unprotected(s);
    forall n | n in s.tlsas
      ensures CountSeverity(TlsaCheckFor(s)(n), Warning) == if p(n) then 1 else 0
    {
      TlsaCheckCounts(s, n);
    }
    CountSeverityEmitEach(s.tlsas, TlsaCheckFor(s), Warning, p);
    IndicesWhereDistinct(s.tlsas, p);
  }

  lemma UnprotectedOwners(s: State)
    ensures Matching(s.tlsas, Unprotected(s)) == set n | n in s.tlsas && !HasData(s, TlsaBase(n))
  {
  }

  /** ... and never reports an error. */
  lemma TlsaNoErrors(s: State)
    ensures Errors(TlsaFindings(s)) == 0
  {
    forall n | n in s.tlsas
      ensures CountSeverity(TlsaCheckFor(s)(n), Error) == 0
    {
      TlsaCheckCounts(s, n);
    }
    SeverityEmitEachZero(s.tlsas, TlsaCheckFor(s), Error);
  }

  // ------------------------------------------------------------ SVCB/HTTPS

  /** Where automatic address hints are looked up: at the owner when the
      target is the root (the "." target means the owner itself). */
  function HintsAt(x: SvcTarget): (n: Name)
    ensures IsRoot(x.target) ==> n == x.owner
    ensures !IsRoot(x.target) ==> n == x.target
  {
    if IsRoot(x.target) then x.owner else x.target
  }

  /** An alias-form record whose in-zone target has neither an address
      record nor a record of the same service type. */
  predicate DanglingAlias(cfg: Config, s: State, t: QType, x: SvcTarget) {
    x.priority == 0 && IsPartOf(x.target, cfg.zone)
    && x.target !in s.addresses && x.target !in ServiceIndex(s, t).owners
  }

  predicate SelfTargeted(x: SvcTarget) {
    x.owner == x.target
  }

  function SelfNote(t: QType, x: SvcTarget): seq<Finding> {
    When(SelfTargeted(x), OnRecord(Err(SelfTarget), x.owner, t))
  }

  /** The alias-form rules: an alias-form target that is itself in alias
      form, and a dangling one. */
  function AliasNotes(cfg: Config, s: State, t: QType, x: SvcTarget): seq<Finding> {
    var idx := ServiceIndex(s, t);
    if x.priority == 0 && IsPartOf(x.target, cfg.zone) then
      When(x.target in idx.aliases, OnRecord(Warn(AliasChain), x.owner, t))
      + When(x.target !in s.addresses && x.target !in idx.owners, OnRecord(Err(TargetMissing), x.owner, t))
    else []
  }

  /** The service-form rules on automatic address hints. */
  function HintNotes(s: State, t: QType, x: SvcTarget): seq<Finding> {
    if x.priority > 0 then
      When(x.autoV4 && HintsAt(x) !in s.aRecords, OnRecord(Warn(NoV4Target), x.owner, t))
      + When(x.autoV6 && HintsAt(x) !in s.aaaaRecords, OnRecord(Warn(NoV6Target), x.owner, t))
    else []
  }

  function TargetCheck(cfg: Config, s: State, t: QType, x: SvcTarget): seq<Finding> {
    SelfNote(t, x) + AliasNotes(cfg, s, t, x) + HintNotes(s, t, x)
  }

  function TargetCheckFor(cfg: Config, s: State, t: QType): SvcTarget -> seq<Finding> {
    x => TargetCheck(cfg, s, t, x)
  }

  /** The target rules over every distinct target tuple of one service type. */
  function TargetFindings(cfg: Config, s: State, t: QType): seq<Finding> {
    EmitEach(ServiceIndex(s, t).targets, TargetCheckFor(cfg, s, t))
  }

  /** The alias-form notes as two optional findings. */
  lemma AliasNotesShape(cfg: Config, s: State, t: QType, x: SvcTarget)
    ensures var idx := ServiceIndex(s, t);
      AliasNotes(cfg, s, t, x)
      == When(x.priority == 0 && IsPartOf(x.target, cfg.zone) && x.target in idx.aliases,
              OnRecord(Warn(AliasChain), x.owner, t))
         + When(DanglingAlias(cfg, s, t, x), OnRecord(Err(TargetMissing), x.owner, t))
  {
  }

  lemma AliasCounts(cfg: Config, s: State, t: QType, x: SvcTarget, k: Kind)
    ensures CountKind(AliasNotes(cfg, s, t, x), k)
         == (if k == Warn(AliasChain) && x.priority == 0 && IsPartOf(x.target, cfg.zone)
                && x.target in ServiceIndex(s, t).aliases then 1 else 0)
          + (if k == Err(TargetMissing) && DanglingAlias(cfg, s, t, x) then 1 else 0)
  {
    AliasNotesShape(cfg, s, t, x);
    var b1 := x.priority == 0 && IsPartOf(x.target, cfg.zone) && x.target in ServiceIndex(s, t).aliases;
    WhenPairCounts(b1, OnRecord(Warn(AliasChain), x.owner, t), DanglingAlias(cfg, s, t, x), OnRecord(Err(TargetMissing), x.owner, t), k, Error);
  }

  lemma AliasErrors(cfg: Config, s: State, t: QType, x: SvcTarget)
    ensures Errors(AliasNotes(cfg, s, t, x)) == if DanglingAlias(cfg, s, t, x) then 1 else 0
  {
    AliasNotesShape(cfg, s, t, x);
    var b1 := x.priority == 0 && IsPartOf(x.target, cfg.zone) && x.target in ServiceIndex(s, t).aliases;
    WhenPairCounts(b1, OnRecord(Warn(AliasChain), x.owner, t), DanglingAlias(cfg, s, t, x), OnRecord(Err(TargetMissing), x.owner, t), Warn(AliasChain), Error);
  }

  /** The hint notes as two optional findings. */
  lemma HintNotesShape(s: State, t: QType, x: SvcTarget)
    ensures HintNotes(s, t, x)
         == When(x.priority > 0 && x.autoV4 && HintsAt(x) !in s.aRecords, OnRecord(Warn(NoV4Target), x.owner, t))
            + When(x.priority > 0 && x.autoV6 && HintsAt(x) !in s.aaaaRecords, OnRecord(Warn(NoV6Target), x.owner, t))
  {
  }

  lemma HintCounts(s: State, t: QType, x: SvcTarget, k: Kind)
    ensures CountKind(HintNotes(s, t, x), k)
         == (if k == Warn(NoV4Target) && x.priority > 0 && x.autoV4 && HintsAt(x) !in s.aRecords then 1 else 0)
          + (if k == Warn(NoV6Target) && x.priority > 0 && x.autoV6 && HintsAt(x) !in s.aaaaRecords then 1 else 0)
  {
    HintNotesShape(s, t, x);
    WhenPairCounts(x.priority > 0 && x.autoV4 && HintsAt(x) !in s.aRecords, OnRecord(Warn(NoV4Target), x.owner, t),
                   x.priority > 0 && x.autoV6 && HintsAt(x) !in s.aaaaRecords, OnRecord(Warn(NoV6Target), x.owner, t), k, Error);
  }

  lemma HintErrors(s: State, t: QType, x: SvcTarget)
    ensures Errors(HintNotes(s, t, x)) == 0
  {
    HintNotesShape(s, t, x);
    WhenPairCounts(x.priority > 0 && x.autoV4 && HintsAt(x) !in s.aRecords, OnRecord(Warn(NoV4Target), x.owner, t),
                   x.priority > 0 && x.autoV6 && HintsAt(x) !in s.aaaaRecords, OnRecord(Warn(NoV6Target), x.owner, t), Warn(NoV4Target), Error);
  }

  /** Per target tuple: a record targeting its own owner is an error; an
      alias-form record with an in-zone target lacking both an address and a
      same-type record is an error; nothing else is. */
  lemma TargetCheckErrors(cfg: Config, s: State, t: QType, x: SvcTarget)
    ensures Errors(TargetCheck(cfg, s, t, x))
         == (if SelfTargeted(x) then 1 else 0) + (if DanglingAlias(cfg, s, t, x) then 1 else 0)
  {
    var a := SelfNote(t, x);
    var b := AliasNotes(cfg, s, t, x);
    var c := HintNotes(s, t, x);
    CountSeverityAppend(a + b, c, Error);
    CountSeverityAppend(a, b, Error);
    WhenCounts(SelfTargeted(x), OnRecord(Err(SelfTarget), x.owner, t), Err(SelfTarget), Error);
    AliasErrors(cfg, s, t, x);
    HintErrors(s, t, x);
  }

  /** Per target tuple, the count of each kind the target rules report:
      automatic hints of a service-form record need an A (AAAA) record at
      the target, or at the owner when the target is the root. */
  lemma TargetCheckKinds(cfg: Config, s: State, t: QType, x: SvcTarget, k: Kind)
    ensures CountKind(TargetCheck(cfg, s, t, x), k)
         == (if k == Err(SelfTarget) && SelfTargeted(x) then 1 else 0)
          + (if k == Warn(AliasChain) && x.priority == 0 && IsPartOf(x.target, cfg.zone)
                && x.target in ServiceIndex(s, t).aliases then 1 else 0)
          + (if k == Err(TargetMissing) && DanglingAlias(cfg, s, t, x) then 1 else 0)
          + (if k == Warn(NoV4Target) && x.priority > 0 && x.autoV4 && HintsAt(x) !in s.aRecords then 1 else 0)
          + (if k == Warn(NoV6Target) && x.priority > 0 && x.autoV6 && HintsAt(x) !in s.aaaaRecords then 1 else 0)
  {
    var a := SelfNote(t, x);
    var b := AliasNotes(cfg, s, t, x);
    var c := HintNotes(s, t, x);
    CountKindAppend(a + b, c, k);
    CountKindAppend(a, b, k);
    WhenCounts(SelfTargeted(x), OnRecord(Err(SelfTarget), x.owner, t), k, Error);
    AliasCounts(cfg, s, t, x, k);
    HintCounts(s, t, x, k);
  }

  /** The target rules of one service type report no error exactly when no
      tuple targets its own owner and no alias-form tuple dangles. */
  lemma TargetFindingsNoErrors(cfg: Config, s: State, t: QType)
    ensures Errors(TargetFindings(cfg, s, t)) == 0
        <==> forall x :: x in ServiceIndex(s, t).targets ==> !SelfTargeted(x) && !DanglingAlias(cfg, s, t, x)
  {
    forall x | x in ServiceIndex(s, t).targets
      ensures Errors(TargetCheckFor(cfg, s, t)(x)) == 0 <==> !SelfTargeted(x) && !DanglingAlias(cfg, s, t, x)
    {
      TargetCheckErrors(cfg, s, t, x);
    }
    ErrorsEmitEach(ServiceIndex(s, t).targets, TargetCheckFor(cfg, s, t));
  }

  // --------------------------------------------------------- apex and glue

  function ApexNsFindings(s: State): (fs: seq<Finding>)
    ensures Errors(fs) == if s.apexNs then 0 else 1
  {
    WhenCounts(!s.apexNs, OnZone(Err(NoApexNs)), Err(NoApexNs), Error);
    When(!s.apexNs, OnZone(Err(NoApexNs)))
  }

  function GlueCheck(s: State, q: Name): seq<Finding> {
    When(q !in s.glue, OnName(Warn(MissingGlue), q))
  }

  function GlueCheckFor(s: State): Name -> seq<Finding> {
    q => GlueCheck(s, q)
  }

  /** One warning per in-bailiwick delegation target without glue. */
  function GlueFindings(s: State): seq<Finding> {
    EmitEach(s.checkGlue, GlueCheckFor(s))
  }

  /** The glue rule warns once per distinct name needing glue that has
      none ... */
  lemma GlueWarnings(s: State)
    requires Distinct(s.checkGlue)
    ensures Warnings(GlueFindings(s)) == CountKind(GlueFindings(s), Warn(MissingGlue))
                                     == |set q | q in s.checkGlue && q !in s.glue|
  {
    var p := (q: Name) => q !in s.glue;
    forall q | q in s.checkGlue
      ensures CountSeverity(GlueCheckFor(s)(q), Warning) == if p(q) then 1 else 0
      ensures CountKind(GlueCheckFor(s)(q), Warn(MissingGlue)) == if p(q) then 1 else 0
    {
      WhenCounts(q !in s.glue, OnName(Warn(MissingGlue), q), Warn(MissingGlue), Warning);
    }
    CountSeverityEmitEach(s.checkGlue, GlueCheckFor(s), Warning, p);
    CountEmitEach(s.checkGlue, GlueCheckFor(s), Warn(MissingGlue), p);
    IndicesWhereDistinct(s.checkGlue, p);
    assert Matching(s.checkGlue, p) == (set q | q in s.checkGlue && q !in s.glue);
  }

  /** ... and never reports an error. */
  lemma GlueNoErrors(s: State)
    ensures Errors(GlueFindings(s)) == 0
  {
    forall q | q in s.checkGlue
      ensures CountSeverity(GlueCheckFor(s)(q), Error) == 0
    {
      WhenCounts(q !in s.glue, OnName(Warn(MissingGlue), q), Warn(MissingGlue), Error);
    }
    SeverityEmitEachZero(s.checkGlue, GlueCheckFor(s), Error);
  }

  lemma MissingGlueOnce(s: State, q: Name)
    requires Distinct(s.checkGlue)
    ensures multiset(GlueFindings(s))[OnName(Warn(MissingGlue), q)]
         == if q in s.checkGlue && q !in s.glue then 1 else 0
  {
    forall m | m in s.checkGlue && m != q
      ensures OnName(Warn(MissingGlue), q) !in GlueCheckFor(s)(m)
    {
    }
    OccurrencesEmitEach(s.checkGlue, GlueCheckFor(s), OnName(Warn(MissingGlue), q), q);
  }

  // ------------------------------------------------------------- occlusion

  /** Whether occluder `o` hides record `rr`. An NS hides neither the NS
      nor the DS records at its own name, and a DNAME does not hide itself;
      otherwise records at or below the occluder's name are hidden, except
      that a DNAME hides nothing at its own name and a delegation hides no
      glue (A, AAAA) or empty non-terminal. */
  predicate Occludes(o: Occluder, rr: Record) {
    if SameName(o.owner, rr.qname)
       && (((rr.qtype == NS || rr.qtype == DS) && o.qtype == NS) || (rr.qtype == DNAME && o.qtype == DNAME))
    then false
    else if IsPartOf(rr.qname, o.owner) then
      if o.qtype == DNAME && SameName(rr.qname, o.owner) then false
      else o.qtype == DNAME || (rr.qtype != ENT && rr.qtype != A && rr.qtype != AAAA)
    else false
  }

  /** A DNAME hides exactly the records strictly below its name. */
  lemma DnameOccludes(o: Occluder, rr: Record)
    requires o.qtype == DNAME
    ensures Occludes(o, rr) <==> IsPartOf(rr.qname, o.owner) && !SameName(rr.qname, o.owner)
  {
  }

  /** A delegation hides the records at or below its name other than glue
      and empty non-terminals, except the NS and DS records at its own name. */
  lemma DelegationOccludes(o: Occluder, rr: Record)
    requires o.qtype == NS
    ensures Occludes(o, rr)
        <==> IsPartOf(rr.qname, o.owner) && rr.qtype != ENT && rr.qtype != A && rr.qtype != AAAA
             && !(SameName(rr.qname, o.owner) && (rr.qtype == NS || rr.qtype == DS))
  {
  }

  function OcclusionKind(o: Occluder): Kind {
    if o.qtype == NS then Warn(OccludedByDelegation) else Warn(OccludedByDname)
  }

  function OcclusionCheck(o: Occluder, rr: Record): seq<Finding> {
    When(Occludes(o, rr), OnRecord(OcclusionKind(o), rr.qname, rr.qtype))
  }

  function OcclusionCheckFor(o: Occluder): Record -> seq<Finding> {
    rr => OcclusionCheck(o, rr)
  }

  /** The warnings one occluder draws over every record of the zone. */
  function OccluderFindings(records: seq<Record>, o: Occluder): seq<Finding> {
    EmitEach(records, OcclusionCheckFor(o))
  }

  function OccluderFindingsFor(records: seq<Record>): Occluder -> seq<Finding> {
    o => OccluderFindings(records, o)
  }

  function OcclusionFindings(s: State): seq<Finding> {
    EmitEach(s.occluders, OccluderFindingsFor(s.records))
  }

  /** One warning per record an occluder hides ... */
  lemma OccluderWarnings(records: seq<Record>, o: Occluder)
    ensures Warnings(OccluderFindings(records, o)) == |IndicesWhere(records, rr => Occludes(o, rr))|
  {
    var p := (rr: Record) => Occludes(o, rr);
    forall rr | rr in records
      ensures CountSeverity(OcclusionCheckFor(o)(rr), Warning) == if p(rr) then 1 else 0
    {
      WhenCounts(Occludes(o, rr), OnRecord(OcclusionKind(o), rr.qname, rr.qtype), Warn(OccludedByDname), Warning);
    }
    CountSeverityEmitEach(records, OcclusionCheckFor(o), Warning, p);
  }

  /** ... and no error. */
  lemma OccluderNoErrors(records: seq<Record>, o: Occluder)
    ensures Errors(OccluderFindings(records, o)) == 0
  {
    forall rr | rr in records
      ensures CountSeverity(OcclusionCheckFor(o)(rr), Error) == 0
    {
      WhenCounts(Occludes(o, rr), OnRecord(OcclusionKind(o), rr.qname, rr.qtype), Warn(OccludedByDname), Error);
    }
    SeverityEmitEachZero(records, OcclusionCheckFor(o), Error);
  }

  /** The occlusion rule is silent exactly when no occluder hides any
      record, and it never reports an error. */
  lemma OcclusionSilent(s: State)
    ensures Warnings(OcclusionFindings(s)) == 0
        <==> forall o, rr :: o in s.occluders && rr in s.records ==> !Occludes(o, rr)
    ensures Errors(OcclusionFindings(s)) == 0
  {
    forall o | o in s.occluders
      ensures Warnings(OccluderFindingsFor(s.records)(o)) == 0 <==> forall rr :: rr in s.records ==> !Occludes(o, rr)
      ensures Errors(OccluderFindingsFor(s.records)(o)) == 0
    {
      OccluderWarnings(s.records, o);
      OccluderNoErrors(s.records, o);
      forall rr | rr in s.records && Occludes(o, rr)
        ensures Warnings(OccluderFindings(s.records, o)) > 0
      {
        var i :| 0 <= i < |s.records| && s.records[i] == rr;
        assert i in IndicesWhere(s.records, rr => Occludes(o, rr));
      }
      if Warnings(OccluderFindings(s.records, o)) > 0 {
        var i :| i in IndicesWhere(s.records, rr => Occludes(o, rr));
        assert s.records[i] in s.records;
      }
    }
    SeverityEmitEachZero(s.occluders, OccluderFindingsFor(s.records), Warning);
    SeverityEmitEachZero(s.occluders, OccluderFindingsFor(s.records), Error);
  }

  // --------------------------------------------------------- CNAME targets

  /** An MX, NS or SRV record whose in-zone target owns a CNAME. */
  predicate PointsAtCname(cfg: Config, s: State, rr: Record) {
    var data := DataOf(cfg, rr);
    data.Host? && IsPartOf(data.target, cfg.zone) && Canon(data.target) in s.cnames
  }

  function CnameTargetCheck(cfg: Config, s: State, rr: Record): seq<Finding> {
    When(PointsAtCname(cfg, s, rr), OnRecord(Warn(TargetIsCname), rr.qname, rr.qtype))
  }

  function CnameTargetCheckFor(cfg: Config, s: State): Record -> seq<Finding> {
    rr => CnameTargetCheck(cfg, s, rr)
  }

  function CnameTargetFindings(cfg: Config, s: State): seq<Finding> {
    EmitEach(s.cnameChecks, CnameTargetCheckFor(cfg, s))
  }

  /** One warning per queued MX, NS or SRV record pointing at a CNAME. */
  lemma CnameTargetCount(cfg: Config, s: State)
    ensures Warnings(CnameTargetFindings(cfg, s)) == |IndicesWhere(s.cnameChecks, rr => PointsAtCname(cfg, s, rr))|
    ensures Errors(CnameTargetFindings(cfg, s)) == 0
  {
    var p := (rr: Record) => PointsAtCname(cfg, s, rr);
    forall rr | rr in s.cnameChecks
      ensures CountSeverity(CnameTargetCheckFor(cfg, s)(rr), Warning) == if p(rr) then 1 else 0
      ensures CountSeverity(CnameTargetCheckFor(cfg, s)(rr), Error) == 0
    {
      WhenCounts(PointsAtCname(cfg, s, rr), OnRecord(Warn(TargetIsCname), rr.qname, rr.qtype), Warn(TargetIsCname), Warning);
      WhenCounts(PointsAtCname(cfg, s, rr), OnRecord(Warn(TargetIsCname), rr.qname, rr.qtype), Warn(TargetIsCname), Error);
    }
    CountSeverityEmitEach(s.cnameChecks, CnameTargetCheckFor(cfg, s), Warning, p);
    SeverityEmitEachZero(s.cnameChecks, CnameTargetCheckFor(cfg, s), Error);
  }

  // --------------------------------------------------- authoritative flag

  /** The scan of one record against the delegations: whether its flag is
      acceptable, whether a delegation sits at its own name, and whether the
      verdict is settled. */
  datatype AuthState = AuthState(ok: bool, dsNs: bool, done: bool)

  /** The verdict is settled from the start when the records were supplied
      or the backend does not do DNSSEC: the flag is then taken as is. */
  function AuthStart(cfg: Config, rr: Record): AuthState {
    AuthState(rr.auth, false, cfg.supplied || !cfg.backendDnssec)
  }

  /** A delegation that makes a non-authoritative record acceptable: the
      record is at or below it (but is not the DS at the cut), or the record
      is an empty non-terminal above it. */
  predicate CoversUnauth(o: Occluder, rr: Record) {
    (IsPartOf(rr.qname, o.owner) && (!SameName(o.owner, rr.qname) || rr.qtype != DS))
    || (rr.qtype == ENT && IsPartOf(o.owner, rr.qname))
  }

  /** A delegation that makes an authoritative record wrong: the record is
      at or below it and is not the DS at the cut. The trailing NS test is
      subsumed by the first two and kept as pdnsutil writes it. */
  predicate CoversAuth(o: Occluder, rr: Record) {
    IsPartOf(rr.qname, o.owner) && ((!SameName(o.owner, rr.qname) || rr.qtype != DS) || rr.qtype == NS)
  }

  /** The delegation that settles the record's verdict, by its flag. */
  predicate Settles(o: Occluder, rr: Record) {
    o.qtype == NS && (if rr.auth then CoversAuth(o, rr) else CoversUnauth(o, rr))
  }

  /** One iteration of the scan: DNAMEs are skipped; a delegation at the
      record's name is noted even once the verdict is settled. */
  function AuthVisit(st: AuthState, o: Occluder, rr: Record): AuthState {
    if o.qtype != NS then st
    else
      var st' := st.(dsNs := st.dsNs || SameName(o.owner, rr.qname));
      if st.done then st'
      else if !rr.auth then
        if CoversUnauth(o, rr) then AuthState(true, st'.dsNs, true) else st'
      else if CoversAuth(o, rr) then AuthState(false, st'.dsNs, true)
      else st'
  }

  /** The scan over the occluders, in order. */
  function AuthScan(occ: seq<Occluder>, rr: Record, st: AuthState): AuthState {
    if occ == [] then st else AuthVisit(AuthScan(occ[..|occ| - 1], rr, st), occ[|occ| - 1], rr)
  }

  /** What the scan computes, independently of the order of the occluders:
      a delegation at the record's name is found if there is one; a settled
      start keeps its verdict; otherwise the verdict is settled exactly when
      some delegation settles it, and then flips the record's flag. */
  lemma {:induction false} AuthScanMeaning(occ: seq<Occluder>, rr: Record, st: AuthState)
    requires st.done || st.ok == rr.auth
    ensures var r := AuthScan(occ, rr, st);
      && (r.dsNs <==> st.dsNs || exists o :: o in occ && o.qtype == NS && SameName(o.owner, rr.qname))
      && (st.done ==> r.done && r.ok == st.ok)
      && (!st.done ==> (r.done <==> exists o :: o in occ && Settles(o, rr)))
      && (!st.done ==> r.ok == (r.done != rr.auth))
    decreases |occ|
  {
    if occ != [] {
      var q := occ[..|occ| - 1];
      var o := occ[|occ| - 1];
      assert occ == q + [o];
      AuthScanMeaning(q, rr, st);
      var r0 := AuthScan(q, rr, st);
      assert AuthScan(occ, rr, st) == AuthVisit(r0, o, rr);
      assert forall y :: y in occ <==> y in q || y == o;
      if !st.done && !r0.done && Settles(o, rr) {
        assert AuthVisit(r0, o, rr).done;
      }
    }
  }

  /** The record's flag is acceptable: as given when the verdict is settled
      from the start; otherwise an authoritative record is fine unless a
      delegation covers it, and a non-authoritative one only if one does. */
  predicate AuthOk(cfg: Config, occ: seq<Occluder>, rr: Record) {
    if cfg.supplied || !cfg.backendDnssec then rr.auth
    else if rr.auth then !exists o :: o in occ && Settles(o, rr)
    else exists o :: o in occ && Settles(o, rr)
  }

  /** A delegation sits at the record's own name. */
  predicate DelegatedAt(occ: seq<Occluder>, n: Name) {
    exists o :: o in occ && o.qtype == NS && SameName(o.owner, n)
  }

  lemma AuthScanResult(cfg: Config, occ: seq<Occluder>, rr: Record)
    ensures var r := AuthScan(occ, rr, AuthStart(cfg, rr));
      (r.ok <==> AuthOk(cfg, occ, rr)) && (r.dsNs <==> DelegatedAt(occ, rr.qname))
  {
    AuthScanMeaning(occ, rr, AuthStart(cfg, rr));
  }

  /** The scan's outcome depends on the set of occluders, not their order. */
  lemma AuthOrderIndependent(cfg: Config, occ1: seq<Occluder>, occ2: seq<Occluder>, rr: Record)
    requires forall o :: o in occ1 <==> o in occ2
    ensures AuthScan(occ1, rr, AuthStart(cfg, rr)).ok == AuthScan(occ2, rr, AuthStart(cfg, rr)).ok
    ensures AuthScan(occ1, rr, AuthStart(cfg, rr)).dsNs == AuthScan(occ2, rr, AuthStart(cfg, rr)).dsNs
  {
    AuthScanResult(cfg, occ1, rr);
    AuthScanResult(cfg, occ2, rr);
  }

  function AuthCheck(cfg: Config, occ: seq<Occluder>, rr: Record): seq<Finding> {
    var r := AuthScan(occ, rr, AuthStart(cfg, rr));
    When(!r.dsNs && rr.qtype == DS && !SameName(rr.qname, cfg.zone), OnRecord(Warn(DsWithoutDelegation), rr.qname, rr.qtype))
    + When(!r.ok && !cfg.supplied, OnRecord(Err(NeedsRectify), rr.qname, rr.qtype))
  }

  function AuthCheckFor(cfg: Config, occ: seq<Occluder>): Record -> seq<Finding> {
    rr => AuthCheck(cfg, occ, rr)
  }

  /** The authoritative-flag rule over every record of the zone. */
  function AuthFindings(cfg: Config, s: State): seq<Finding> {
    EmitEach(s.records, AuthCheckFor(cfg, s.occluders))
  }

  /** Per record: an unacceptable flag is an error unless the records were
      supplied ... */
  lemma AuthCheckErrors(cfg: Config, occ: seq<Occluder>, rr: Record)
    ensures Errors(AuthCheck(cfg, occ, rr)) == if !AuthOk(cfg, occ, rr) && !cfg.supplied then 1 else 0
  {
    AuthScanResult(cfg, occ, rr);
    AuthCheckShape(cfg, occ, rr);
    var b1 := !DelegatedAt(occ, rr.qname) && rr.qtype == DS && !SameName(rr.qname, cfg.zone);
    var b2 := !AuthOk(cfg, occ, rr) && !cfg.supplied;
    WhenPairCounts(b1, OnRecord(Warn(DsWithoutDelegation), rr.qname, rr.qtype),
                   b2, OnRecord(Err(NeedsRectify), rr.qname, rr.qtype), Warn(DsWithoutDelegation), Error);
  }

  /** ... and a non-apex DS without a delegation at its name is a warning. */
  lemma AuthCheckDs(cfg: Config, occ: seq<Occluder>, rr: Record)
    ensures CountKind(AuthCheck(cfg, occ, rr), Warn(DsWithoutDelegation))
         == if rr.qtype == DS && !SameName(rr.qname, cfg.zone) && !DelegatedAt(occ, rr.qname) then 1 else 0
  {
    AuthCheckShape(cfg, occ, rr);
    var b1 := !DelegatedAt(occ, rr.qname) && rr.qtype == DS && !SameName(rr.qname, cfg.zone);
    var b2 := !AuthOk(cfg, occ, rr) && !cfg.supplied;
    WhenPairCounts(b1, OnRecord(Warn(DsWithoutDelegation), rr.qname, rr.qtype),
                   b2, OnRecord(Err(NeedsRectify), rr.qname, rr.qtype), Warn(DsWithoutDelegation), Error);
  }

  /** The two findings of the rule, in terms of what the scan means. */
  lemma AuthCheckShape(cfg: Config, occ: seq<Occluder>, rr: Record)
    ensures AuthCheck(cfg, occ, rr)
         == When(!DelegatedAt(occ, rr.qname) && rr.qtype == DS && !SameName(rr.qname, cfg.zone),
                 OnRecord(Warn(DsWithoutDelegation), rr.qname, rr.qtype))
            + When(!AuthOk(cfg, occ, rr) && !cfg.supplied, OnRecord(Err(NeedsRectify), rr.qname, rr.qtype))
  {
    AuthScanResult(cfg, occ, rr);
  }

  /** One error per record whose flag is unacceptable, and none at all when
      the records were supplied. */
  lemma AuthFindingsErrors(cfg: Config, s: State)
    ensures Errors(AuthFindings(cfg, s))
         == |IndicesWhere(s.records, rr => !AuthOk(cfg, s.occluders, rr) && !cfg.supplied)|
    ensures cfg.supplied ==> Errors(AuthFindings(cfg, s)) == 0
  {
    var p := (rr: Record) => !AuthOk(cfg, s.occluders, rr) && !cfg.supplied;
    forall rr | rr in s.records
      ensures CountSeverity(AuthCheckFor(cfg, s.occluders)(rr), Error) == if p(rr) then 1 else 0
    {
      AuthCheckErrors(cfg, s.occluders, rr);
    }
    CountSeverityEmitEach(s.records, AuthCheckFor(cfg, s.occluders), Error, p);
    if cfg.supplied {
      assert IndicesWhere(s.records, p) == {};
    }
  }

  // -------------------------------------------------------------- metadata

  /** The scan of one metadata key's values: values seen, values already
      reported, and the reports. */
  datatype DupScan = DupScan(seen: set<string>, messaged: set<string>, found: seq<Finding>)

  function ScanValues(key: string, values: seq<string>): DupScan {
    if values == [] then DupScan({}, {}, [])
    else
      var p := ScanValues(key, values[..|values| - 1]);
      var v := values[|values| - 1];
      if v !in p.seen then p.(seen := p.seen + {v})
      else if v !in p.messaged then
        DupScan(p.seen, p.messaged + {v}, p.found + [OnMetadata(Err(DuplicateMetadata), key, v)])
      else p
  }

  /** The scan remembers every value it met, and marks as reported
      exactly the values met more than once. */
  lemma {:induction false} ScanValuesSets(key: string, values: seq<string>)
    ensures var d := ScanValues(key, values);
      && (forall v :: v in d.seen <==> v in values)
      && (forall v :: v in d.messaged <==> multiset(values)[v] >= 2)
    decreases |values|
  {
    if values != [] {
      var q := values[..|values| - 1];
      var v := values[|values| - 1];
      assert values == q + [v];
      ScanValuesSets(key, q);
      assert multiset(values) == multiset(q) + multiset{v};
      assert forall y :: y in values <==> y in q || y == v;
    }
  }

  /** The scan reports each value occurring more than once exactly once,
      at its second occurrence, and nothing about values occurring once;
      every report is about this key. */
  lemma {:induction false} ScanValuesFound(key: string, values: seq<string>)
    ensures var d := ScanValues(key, values);
      && (forall v :: multiset(d.found)[OnMetadata(Err(DuplicateMetadata), key, v)]
                     == if multiset(values)[v] >= 2 then 1 else 0)
      && (forall g :: g in d.found ==> g.OnMetadata? && g.key == key && g.kind == Err(DuplicateMetadata))
    decreases |values|
  {
    if values != [] {
      var q := values[..|values| - 1];
      var v := values[|values| - 1];
      assert values == q + [v];
      ScanValuesFound(key, q);
      ScanValuesSets(key, q);
      var p := ScanValues(key, q);
      assert multiset(values) == multiset(q) + multiset{v};
      if v in p.seen && v !in p.messaged {
        var g := OnMetadata(Err(DuplicateMetadata), key, v);
        assert ScanValues(key, values).found == p.found + [g];
        assert multiset(p.found + [g]) == multiset(p.found) + multiset{g};
      } else {
        assert ScanValues(key, values).found == p.found;
      }
    }
  }

  /** Every report is an error: one per value reported. */
  lemma {:induction false} ScanValuesErrors(key: string, values: seq<string>)
    ensures var d := ScanValues(key, values); Errors(d.found) == |d.messaged|
    decreases |values|
  {
    if values != [] {
      var q := values[..|values| - 1];
      var v := values[|values| - 1];
      ScanValuesErrors(key, q);
      var p := ScanValues(key, q);
      var d := ScanValues(key, values);
      if v in p.seen && v !in p.messaged {
        var g := OnMetadata(Err(DuplicateMetadata), key, v);
        assert d.found == p.found + [g] && d.messaged == p.messaged + {v};
        CountSnoc(p.found, g, Err(DuplicateMetadata), Error);
      } else {
        assert d.found == p.found && d.messaged == p.messaged;
      }
    }
  }

  function MetadataCheck(entry: (string, seq<string>)): seq<Finding> {
    ScanValues(entry.0, entry.1).found
  }

  /** The duplicate scan over every metadata key. */
  function MetadataFindings(cfg: Config): seq<Finding> {
    EmitEach(cfg.metadata, MetadataCheck)
  }

  /** One error per key and value occurring more than once under that key. */
  lemma MetadataCheckErrors(entry: (string, seq<string>))
    ensures Errors(MetadataCheck(entry)) == |set v | v in entry.1 && multiset(entry.1)[v] >= 2|
  {
    var d := ScanValues(entry.0, entry.1);
    ScanValuesErrors(entry.0, entry.1);
    ScanValuesSets(entry.0, entry.1);
    assert d.messaged == set v | v in entry.1 && multiset(entry.1)[v] >= 2;
  }

  /** The metadata reports no error exactly when no key lists a value
      twice. */
  lemma MetadataNoErrors(cfg: Config)
    ensures Errors(MetadataFindings(cfg)) == 0
        <==> forall e :: e in cfg.metadata ==> forall v :: multiset(e.1)[v] < 2
  {
    forall e | e in cfg.metadata
      ensures Errors(MetadataCheck(e)) == 0 <==> forall v :: multiset(e.1)[v] < 2
    {
      var d := ScanValues(e.0, e.1);
      ScanValuesErrors(e.0, e.1);
      ScanValuesSets(e.0, e.1);
      if Errors(MetadataCheck(e)) == 0 {
        assert d.messaged == {};
      } else {
        var v :| v in d.messaged;
      }
    }
    ErrorsEmitEach(cfg.metadata, MetadataCheck);
  }
}

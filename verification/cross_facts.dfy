/** The cross-record rules stated over the records themselves: what the
    indices the pass builds mean, plugged into each rule. */
module CrossFacts {
  import opened Common
  import opened Names
  import opened Records
  import opened Findings
  import opened Accumulator
  import opened FoldFacts
  import opened Rules

  /** A CNAME at `n` got past the second-CNAME exit. */
  predicate CnameAt(s: State, n: Name) {
    exists i :: 0 <= i < |s.records| && i < |s.fates| && Passed(s.fates[i], SecondCname)
                && s.records[i].qtype == CNAME && Canon(s.records[i].qname) == n
  }

  /** A record other than a CNAME or RRSIG at `n` got past the non-apex SOA
      exit. */
  predicate OtherAt(s: State, n: Name) {
    exists i :: 0 <= i < |s.records| && i < |s.fates| && Passed(s.fates[i], StraySoa)
                && s.records[i].qtype != CNAME && s.records[i].qtype != RRSIG && Canon(s.records[i].qname) == n
  }

  lemma DataOfRun(cfg: Config, rs: seq<Record>, n: Name)
    ensures var s := Run(cfg, rs);
      (n in s.cnames <==> CnameAt(s, n)) && (n in s.noncnames <==> OtherAt(s, n))
  {
    CnamesOfRun(cfg, rs, n);
    NoncnamesOfRun(cfg, rs, n);
  }

  /** Each owner holding both a surviving CNAME and other surviving data
      draws exactly one error; any other name draws none. */
  lemma CnameConflictOfRun(cfg: Config, rs: seq<Record>, n: Name)
    ensures var s := Run(cfg, rs);
      multiset(CnameConflicts(s))[OnName(Err(CnameAndOther), n)] == if CnameAt(s, n) && OtherAt(s, n) then 1 else 0
  {
    IndicesDistinct(cfg, rs);
    CnameConflictOnce(Run(cfg, rs), n);
    DataOfRun(cfg, rs, n);
  }

  /** A TLSA owner draws a warning exactly when no record other than an
      RRSIG got past the exits at the name it protects. */
  lemma TlsaOfRun(cfg: Config, rs: seq<Record>, n: Name)
    ensures var s := Run(cfg, rs);
      Warnings(TlsaCheck(s, n)) == 0 <==> CnameAt(s, TlsaBase(n)) || OtherAt(s, TlsaBase(n))
  {
    TlsaCheckCounts(Run(cfg, rs), n);
    DataOfRun(cfg, rs, TlsaBase(n));
  }

  /** Some delegation whose target lies at or below its owner names `q`. */
  predicate NeedsGlue(cfg: Config, s: State, q: Name) {
    exists i :: 0 <= i < |s.records| && i < |s.fates| && IsDelegation(cfg, s.fates[i], s.records[i])
                && DataOf(cfg, s.records[i]).Host?
                && IsPartOf(DataOf(cfg, s.records[i]).target, s.records[i].qname)
                && Canon(DataOf(cfg, s.records[i]).target) == q
  }

  /** A non-apex address record at `q` got past the non-apex SOA exit. */
  predicate HasGlue(cfg: Config, s: State, q: Name) {
    exists i :: 0 <= i < |s.records| && i < |s.fates| && Passed(s.fates[i], StraySoa)
                && !SameName(s.records[i].qname, cfg.zone) && IsAddress(s.records[i].qtype)
                && Canon(s.records[i].qname) == q
  }

  /** Each distinct lower-cased NS target at or below its delegation's
      owner draws exactly one missing-glue warning when no surviving
      non-apex address record exists at that name, and none otherwise. */
  lemma MissingGlueOfRun(cfg: Config, rs: seq<Record>, q: Name)
    ensures var s := Run(cfg, rs);
      multiset(GlueFindings(s))[OnName(Warn(MissingGlue), q)] == if NeedsGlue(cfg, s, q) && !HasGlue(cfg, s, q) then 1 else 0
  {
    IndicesDistinct(cfg, rs);
    CheckGlueOfRun(cfg, rs, q);
    GlueOfRun(cfg, rs, q);
    MissingGlueOf(cfg, Run(cfg, rs), q);
  }

  lemma MissingGlueOf(cfg: Config, s: State, q: Name)
    requires Distinct(s.checkGlue)
    requires q in s.checkGlue <==> NeedsGlue(cfg, s, q)
    requires q in s.glue <==> HasGlue(cfg, s, q)
    ensures multiset(GlueFindings(s))[OnName(Warn(MissingGlue), q)] == if NeedsGlue(cfg, s, q) && !HasGlue(cfg, s, q) then 1 else 0
  {
    MissingGlueOnce(s, q);
  }

  /** Record `i` is an occluder: a delegation, or a DNAME that got past the
      non-apex SOA exit. */
  predicate OccluderRecord(cfg: Config, f: Fate, r: Record) {
    IsDelegation(cfg, f, r) || (Passed(f, StraySoa) && r.qtype == DNAME)
  }

  function OccluderOf(r: Record): Occluder {
    Occluder(Canon(r.qname), r.qtype)
  }

  /** The occlusion rule is silent exactly when no occluder record hides
      any record of the zone, excluded records included. */
  lemma OcclusionOfRun(cfg: Config, rs: seq<Record>)
    ensures var s := Run(cfg, rs);
      Warnings(OcclusionFindings(s)) == 0
      <==> forall i, j :: 0 <= i < |rs| && 0 <= j < |rs| && OccluderRecord(cfg, s.fates[i], s.records[i])
                          ==> !Occludes(OccluderOf(s.records[i]), s.records[j])
  {
    var s := Run(cfg, rs);
    forall i | 0 <= i < |rs| && OccluderRecord(cfg, s.fates[i], s.records[i])
      ensures OccluderOf(s.records[i]) in s.occluders
    {
      OccludersOfRun(cfg, rs, OccluderOf(s.records[i]));
    }
    forall o | o in s.occluders
      ensures exists i :: 0 <= i < |rs| && OccluderRecord(cfg, s.fates[i], s.records[i]) && o == OccluderOf(s.records[i])
    {
      OccludersOfRun(cfg, rs, o);
    }
    OcclusionOf(cfg, s);
  }

  lemma OcclusionOf(cfg: Config, s: State)
    requires |s.fates| == |s.records|
    requires forall i :: 0 <= i < |s.records| && OccluderRecord(cfg, s.fates[i], s.records[i])
                         ==> OccluderOf(s.records[i]) in s.occluders
    requires forall o :: o in s.occluders
                         ==> exists i :: 0 <= i < |s.records| && OccluderRecord(cfg, s.fates[i], s.records[i])
                                         && o == OccluderOf(s.records[i])
    ensures Warnings(OcclusionFindings(s)) == 0
      <==> forall i, j :: 0 <= i < |s.records| && 0 <= j < |s.records| && OccluderRecord(cfg, s.fates[i], s.records[i])
                          ==> !Occludes(OccluderOf(s.records[i]), s.records[j])
  {
    OcclusionSilent(s);
  }

  /** The positions of the records occluder `o` hides. */
  function HiddenBy(o: Occluder, records: seq<Record>): set<int> {
    IndicesWhere(records, rr => Occludes(o, rr))
  }

  /** The pairs (occluder, position of a record it hides). */
  function HiddenPairs(occ: seq<Occluder>, records: seq<Record>): set<(Occluder, int)> {
    set o, j | o in occ && j in HiddenBy(o, records) :: (o, j)
  }

  lemma HiddenPairsSnoc(q: seq<Occluder>, o: Occluder, records: seq<Record>)
    ensures HiddenPairs(q + [o], records) == HiddenPairs(q, records) + PairsWith(o, HiddenBy(o, records))
  {
    assert forall y :: y in q + [o] <==> y in q || y == o;
  }

  /** Occluders are distinct (owner, type) pairs, so the rule warns once
      per occluder and hidden record: several NS records at one owner
      occlude only once. */
  lemma {:induction false} OcclusionWarningsCount(occ: seq<Occluder>, records: seq<Record>)
    requires Distinct(occ)
    ensures Warnings(EmitEach(occ, OccluderFindingsFor(records))) == |HiddenPairs(occ, records)|
    decreases |occ|
  {
    if occ == [] {
      assert HiddenPairs(occ, records) == {};
    } else {
      var q := occ[..|occ| - 1];
      var o := occ[|occ| - 1];
      DistinctSnoc(occ);
      OcclusionWarningsCount(q, records);
      OccluderWarningsSnoc(occ, records);
      HiddenPairsSplit(q, o, records);
    }
  }

  /** The last occluder adds one warning per record it hides. */
  lemma OccluderWarningsSnoc(occ: seq<Occluder>, records: seq<Record>)
    requires occ != []
    ensures Warnings(EmitEach(occ, OccluderFindingsFor(records)))
         == Warnings(EmitEach(occ[..|occ| - 1], OccluderFindingsFor(records)))
            + |HiddenBy(occ[|occ| - 1], records)|
  {
    var q := occ[..|occ| - 1];
    var o := occ[|occ| - 1];
    assert occ == q + [o];
    CountSeverityAppend(EmitEach(q, OccluderFindingsFor(records)), OccluderFindings(records, o), Warning);
    OccluderWarnings(records, o);
  }

  /** The pairs of a new occluder are disjoint from those before it, and
      as many as the records it hides. */
  lemma HiddenPairsSplit(q: seq<Occluder>, o: Occluder, records: seq<Record>)
    requires o !in q
    ensures |HiddenPairs(q + [o], records)| == |HiddenPairs(q, records)| + |HiddenBy(o, records)|
  {
    var mine := PairsWith(o, HiddenBy(o, records));
    HiddenPairsSnoc(q, o, records);
    PairCard(o, HiddenBy(o, records));
    var before := HiddenPairs(q, records);
    forall p | p in mine
      ensures p !in before
    {
      assert p.0 == o;
    }
    assert before * mine == {};
  }

  lemma OcclusionCountOfRun(cfg: Config, rs: seq<Record>)
    ensures var s := Run(cfg, rs);
      Warnings(OcclusionFindings(s)) == |HiddenPairs(s.occluders, s.records)|
  {
    IndicesDistinct(cfg, rs);
    var s := Run(cfg, rs);
    OcclusionWarningsCount(s.occluders, s.records);
  }

  /** An MX, NS or SRV record that got past the RRSIG exit draws a
      CNAME-target warning exactly when its in-zone target holds a
      surviving CNAME. */
  lemma CnameTargetOfRun(cfg: Config, rs: seq<Record>, rr: Record)
    ensures var s := Run(cfg, rs); var data := DataOf(cfg, rr);
      PointsAtCname(cfg, s, rr)
      <==> data.Host? && IsPartOf(data.target, cfg.zone) && CnameAt(s, Canon(data.target))
  {
    var data := DataOf(cfg, rr);
    if data.Host? {
      DataOfRun(cfg, rs, Canon(data.target));
    }
  }

  /** A delegation record that settles record `rr`'s flag. */
  predicate SettledBy(cfg: Config, s: State, rr: Record) {
    exists i :: 0 <= i < |s.records| && i < |s.fates| && IsDelegation(cfg, s.fates[i], s.records[i])
                && Settles(OccluderOf(s.records[i]), rr)
  }

  lemma SettlesFromOccluder(cfg: Config, rs: seq<Record>, rr: Record, o: Occluder)
    requires o in Run(cfg, rs).occluders && Settles(o, rr)
    ensures SettledBy(cfg, Run(cfg, rs), rr)
  {
    var s := Run(cfg, rs);
    OccludersOfRun(cfg, rs, o);
    var i :| 0 <= i < |rs| && OccluderRecord(cfg, s.fates[i], s.records[i]) && o == OccluderOf(s.records[i]);
    NsOccluderIsDelegation(cfg, s.fates[i], s.records[i]);
  }

  /** An occluder of type NS comes from a delegation. */
  lemma NsOccluderIsDelegation(cfg: Config, f: Fate, r: Record)
    requires OccluderRecord(cfg, f, r) && OccluderOf(r).qtype == NS
    ensures IsDelegation(cfg, f, r)
  {
  }

  lemma SettlesFromRecord(cfg: Config, rs: seq<Record>, rr: Record, i: int)
    requires var s := Run(cfg, rs);
      0 <= i < |s.records| && i < |s.fates| && IsDelegation(cfg, s.fates[i], s.records[i])
    ensures OccluderOf(Run(cfg, rs).records[i]) in Run(cfg, rs).occluders
  {
    var s := Run(cfg, rs);
    OccludersOfRun(cfg, rs, OccluderOf(s.records[i]));
    assert OccluderRecord(cfg, s.fates[i], s.records[i]);
  }

  /** The occluders that settle a flag are exactly the delegation records
      that do. */
  lemma SettlesOfRun(cfg: Config, rs: seq<Record>, rr: Record)
    ensures var s := Run(cfg, rs);
      (exists o :: o in s.occluders && Settles(o, rr)) <==> SettledBy(cfg, s, rr)
  {
    var s := Run(cfg, rs);
    if o :| o in s.occluders && Settles(o, rr) {
      SettlesFromOccluder(cfg, rs, rr, o);
    }
    if SettledBy(cfg, s, rr) {
      var i :| 0 <= i < |s.records| && i < |s.fates| && IsDelegation(cfg, s.fates[i], s.records[i])
               && Settles(OccluderOf(s.records[i]), rr);
      SettlesFromRecord(cfg, rs, rr, i);
    }
  }

  /** The authoritative-flag rule over the records: every record, excluded
      or not, is judged; an authoritative record is wrong under a
      delegation that covers it, a non-authoritative one is wrong unless one
      does; with the verdict settled from the start the flag alone decides,
      and nothing is reported for supplied records. */
  lemma AuthOfRun(cfg: Config, rs: seq<Record>, rr: Record)
    ensures var s := Run(cfg, rs);
      AuthOk(cfg, s.occluders, rr)
      <==> if cfg.supplied || !cfg.backendDnssec then rr.auth
           else if rr.auth then !SettledBy(cfg, s, rr) else SettledBy(cfg, s, rr)
  {
    SettlesOfRun(cfg, rs, rr);
  }
}

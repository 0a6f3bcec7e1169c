/** The whole check of one zone: the zone-level probes, the pass over the
    records, the cross-record rules, and the verdict the exit code gives. */
module ZoneCheck {
  import opened Common
  import opened Names
  import opened Records
  import opened Findings
  import opened Accumulator
  import opened FoldFacts
  import opened Rules

  /** How the uncached SOA lookup ended: found, not present, or thrown, in
      which case the check goes on only if a backend was attached anyway. */
  datatype SoaLookup = SoaFound | SoaAbsent | SoaFailed(haveBackend: bool)

  /** What the backend and the key store answer before the records are
      read. The lookups, the key parsing and the key validation are not
      modelled; only their outcome is. */
  datatype Probes = Probes(
    domainKnown: bool,              // the zone has domain information
    primariesFault: bool,           // reading it threw for a secondary zone
    soa: SoaLookup,
    rsaSha1Keys: nat,               // stored keys with algorithm 5
    keysValid: bool,
    parentDelegates: Option<bool>)  // None when no ancestor zone is served

  datatype ExitCode = Success | Failure

  /** How many records were checked, what was reported, and the exit code. */
  datatype Report = Report(checked: nat, findings: seq<Finding>, code: ExitCode)

  /** The longest zone name, in wire octets, that still leaves room for a
      prepended NSEC3 hash label. */
  const MaxNsec3ZoneLength := 222

  /** The probes let the check reach the records. */
  predicate Completes(p: Probes) {
    p.domainKnown && (p.soa.SoaFound? || p.soa == SoaFailed(true))
  }

  /** The zone-level errors of a check that reaches the records, in the
      order the probes run. */
  function ZoneFindings(cfg: Config, p: Probes): seq<Finding> {
    When(p.primariesFault, OnZone(Err(PrimariesFault)))
    + When(p.soa.SoaFailed?, OnZone(Err(SoaLookupFailed)))
    + When(cfg.nsec3.Some? && cfg.secured && WireLength(cfg.zone) > MaxNsec3ZoneLength,
           OnZone(Err(Nsec3ZoneTooLong)))
    + Repeat(OnZone(Err(Nsec3RsaSha1Key)), if cfg.nsec3.Some? then p.rsaSha1Keys else 0)
    + When(!p.keysValid, OnZone(Err(InvalidKeys)))
    + When(p.parentDelegates == Some(false), OnZone(Err(NoParentDelegation)))
  }

  /** What a check that stops before the records reports. */
  function AbortFindings(p: Probes): seq<Finding> {
    if !p.domainKnown then [OnZone(Err(UnknownZone))]
    else When(p.primariesFault, OnZone(Err(PrimariesFault)))
         + [OnZone(if p.soa.SoaAbsent? then Err(NoSoa) else Err(SoaLookupFailed))]
  }

  /** The cross-record rules, in the order they run after the pass. */
  function RuleFindings(cfg: Config, s: State): seq<Finding> {
    CnameConflicts(s) + TlsaFindings(s)
    + TargetFindings(cfg, s, SVCB) + TargetFindings(cfg, s, HTTPS)
    + ApexNsFindings(s) + GlueFindings(s) + OcclusionFindings(s) + CnameTargetFindings(cfg, s)
    + AuthFindings(cfg, s) + MetadataFindings(cfg)
  }

  /** The exit code reflects the error counter alone: warnings never fail
      a check. */
  function Verdict(fs: seq<Finding>): ExitCode {
    if Errors(fs) == 0 then Success else Failure
  }

  /** The check of one zone over its records `rs` (listed from the backend
      or supplied by an editing session). */
  function Check(cfg: Config, p: Probes, rs: seq<Record>): (rep: Report)
    ensures Completes(p) ==> rep.checked == |rs|
    ensures !Completes(p) ==> rep.checked == 0 && rep.code == Failure
  {
    if !Completes(p) then
      Report(0, AbortFindings(p), Failure)
    else
      var fs := ZoneFindings(cfg, p) + PassFindings(cfg, rs) + RuleFindings(cfg, Run(cfg, rs));
      Report(|rs|, fs, Verdict(fs))
  }

  // ------------------------------------------------------------ the verdict

  /** Every probe answered as a healthy zone would. */
  predicate ProbesClean(cfg: Config, p: Probes) {
    && !p.primariesFault && p.soa.SoaFound?
    && !(cfg.nsec3.Some? && cfg.secured && WireLength(cfg.zone) > MaxNsec3ZoneLength)
    && (cfg.nsec3.Some? ==> p.rsaSha1Keys == 0)
    && p.keysValid && p.parentDelegates != Some(false)
  }

  /** Every cross-record rule that can report an error is satisfied. */
  ghost predicate RulesHold(cfg: Config, s: State) {
    && (forall n :: n in s.cnames ==> n !in s.noncnames)
    && (forall x :: x in s.svcb.targets ==> !SelfTargeted(x) && !DanglingAlias(cfg, s, SVCB, x))
    && (forall x :: x in s.https.targets ==> !SelfTargeted(x) && !DanglingAlias(cfg, s, HTTPS, x))
    && s.apexNs
    && (cfg.supplied || forall rr :: rr in s.records ==> AuthOk(cfg, s.occluders, rr))
    && (forall e :: e in cfg.metadata ==> forall v :: multiset(e.1)[v] < 2)
  }

  /** A check fails exactly when it reported an error, whichever way it
      ended. */
  lemma CheckFailsOnError(cfg: Config, p: Probes, rs: seq<Record>)
    ensures Check(cfg, p, rs).code == Success <==> Errors(Check(cfg, p, rs).findings) == 0
  {
    if !Completes(p) {
      AbortErrors(p);
    }
  }

  /** A check that stops early has reported at least one error. */
  lemma AbortErrors(p: Probes)
    requires !Completes(p)
    ensures Errors(AbortFindings(p)) >= 1
  {
    if p.domainKnown {
      var g := OnZone(if p.soa.SoaAbsent? then Err(NoSoa) else Err(SoaLookupFailed));
      CountSnoc(When(p.primariesFault, OnZone(Err(PrimariesFault))), g, g.kind, Error);
    } else {
      CountSnoc([], OnZone(Err(UnknownZone)), Err(UnknownZone), Error);
    }
  }

  /** The check succeeds exactly when the probes are clean, no record is
      excluded by the pass, and every cross-record rule holds; warnings and
      information play no part. */
  lemma CheckSucceeds(cfg: Config, p: Probes, rs: seq<Record>)
    ensures Check(cfg, p, rs).code == Success
        <==> Completes(p) && ProbesClean(cfg, p)
             && (forall f :: f in Run(cfg, rs).fates ==> f.Kept?)
             && RulesHold(cfg, Run(cfg, rs))
  {
    if Completes(p) {
      var s := Run(cfg, rs);
      NoErrorsAppend(ZoneFindings(cfg, p) + PassFindings(cfg, rs), RuleFindings(cfg, s));
      NoErrorsAppend(ZoneFindings(cfg, p), PassFindings(cfg, rs));
      ZoneClean(cfg, p);
      PassClean(cfg, rs);
      IndicesDistinct(cfg, rs);
      RulesClean(cfg, s);
    }
  }

  /** The zone-level findings are errors, and none is issued exactly when
      the probes are clean. */
  lemma ZoneClean(cfg: Config, p: Probes)
    requires Completes(p)
    ensures Errors(ZoneFindings(cfg, p)) == 0 <==> ProbesClean(cfg, p)
  {
    var a := When(p.primariesFault, OnZone(Err(PrimariesFault)));
    var b := When(p.soa.SoaFailed?, OnZone(Err(SoaLookupFailed)));
    var c := When(cfg.nsec3.Some? && cfg.secured && WireLength(cfg.zone) > MaxNsec3ZoneLength,
                  OnZone(Err(Nsec3ZoneTooLong)));
    var n := if cfg.nsec3.Some? then p.rsaSha1Keys else 0;
    var d := Repeat(OnZone(Err(Nsec3RsaSha1Key)), n);
    var e := When(!p.keysValid, OnZone(Err(InvalidKeys)));
    var f := When(p.parentDelegates == Some(false), OnZone(Err(NoParentDelegation)));
    WhenCounts(p.primariesFault, OnZone(Err(PrimariesFault)), Err(PrimariesFault), Error);
    WhenCounts(p.soa.SoaFailed?, OnZone(Err(SoaLookupFailed)), Err(SoaLookupFailed), Error);
    WhenCounts(cfg.nsec3.Some? && cfg.secured && WireLength(cfg.zone) > MaxNsec3ZoneLength,
               OnZone(Err(Nsec3ZoneTooLong)), Err(Nsec3ZoneTooLong), Error);
    RepeatSeverities(OnZone(Err(Nsec3RsaSha1Key)), n, Error);
    WhenCounts(!p.keysValid, OnZone(Err(InvalidKeys)), Err(InvalidKeys), Error);
    WhenCounts(p.parentDelegates == Some(false), OnZone(Err(NoParentDelegation)), Err(NoParentDelegation), Error);
    assert ZoneFindings(cfg, p) == a + b + c + d + e + f;
    NoErrorsAppend(a, b);
    NoErrorsAppend(a + b, c);
    NoErrorsAppend(a + b + c, d);
    NoErrorsAppend(a + b + c + d, e);
    NoErrorsAppend(a + b + c + d + e, f);
  }

  /** The pass reports no error exactly when it keeps every record. */
  lemma PassClean(cfg: Config, rs: seq<Record>)
    ensures Errors(PassFindings(cfg, rs)) == 0 <==> forall f :: f in Run(cfg, rs).fates ==> f.Kept?
  {
    RunErrors(cfg, rs);
    IndicesWhereNone(Run(cfg, rs).fates, IsExcluded);
  }

  /** The cross-record rules report no error exactly when they all hold. */
  lemma RulesClean(cfg: Config, s: State)
    requires Distinct(s.cnames)
    ensures Errors(RuleFindings(cfg, s)) == 0 <==> RulesHold(cfg, s)
  {
    var a := CnameConflicts(s);
    var b := TlsaFindings(s);
    var c := TargetFindings(cfg, s, SVCB);
    var d := TargetFindings(cfg, s, HTTPS);
    var e := ApexNsFindings(s);
    var f := GlueFindings(s);
    var g := OcclusionFindings(s);
    var h := CnameTargetFindings(cfg, s);
    var i := AuthFindings(cfg, s);
    var j := MetadataFindings(cfg);
    NoErrorsAppend(a, b);
    NoErrorsAppend(a + b, c);
    NoErrorsAppend(a + b + c, d);
    NoErrorsAppend(a + b + c + d, e);
    NoErrorsAppend(a + b + c + d + e, f);
    NoErrorsAppend(a + b + c + d + e + f, g);
    NoErrorsAppend(a + b + c + d + e + f + g, h);
    NoErrorsAppend(a + b + c + d + e + f + g + h, i);
    NoErrorsAppend(a + b + c + d + e + f + g + h + i, j);
    CnameClean(s);
    TlsaNoErrors(s);
    TargetFindingsNoErrors(cfg, s, SVCB);
    TargetFindingsNoErrors(cfg, s, HTTPS);
    GlueNoErrors(s);
    OcclusionSilent(s);
    CnameTargetCount(cfg, s);
    AuthClean(cfg, s);
    MetadataNoErrors(cfg);
  }

  lemma CnameClean(s: State)
    requires Distinct(s.cnames)
    ensures Errors(CnameConflicts(s)) == 0 <==> forall n :: n in s.cnames ==> n !in s.noncnames
  {
    CnameConflictsCount(s);
    var both := set n | n in s.cnames && n in s.noncnames;
    if exists n :: n in s.cnames && n in s.noncnames {
      var n :| n in s.cnames && n in s.noncnames;
      assert n in both;
    }
  }

  lemma AuthClean(cfg: Config, s: State)
    ensures Errors(AuthFindings(cfg, s)) == 0
        <==> cfg.supplied || forall rr :: rr in s.records ==> AuthOk(cfg, s.occluders, rr)
  {
    AuthFindingsErrors(cfg, s);
    IndicesWhereNone(s.records, rr => !AuthOk(cfg, s.occluders, rr) && !cfg.supplied);
  }
}

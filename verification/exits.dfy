/** The record-local exits, stated over the whole pass: which earlier
    records make a later one leave at the duplicate, TTL and second-CNAME
    exits, and what a record that leaves there no longer does. */
module Exits {
  import opened Common
  import opened Names
  import opened Records
  import opened Findings
  import opened Normaliser
  import opened Accumulator
  import opened FoldFacts

  /** Leaving at exit `k` is reaching it without passing it. */
  lemma LeftAt(cfg: Config, s: State, r: Record, k: Exit)
    ensures var f := FateOf(cfg, s, r);
      f == Excluded(k) <==> Reached(f, k) && !Passed(f, k)
  {
  }

  /** Everything the pass knows when it meets record `j`. */
  lemma Before(cfg: Config, rs: seq<Record>, j: nat)
    requires j < |rs|
    ensures var s := Run(cfg, rs); var p := Run(cfg, rs[..j]);
      && s.fates[j] == FateOf(cfg, p, s.records[j])
      && |p.fates| == j && |p.records| == j
      && (forall i :: 0 <= i < j ==> p.fates[i] == s.fates[i] && p.records[i] == s.records[i])
  {
    FateAt(cfg, rs, j);
    RunPrefix(cfg, rs, j);
    RunRecords(cfg, rs);
  }

  /** At the duplicate exit, only the rrset-member index decides. */
  lemma DuplicateCondition(cfg: Config, s: State, r: Record)
    ensures var f := FateOf(cfg, s, r);
      Reached(f, Duplicate) ==> (f == Excluded(Duplicate) <==> DupKeyOf(r) in s.contents)
  {
  }

  /** At the TTL exit, only the TTL stored for the rrset decides. */
  lemma TtlCondition(cfg: Config, s: State, r: Record)
    ensures var f := FateOf(cfg, s, r);
      Reached(f, TtlClash)
      ==> (f == Excluded(TtlClash) <==> TtlKeyFor(cfg, r) in s.ttls && s.ttls[TtlKeyFor(cfg, r)] != r.ttl)
  {
  }

  /** At the second-CNAME exit, only the CNAME index decides. */
  lemma CnameCondition(cfg: Config, s: State, r: Record)
    ensures var f := FateOf(cfg, s, r);
      Reached(f, SecondCname) && r.qtype == CNAME
      ==> (f == Excluded(SecondCname) <==> Canon(r.qname) in s.cnames)
  {
  }

  /** A record that reaches the duplicate exit leaves there exactly when an
      earlier record with the same owner, type and content (compared without
      case, except for TXT) got past it. */
  lemma DuplicateExit(cfg: Config, rs: seq<Record>, j: nat)
    requires j < |rs|
    ensures var s := Run(cfg, rs);
      Reached(s.fates[j], Duplicate)
      ==> (s.fates[j] == Excluded(Duplicate)
           <==> exists i :: 0 <= i < j && Passed(s.fates[i], Duplicate)
                            && DupKeyOf(s.records[i]) == DupKeyOf(s.records[j]))
  {
    var s := Run(cfg, rs);
    var p := Run(cfg, rs[..j]);
    var r := s.records[j];
    var key := DupKeyOf(r);
    Before(cfg, rs, j);
    if Reached(s.fates[j], Duplicate) {
      ContentsOfRun(cfg, rs[..j], key);
      DuplicateCondition(cfg, p, r);
      if s.fates[j] == Excluded(Duplicate) {
        var i :| 0 <= i < j && Passed(p.fates[i], Duplicate) && DupKeyOf(p.records[i]) == key;
        assert s.fates[i] == p.fates[i] && s.records[i] == p.records[i];
      } else {
        forall i | 0 <= i < j && Passed(s.fates[i], Duplicate)
          ensures DupKeyOf(s.records[i]) != key
        {
          assert s.fates[i] == p.fates[i] && s.records[i] == p.records[i];
        }
      }
    }
  }

  /** A record that reaches the TTL exit leaves there exactly when an
      earlier record of the same rrset got past it with a different TTL;
      records agreeing with the rrset's first TTL pass. */
  lemma TtlExit(cfg: Config, rs: seq<Record>, j: nat)
    requires j < |rs|
    ensures var s := Run(cfg, rs);
      Reached(s.fates[j], TtlClash)
      ==> (s.fates[j] == Excluded(TtlClash)
           <==> exists i :: 0 <= i < j && Passed(s.fates[i], TtlClash)
                            && TtlKeyFor(cfg, s.records[i]) == TtlKeyFor(cfg, s.records[j])
                            && s.records[i].ttl != s.records[j].ttl)
  {
    var s := Run(cfg, rs);
    var p := Run(cfg, rs[..j]);
    var r := s.records[j];
    var key := TtlKeyFor(cfg, r);
    Before(cfg, rs, j);
    if Reached(s.fates[j], TtlClash) {
      TtlKeysOfRun(cfg, rs[..j], key);
      TtlCondition(cfg, p, r);
      if s.fates[j] == Excluded(TtlClash) {
        var i :| 0 <= i < j && Passed(p.fates[i], TtlClash) && TtlKeyFor(cfg, p.records[i]) == key;
        TtlValuesOfRun(cfg, rs[..j], i);
        assert s.fates[i] == p.fates[i] && s.records[i] == p.records[i];
      } else {
        forall i | 0 <= i < j && Passed(s.fates[i], TtlClash) && TtlKeyFor(cfg, s.records[i]) == key
          ensures s.records[i].ttl == r.ttl
        {
          assert s.fates[i] == p.fates[i] && s.records[i] == p.records[i];
          TtlValuesOfRun(cfg, rs[..j], i);
        }
      }
    }
  }

  /** A CNAME that reaches the second-CNAME exit leaves there exactly when
      an earlier CNAME at the same owner got past it. */
  lemma SecondCnameExit(cfg: Config, rs: seq<Record>, j: nat)
    requires j < |rs|
    ensures var s := Run(cfg, rs);
      Reached(s.fates[j], SecondCname) && s.records[j].qtype == CNAME
      ==> (s.fates[j] == Excluded(SecondCname)
           <==> exists i :: 0 <= i < j && Passed(s.fates[i], SecondCname) && s.records[i].qtype == CNAME
                            && SameName(s.records[i].qname, s.records[j].qname))
  {
    var s := Run(cfg, rs);
    var p := Run(cfg, rs[..j]);
    var r := s.records[j];
    var n := Canon(r.qname);
    Before(cfg, rs, j);
    if Reached(s.fates[j], SecondCname) && r.qtype == CNAME {
      CnamesOfRun(cfg, rs[..j], n);
      CnameCondition(cfg, p, r);
      if s.fates[j] == Excluded(SecondCname) {
        var i :| 0 <= i < j && Passed(p.fates[i], SecondCname) && p.records[i].qtype == CNAME
                 && Canon(p.records[i].qname) == n;
        assert s.fates[i] == p.fates[i] && s.records[i] == p.records[i];
      } else {
        forall i | 0 <= i < j && Passed(s.fates[i], SecondCname) && s.records[i].qtype == CNAME
          ensures !SameName(s.records[i].qname, r.qname)
        {
          assert s.fates[i] == p.fates[i] && s.records[i] == p.records[i];
        }
      }
    }
  }

  /** A record leaving at the duplicate exit adds one error, of that kind,
      and nothing the later checks would have added: no index past that
      exit changes and no later note is issued. */
  lemma DuplicateSkipsRest(cfg: Config, s: State, input: Record)
    requires FateOf(cfg, s, Normalise(input)) == Excluded(Duplicate)
    ensures var r := Normalise(input); var f := FateOf(cfg, s, r); var t := Step(cfg, s, r);
      && Errors(RecordFindings(cfg, s, input, f)) == 1
      && RecordFindings(cfg, s, input, f)[|RecordFindings(cfg, s, input, f)| - 1]
         == OnRecord(Err(DuplicateRecord), r.qname, r.qtype)
      && PlacementNotes(cfg, r, f) == [] && DnskeyNotes(cfg, r, f) == []
      && t.contents == s.contents && t.ttls == s.ttls && t.apexNs == s.apexNs
      && t.cnames == s.cnames && t.noncnames == s.noncnames && t.glue == s.glue
      && t.checkGlue == s.checkGlue && t.occluders == s.occluders && t.cnameChecks == s.cnameChecks
  {
    SkipsRestFindings(cfg, s, input);
    SkipsRestIndices(cfg, s, Normalise(input));
  }

  /** A record leaving at the TTL exit likewise adds one error and none of
      the later effects. */
  lemma TtlMismatchSkipsRest(cfg: Config, s: State, input: Record)
    requires FateOf(cfg, s, Normalise(input)) == Excluded(TtlClash)
    ensures var r := Normalise(input); var f := FateOf(cfg, s, r); var t := Step(cfg, s, r);
      && Errors(RecordFindings(cfg, s, input, f)) == 1
      && RecordFindings(cfg, s, input, f)[|RecordFindings(cfg, s, input, f)| - 1]
         == OnRecord(Err(TtlMismatch), r.qname, r.qtype)
      && PlacementNotes(cfg, r, f) == [] && DnskeyNotes(cfg, r, f) == []
      && t.ttls == s.ttls && t.apexNs == s.apexNs
      && t.cnames == s.cnames && t.noncnames == s.noncnames && t.glue == s.glue
      && t.checkGlue == s.checkGlue && t.occluders == s.occluders && t.cnameChecks == s.cnameChecks
  {
    SkipsRestFindings(cfg, s, input);
    SkipsRestIndices(cfg, s, Normalise(input));
  }

  /** What every exit from the duplicate exit on shares: one error, the
      exit's, last; and no placement or DNSKEY note. */
  lemma SkipsRestFindings(cfg: Config, s: State, input: Record)
    requires var f := FateOf(cfg, s, Normalise(input));
      f.Excluded? && !Passed(f, TtlClash)
    ensures var r := Normalise(input); var f := FateOf(cfg, s, r);
      && Errors(RecordFindings(cfg, s, input, f)) == 1
      && RecordFindings(cfg, s, input, f)[|RecordFindings(cfg, s, input, f)| - 1]
         == OnRecord(ExitKind(f.exit), r.qname, r.qtype)
      && PlacementNotes(cfg, r, f) == [] && DnskeyNotes(cfg, r, f) == []
  {
    var r := Normalise(input);
    var f := FateOf(cfg, s, r);
    RecordErrors(cfg, s, input);
    assert PlacementNotes(cfg, r, f) == [];
    assert DnskeyNotes(cfg, r, f) == [];
    var fs := RecordFindings(cfg, s, input, f);
    var head := NormaliserFindings(input) + ContentNotes(cfg, r, f) + ServiceFindings(cfg, s, r, f)
                + PlacementNotes(cfg, r, f) + DnskeyNotes(cfg, r, f);
    assert fs == head + [OnRecord(ExitKind(f.exit), r.qname, r.qtype)];
  }

  /** ... and no index past the TTL exit changes. */
  lemma SkipsRestIndices(cfg: Config, s: State, r: Record)
    requires var f := FateOf(cfg, s, r);
      f.Excluded? && !Passed(f, TtlClash)
    ensures var t := Step(cfg, s, r);
      && t.ttls == s.ttls && t.apexNs == s.apexNs
      && t.cnames == s.cnames && t.noncnames == s.noncnames && t.glue == s.glue
      && t.checkGlue == s.checkGlue && t.occluders == s.occluders && t.cnameChecks == s.cnameChecks
  {
  }
}

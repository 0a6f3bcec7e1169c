/** What the pass over the records leaves behind: one fate and one working
    copy per record, one error per excluded record, and indices that hold
    exactly the names of the records that got far enough to be entered. */
module FoldFacts {
  import opened Common
  import opened Names
  import opened Records
  import opened Findings
  import opened Normaliser
  import opened Accumulator

  /** The exit chain in terms of how far a record gets: it passes each exit
      exactly when it passed the one before and that exit's condition does
      not hold. */
  lemma FatePassed(cfg: Config, s: State, r: Record)
    ensures var f := FateOf(cfg, s, r);
      && (Passed(f, Malformed) <==> Decode(cfg, r.qtype, r.content).Some?)
      && (Passed(f, Outside) <==> Passed(f, Malformed) && IsPartOf(r.qname, cfg.zone))
      && (Passed(f, Duplicate) <==> Passed(f, Outside) && DupKeyOf(r) !in s.contents)
      && (Passed(f, TtlClash)
          <==> Passed(f, Duplicate)
               && (TtlKeyFor(cfg, r) in s.ttls ==> s.ttls[TtlKeyFor(cfg, r)] == r.ttl))
      && (Passed(f, StraySoa)
          <==> Passed(f, TtlClash) && (r.qtype == SOA ==> SameName(r.qname, cfg.zone)))
      && (Passed(f, SecondCname)
          <==> Passed(f, StraySoa) && (r.qtype == CNAME ==> Canon(r.qname) !in s.cnames))
      && (Passed(f, Unsigned)
          <==> Passed(f, SecondCname) && (r.qtype == RRSIG ==> cfg.presigned))
      && (f.Kept? <==> Passed(f, Unsigned) && r.qtype != NSEC && r.qtype != NSEC3)
  {
  }

  /** Content that parses yields data of its type's shape: a parsed NS, MX
      or SRV record always names a target, a parsed SVCB or HTTPS record is
      always a service binding, and a parsed RRSIG always names the type it
      covers. */
  lemma DataShape(cfg: Config, s: State, r: Record)
    requires Passed(FateOf(cfg, s, r), Malformed)
    ensures (r.qtype == NS || r.qtype == MX || r.qtype == SRV) <==> DataOf(cfg, r).Host?
    ensures (r.qtype == SVCB || r.qtype == HTTPS) <==> DataOf(cfg, r).Service?
    ensures r.qtype == RRSIG <==> DataOf(cfg, r).Signature?
  {
  }

  /** The second-alias warning: a record gets it exactly when it is an
      in-zone alias-form SVCB/HTTPS record and an alias form of the same
      type is already indexed at its owner. */
  lemma DuplicateAliasNote(cfg: Config, s: State, input: Record, f: Fate)
    ensures var r := Normalise(input); var data := DataOf(cfg, r);
      CountKind(RecordFindings(cfg, s, input, f), Warn(DuplicateAlias))
      == if Passed(f, Outside) && IsService(r, data) && data.priority == 0
            && Canon(r.qname) in ServiceIndex(s, r.qtype).aliases then 1 else 0
  {
    var r := Normalise(input);
    var k := Warn(DuplicateAlias);
    var exit := if f.Excluded? then [OnRecord(ExitKind(f.exit), r.qname, r.qtype)] else [];
    assert RecordFindings(cfg, s, input, f)
        == NormaliserFindings(input) + ContentNotes(cfg, r, f) + ServiceFindings(cfg, s, r, f)
           + PlacementNotes(cfg, r, f) + DnskeyNotes(cfg, r, f) + exit;
    NormaliserNoAlias(input);
    ContentNoAlias(cfg, r, f);
    ServiceAliasCount(cfg, s, r, f);
    PlacementNoAlias(cfg, r, f);
    DnskeyNoAlias(cfg, r, f);
    CountKindAbsent(exit, k);
    CountOnlyThird(NormaliserFindings(input), ContentNotes(cfg, r, f), ServiceFindings(cfg, s, r, f),
                   PlacementNotes(cfg, r, f), DnskeyNotes(cfg, r, f), exit, k);
  }

  /** Of six parts, only the third holds findings of kind `k`. */
  lemma CountOnlyThird(n0: seq<Finding>, n1: seq<Finding>, n2: seq<Finding>, n3: seq<Finding>,
                       n4: seq<Finding>, n5: seq<Finding>, k: Kind)
    requires CountKind(n0, k) == 0 && CountKind(n1, k) == 0
    requires CountKind(n3, k) == 0 && CountKind(n4, k) == 0 && CountKind(n5, k) == 0
    ensures CountKind(n0 + n1 + n2 + n3 + n4 + n5, k) == CountKind(n2, k)
  {
    CountKindAppend(n0, n1, k);
    CountKindAppend(n0 + n1, n2, k);
    CountKindAppend(n0 + n1 + n2, n3, k);
    CountKindAppend(n0 + n1 + n2 + n3, n4, k);
    CountKindAppend(n0 + n1 + n2 + n3 + n4, n5, k);
  }

  lemma NormaliserNoAlias(input: Record)
    ensures CountKind(NormaliserFindings(input), Warn(DuplicateAlias)) == 0
  {
    if input.qtype == SOA {
      var parts := Fields(input.content);
      WhenPairCounts(|parts| < 7, OnRecord(Inform(SoaAutocomplete), input.qname, input.qtype),
                     |parts| >= 2 && '@' in parts[1], OnRecord(Warn(SoaAtSign), input.qname, input.qtype),
                     Warn(DuplicateAlias), Warning);
    }
  }

  lemma ContentNoAlias(cfg: Config, r: Record, f: Fate)
    ensures CountKind(ContentNotes(cfg, r, f), Warn(DuplicateAlias)) == 0
  {
    var k := if r.qtype == AAAA then Warn(InvalidIPv6) else Warn(ContentMismatch);
    WhenCounts(Passed(f, Malformed) && !Canonical(cfg, r), OnRecord(k, r.qname, r.qtype), Warn(DuplicateAlias), Warning);
  }

  lemma PlacementNoAlias(cfg: Config, r: Record, f: Fate)
    ensures CountKind(PlacementNotes(cfg, r, f), Warn(DuplicateAlias)) == 0
  {
    PlacementKinds(cfg, r, f);
    CountKindAbsent(PlacementNotes(cfg, r, f), Warn(DuplicateAlias));
  }

  lemma DnskeyNoAlias(cfg: Config, r: Record, f: Fate)
    ensures CountKind(DnskeyNotes(cfg, r, f), Warn(DuplicateAlias)) == 0
  {
    WhenPairCounts(f.Kept? && !cfg.presigned && r.qtype == DNSKEY && !cfg.directDnskey,
                   OnRecord(Warn(DnskeyIgnored), r.qname, r.qtype),
                   f.Kept? && !cfg.presigned && r.qtype == DNSKEY && cfg.directDnskey && r.ttl != cfg.soaMinimum,
                   OnRecord(Warn(DnskeyTtl), r.qname, r.qtype),
                   Warn(DuplicateAlias), Warning);
  }

  lemma ServiceAliasCount(cfg: Config, s: State, r: Record, f: Fate)
    ensures var data := DataOf(cfg, r);
      CountKind(ServiceFindings(cfg, s, r, f), Warn(DuplicateAlias))
      == if Passed(f, Outside) && IsService(r, data) && data.priority == 0
            && Canon(r.qname) in ServiceIndex(s, r.qtype).aliases then 1 else 0
  {
    var k := Warn(DuplicateAlias);
    var data := DataOf(cfg, r);
    if Passed(f, Outside) && IsService(r, data) {
      var b := data.priority == 0 && Canon(r.qname) in ServiceIndex(s, r.qtype).aliases;
      ServiceNotesCount(r, data, k);
      WhenCounts(b, OnRecord(k, r.qname, r.qtype), k, Warning);
      CountKindAppend(ServiceNotes(r, data), Note(r, k, b), k);
    }
  }

  predicate Harmless(fs: seq<Finding>) {
    forall g :: g in fs ==> SeverityOf(g.kind) != Error
  }

  lemma NoteHarmless(r: Record, k: Kind, b: bool)
    requires SeverityOf(k) != Error
    ensures Harmless(Note(r, k, b))
  {
  }

  lemma HarmlessAppend(a: seq<Finding>, b: seq<Finding>)
    requires Harmless(a) && Harmless(b)
    ensures Harmless(a + b)
  {
  }

  /** The placement and hostname notes come in six kinds, none an error. */
  lemma PlacementKinds(cfg: Config, r: Record, f: Fate)
    ensures forall g :: g in PlacementNotes(cfg, r, f) ==>
      g.kind in {Warn(InsecureWildcard), Inform(WildcardHint), Warn(DsAtApex), Warn(DnskeyNotAtApex), Inform(NotHostname), Warn(HostnameFault)}
  {
  }

  lemma PlacementHarmless(cfg: Config, r: Record, f: Fate)
    ensures Harmless(PlacementNotes(cfg, r, f))
  {
    PlacementKinds(cfg, r, f);
    forall g | g in PlacementNotes(cfg, r, f)
      ensures SeverityOf(g.kind) != Error
    {
      PlacementKindHarmless(g.kind);
    }
  }

  lemma PlacementKindHarmless(k: Kind)
    requires k in {Warn(InsecureWildcard), Inform(WildcardHint), Warn(DsAtApex), Warn(DnskeyNotAtApex), Inform(NotHostname), Warn(HostnameFault)}
    ensures SeverityOf(k) != Error
  {
  }

  lemma ServiceHarmless(cfg: Config, s: State, r: Record, f: Fate)
    ensures Harmless(ServiceFindings(cfg, s, r, f))
  {
    var data := DataOf(cfg, r);
    if Passed(f, Outside) && IsService(r, data) {
      var b := data.priority == 0 && Canon(r.qname) in ServiceIndex(s, r.qtype).aliases;
      assert Harmless(ServiceNotes(r, data));
      NoteHarmless(r, Warn(DuplicateAlias), b);
      HarmlessAppend(ServiceNotes(r, data), Note(r, Warn(DuplicateAlias), b));
    }
  }

  lemma DnskeyHarmless(cfg: Config, r: Record, f: Fate)
    ensures Harmless(DnskeyNotes(cfg, r, f))
  {
    var a := f.Kept? && !cfg.presigned && r.qtype == DNSKEY && !cfg.directDnskey;
    var b := f.Kept? && !cfg.presigned && r.qtype == DNSKEY && cfg.directDnskey && r.ttl != cfg.soaMinimum;
    NoteHarmless(r, Warn(DnskeyIgnored), a);
    NoteHarmless(r, Warn(DnskeyTtl), b);
    HarmlessAppend(Note(r, Warn(DnskeyIgnored), a), Note(r, Warn(DnskeyTtl), b));
  }

  /** A record adds one error if it is excluded and none if it is kept:
      every record-local error is an exit. */
  lemma RecordErrors(cfg: Config, s: State, input: Record)
    ensures var f := FateOf(cfg, s, Normalise(input));
      Errors(RecordFindings(cfg, s, input, f)) == if f.Kept? then 0 else 1
  {
    FindingsErrors(cfg, s, input, FateOf(cfg, s, Normalise(input)));
  }

  /** The notes before the exit error are never errors. */
  lemma FindingsErrors(cfg: Config, s: State, input: Record, f: Fate)
    ensures Errors(RecordFindings(cfg, s, input, f)) == if f.Kept? then 0 else 1
  {
    var r := Normalise(input);
    var head := NormaliserFindings(input) + ContentNotes(cfg, r, f) + ServiceFindings(cfg, s, r, f)
                + PlacementNotes(cfg, r, f) + DnskeyNotes(cfg, r, f);
    var exit := if f.Excluded? then [OnRecord(ExitKind(f.exit), r.qname, r.qtype)] else [];
    HeadHarmless(cfg, s, input, f);
    ErrorsZeroIff(head);
    CountSeverityAppend(head, exit, Error);
    if f.Excluded? {
      assert exit[..0] == [];
    }
  }

  lemma HeadHarmless(cfg: Config, s: State, input: Record, f: Fate)
    ensures var r := Normalise(input);
      Harmless(NormaliserFindings(input) + ContentNotes(cfg, r, f) + ServiceFindings(cfg, s, r, f)
               + PlacementNotes(cfg, r, f) + DnskeyNotes(cfg, r, f))
  {
    var r := Normalise(input);
    var n0 := NormaliserFindings(input);
    var n1 := ContentNotes(cfg, r, f);
    var n2 := ServiceFindings(cfg, s, r, f);
    var n3 := PlacementNotes(cfg, r, f);
    var n4 := DnskeyNotes(cfg, r, f);
    assert Harmless(n0);
    assert Harmless(n1);
    ServiceHarmless(cfg, s, r, f);
    PlacementHarmless(cfg, r, f);
    DnskeyHarmless(cfg, r, f);
    HarmlessAppend(n0, n1);
    HarmlessAppend(n0 + n1, n2);
    HarmlessAppend(n0 + n1 + n2, n3);
    HarmlessAppend(n0 + n1 + n2 + n3, n4);
  }

  /** The working copies are the normalised records, in input order. */
  lemma {:induction false} RunRecords(cfg: Config, rs: seq<Record>)
    ensures forall i :: 0 <= i < |rs| ==> Run(cfg, rs).records[i] == Normalise(rs[i])
    decreases |rs|
  {
    if rs != [] {
      var q := rs[..|rs| - 1];
      RunRecords(cfg, q);
      RunShape(cfg, rs);
      NormalisedSnoc(Run(cfg, rs).records, Run(cfg, q).records, rs);
    }
  }

  lemma NormalisedSnoc(after: seq<Record>, before: seq<Record>, rs: seq<Record>)
    requires rs != [] && |before| == |rs| - 1 && after == before + [Normalise(rs[|rs| - 1])]
    requires forall i :: 0 <= i < |before| ==> before[i] == Normalise(rs[i])
    ensures forall i :: 0 <= i < |rs| ==> after[i] == Normalise(rs[i])
  {
  }

  /** One more record adds its fate and its findings at the end. */
  lemma RunSnoc(cfg: Config, rs: seq<Record>)
    requires rs != []
    ensures var q := rs[..|rs| - 1]; var t := Run(cfg, q);
      var f := FateOf(cfg, t, Normalise(rs[|rs| - 1]));
      && Run(cfg, rs).fates == t.fates + [f]
      && PassFindings(cfg, rs) == PassFindings(cfg, q) + RecordFindings(cfg, t, rs[|rs| - 1], f)
  {
  }

  /** The pass reports one error per excluded record. */
  lemma {:induction false} RunErrors(cfg: Config, rs: seq<Record>)
    ensures Errors(PassFindings(cfg, rs)) == |IndicesWhere(Run(cfg, rs).fates, IsExcluded)|
    decreases |rs|
  {
    if rs != [] {
      var q := rs[..|rs| - 1];
      var x := rs[|rs| - 1];
      var t := Run(cfg, q);
      var f := FateOf(cfg, t, Normalise(x));
      RunErrors(cfg, q);
      RunSnoc(cfg, rs);
      RecordErrors(cfg, t, x);
      ErrorsStep(PassFindings(cfg, q), RecordFindings(cfg, t, x, f), t.fates, f);
    }
  }

  /** Appending one record's findings, with one error exactly when the
      record is excluded, keeps errors and exclusions in step. */
  lemma ErrorsStep(before: seq<Finding>, more: seq<Finding>, fates: seq<Fate>, f: Fate)
    requires Errors(before) == |IndicesWhere(fates, IsExcluded)|
    requires Errors(more) == if f.Kept? then 0 else 1
    ensures Errors(before + more) == |IndicesWhere(fates + [f], IsExcluded)|
  {
    CountSeverityAppend(before, more, Error);
    IndicesWhereSnoc(fates, f, IsExcluded);
    assert |fates| !in IndicesWhere(fates, IsExcluded);
  }

  /** One more record adds its fate and its working copy at the end. */
  lemma RunShape(cfg: Config, rs: seq<Record>)
    requires rs != []
    ensures var t := Run(cfg, rs[..|rs| - 1]); var r := Normalise(rs[|rs| - 1]);
      && Run(cfg, rs).fates == t.fates + [FateOf(cfg, t, r)]
      && Run(cfg, rs).records == t.records + [r]
  {
  }

  lemma PrefixSnoc<A>(s: seq<A>, t: seq<A>, a: A, j: nat)
    requires s == t + [a] && j <= |t|
    ensures s[..j] == t[..j]
  {
  }

  lemma SnocLast<A>(s: seq<A>, t: seq<A>, a: A)
    requires s == t + [a]
    ensures s[|t|] == a
  {
  }

  /** Processing more records does not change the fate of the earlier ones. */
  lemma {:induction false} RunPrefix(cfg: Config, rs: seq<Record>, j: nat)
    requires j <= |rs|
    ensures Run(cfg, rs[..j]).fates == Run(cfg, rs).fates[..j]
    ensures Run(cfg, rs[..j]).records == Run(cfg, rs).records[..j]
    decreases |rs|
  {
    if j == |rs| {
      assert rs[..j] == rs;
    } else {
      var q := rs[..|rs| - 1];
      assert q[..j] == rs[..j];
      RunPrefix(cfg, q, j);
      var s := Run(cfg, rs);
      var t := Run(cfg, q);
      var r := Normalise(rs[|rs| - 1]);
      RunShape(cfg, rs);
      PrefixSnoc(s.fates, t.fates, FateOf(cfg, t, r), j);
      PrefixSnoc(s.records, t.records, r, j);
    }
  }

  /** A record's fate is decided by the indices the records before it built. */
  lemma {:induction false} FateAt(cfg: Config, rs: seq<Record>, j: nat)
    requires j < |rs|
    ensures Run(cfg, rs).fates[j] == FateOf(cfg, Run(cfg, rs[..j]), Normalise(rs[j]))
    decreases |rs|
  {
    var q := rs[..|rs| - 1];
    var p := Run(cfg, q);
    RunShape(cfg, rs);
    var f := FateOf(cfg, p, Normalise(rs[|rs| - 1]));
    if j == |rs| - 1 {
      assert q == rs[..j];
      SnocLast(Run(cfg, rs).fates, p.fates, f);
    } else {
      FateAt(cfg, q, j);
      assert q[..j] == rs[..j] && q[j] == rs[j];
      SnocCarry(Run(cfg, rs).fates, p.fates, f, j, FateOf(cfg, Run(cfg, rs[..j]), Normalise(rs[j])));
    }
  }

  lemma SnocCarry<A>(s: seq<A>, t: seq<A>, a: A, j: nat, b: A)
    requires s == t + [a] && j < |t| && t[j] == b
    ensures s[j] == b
  {
  }

  /** The rrset-member index holds the key of every record that got past the
      duplicate exit, and nothing else. */
  lemma {:induction false} ContentsOfRun(cfg: Config, rs: seq<Record>, key: DupKey)
    ensures var s := Run(cfg, rs);
      key in s.contents
      <==> exists i :: 0 <= i < |rs| && Passed(s.fates[i], Duplicate) && DupKeyOf(s.records[i]) == key
    decreases |rs|
  {
    if rs != [] {
      var q := rs[..|rs| - 1];
      ContentsOfRun(cfg, q, key);
      ContentsStep(cfg, Run(cfg, q), Normalise(rs[|rs| - 1]), key);
    }
  }

  lemma ContentsStep(cfg: Config, p: State, y: Record, key: DupKey)
    requires |p.fates| == |p.records|
    requires key in p.contents
      <==> exists i :: 0 <= i < |p.fates| && Passed(p.fates[i], Duplicate) && DupKeyOf(p.records[i]) == key
    ensures var s := Step(cfg, p, y);
      key in s.contents
      <==> exists i :: 0 <= i < |s.fates| && Passed(s.fates[i], Duplicate) && DupKeyOf(s.records[i]) == key
  {
    var s := Step(cfg, p, y);
    var f := FateOf(cfg, p, y);
    assert s.contents == if Passed(f, Duplicate) then p.contents + {DupKeyOf(y)} else p.contents;
    assert forall i :: 0 <= i < |p.fates| ==> s.fates[i] == p.fates[i] && s.records[i] == p.records[i];
    assert s.fates[|p.fates|] == f && s.records[|p.fates|] == y;
  }

  /** The TTL index has a key exactly for the rrsets of records that got past
      the TTL exit. */
  lemma {:induction false} TtlKeysOfRun(cfg: Config, rs: seq<Record>, key: TtlKey)
    ensures var s := Run(cfg, rs);
      key in s.ttls
      <==> exists i :: 0 <= i < |rs| && Passed(s.fates[i], TtlClash) && TtlKeyFor(cfg, s.records[i]) == key
    decreases |rs|
  {
    if rs != [] {
      var q := rs[..|rs| - 1];
      TtlKeysOfRun(cfg, q, key);
      TtlKeysStep(cfg, Run(cfg, q), Normalise(rs[|rs| - 1]), key);
    }
  }

  lemma TtlKeysStep(cfg: Config, p: State, y: Record, key: TtlKey)
    requires |p.fates| == |p.records|
    requires key in p.ttls
      <==> exists i :: 0 <= i < |p.fates| && Passed(p.fates[i], TtlClash) && TtlKeyFor(cfg, p.records[i]) == key
    ensures var s := Step(cfg, p, y);
      key in s.ttls
      <==> exists i :: 0 <= i < |s.fates| && Passed(s.fates[i], TtlClash) && TtlKeyFor(cfg, s.records[i]) == key
  {
    var s := Step(cfg, p, y);
    var f := FateOf(cfg, p, y);
    assert s.ttls == if Passed(f, TtlClash) && TtlKeyFor(cfg, y) !in p.ttls then p.ttls[TtlKeyFor(cfg, y) := y.ttl] else p.ttls;
    assert forall i :: 0 <= i < |p.fates| ==> s.fates[i] == p.fates[i] && s.records[i] == p.records[i];
    assert s.fates[|p.fates|] == f && s.records[|p.fates|] == y;
  }

  /** Every record that got past the TTL exit carries the TTL stored for its
      rrset, which is therefore the TTL of the rrset's first such record. */
  lemma {:induction false} TtlValuesOfRun(cfg: Config, rs: seq<Record>, i: nat)
    requires i < |rs|
    ensures var s := Run(cfg, rs);
      Passed(s.fates[i], TtlClash)
      ==> TtlKeyFor(cfg, s.records[i]) in s.ttls && s.ttls[TtlKeyFor(cfg, s.records[i])] == s.records[i].ttl
    decreases |rs|
  {
    var q := rs[..|rs| - 1];
    var t := Run(cfg, q);
    var s := Run(cfg, rs);
    var x := rs[|rs| - 1];
    var r := Normalise(x);
    var f := FateOf(cfg, t, r);
    assert s.fates == t.fates + [f] && s.records == t.records + [r];
    var key := TtlKeyFor(cfg, r);
    assert s.ttls == if Passed(f, TtlClash) && key !in t.ttls then t.ttls[key := r.ttl] else t.ttls;
    if i < |q| {
      TtlValuesOfRun(cfg, q, i);
      assert s.fates[i] == t.fates[i] && s.records[i] == t.records[i];
    } else {
      assert s.fates[i] == f && s.records[i] == r;
      FatePassed(cfg, t, r);
    }
  }

  /** The CNAME index holds the owners of the CNAMEs that got
      past the second-CNAME exit. */
  lemma {:induction false} CnamesOfRun(cfg: Config, rs: seq<Record>, n: Name)
    ensures var s := Run(cfg, rs);
      n in s.cnames
      <==> exists i :: 0 <= i < |rs| && Passed(s.fates[i], SecondCname)
                         && s.records[i].qtype == CNAME && Canon(s.records[i].qname) == n
    decreases |rs|
  {
    if rs != [] {
      var q := rs[..|rs| - 1];
      CnamesOfRun(cfg, q, n);
      CnamesStep(cfg, Run(cfg, q), Normalise(rs[|rs| - 1]), n);
    }
  }

  lemma CnamesStep(cfg: Config, p: State, y: Record, n: Name)
    requires |p.fates| == |p.records|
    requires n in p.cnames
      <==> exists i :: 0 <= i < |p.fates| && Passed(p.fates[i], SecondCname)
                         && p.records[i].qtype == CNAME && Canon(p.records[i].qname) == n
    ensures var s := Step(cfg, p, y);
      n in s.cnames
      <==> exists i :: 0 <= i < |s.fates| && Passed(s.fates[i], SecondCname)
                         && s.records[i].qtype == CNAME && Canon(s.records[i].qname) == n
  {
    var s := Step(cfg, p, y);
    var f := FateOf(cfg, p, y);
    assert s.cnames == if Passed(f, SecondCname) && y.qtype == CNAME then Insert(p.cnames, Canon(y.qname)) else p.cnames;
    assert forall i :: 0 <= i < |p.fates| ==> s.fates[i] == p.fates[i] && s.records[i] == p.records[i];
    assert s.fates[|p.fates|] == f && s.records[|p.fates|] == y;
  }

  /** The other-records index holds the owners of the records other than
      CNAME and RRSIG that got past the non-apex SOA exit. */
  lemma {:induction false} NoncnamesOfRun(cfg: Config, rs: seq<Record>, n: Name)
    ensures var s := Run(cfg, rs);
      n in s.noncnames
      <==> exists i :: 0 <= i < |rs| && Passed(s.fates[i], StraySoa)
                       && s.records[i].qtype != CNAME && s.records[i].qtype != RRSIG
                       && Canon(s.records[i].qname) == n
    decreases |rs|
  {
    if rs != [] {
      var q := rs[..|rs| - 1];
      NoncnamesOfRun(cfg, q, n);
      NoncnamesStep(cfg, Run(cfg, q), Normalise(rs[|rs| - 1]), n);
    }
  }

  lemma NoncnamesStep(cfg: Config, p: State, y: Record, n: Name)
    requires |p.fates| == |p.records|
    requires n in p.noncnames
      <==> exists i :: 0 <= i < |p.fates| && Passed(p.fates[i], StraySoa)
                       && p.records[i].qtype != CNAME && p.records[i].qtype != RRSIG
                       && Canon(p.records[i].qname) == n
    ensures var s := Step(cfg, p, y);
      n in s.noncnames
      <==> exists i :: 0 <= i < |s.fates| && Passed(s.fates[i], StraySoa)
                       && s.records[i].qtype != CNAME && s.records[i].qtype != RRSIG
                       && Canon(s.records[i].qname) == n
  {
    var s := Step(cfg, p, y);
    var f := FateOf(cfg, p, y);
    assert s.noncnames == if Passed(f, StraySoa) && y.qtype != CNAME && y.qtype != RRSIG then p.noncnames + {Canon(y.qname)} else p.noncnames;
    assert forall i :: 0 <= i < |p.fates| ==> s.fates[i] == p.fates[i] && s.records[i] == p.records[i];
    assert s.fates[|p.fates|] == f && s.records[|p.fates|] == y;
  }

  /** A non-apex NS that got past the non-apex SOA exit: a delegation. */
  predicate IsDelegation(cfg: Config, f: Fate, r: Record) {
    Passed(f, StraySoa) && !SameName(r.qname, cfg.zone) && r.qtype == NS
  }

  /** The names needing glue are the lower-cased targets of delegations
      whose target lies at or below the delegation's owner. */
  lemma {:induction false} CheckGlueOfRun(cfg: Config, rs: seq<Record>, n: Name)
    ensures var s := Run(cfg, rs);
      n in s.checkGlue
      <==> exists i :: 0 <= i < |rs| && IsDelegation(cfg, s.fates[i], s.records[i])
                       && DataOf(cfg, s.records[i]).Host?
                       && IsPartOf(DataOf(cfg, s.records[i]).target, s.records[i].qname)
                       && Canon(DataOf(cfg, s.records[i]).target) == n
    decreases |rs|
  {
    if rs != [] {
      var q := rs[..|rs| - 1];
      CheckGlueOfRun(cfg, q, n);
      CheckGlueStep(cfg, Run(cfg, q), Normalise(rs[|rs| - 1]), n);
    }
  }

  lemma CheckGlueStep(cfg: Config, t: State, r: Record, n: Name)
    requires |t.fates| == |t.records|
    requires n in t.checkGlue
      <==> exists i :: 0 <= i < |t.fates| && IsDelegation(cfg, t.fates[i], t.records[i])
                       && DataOf(cfg, t.records[i]).Host?
                       && IsPartOf(DataOf(cfg, t.records[i]).target, t.records[i].qname)
                       && Canon(DataOf(cfg, t.records[i]).target) == n
    ensures var s := Step(cfg, t, r);
      n in s.checkGlue
      <==> exists i :: 0 <= i < |s.fates| && IsDelegation(cfg, s.fates[i], s.records[i])
                       && DataOf(cfg, s.records[i]).Host?
                       && IsPartOf(DataOf(cfg, s.records[i]).target, s.records[i].qname)
                       && Canon(DataOf(cfg, s.records[i]).target) == n
  {
    var s := Step(cfg, t, r);
    var f := FateOf(cfg, t, r);
    assert s.checkGlue == if IsDelegation(cfg, f, r) && DataOf(cfg, r).Host? && IsPartOf(DataOf(cfg, r).target, r.qname) then Insert(t.checkGlue, Canon(DataOf(cfg, r).target)) else t.checkGlue;
    assert forall i :: 0 <= i < |t.fates| ==> s.fates[i] == t.fates[i] && s.records[i] == t.records[i];
    assert s.fates[|t.fates|] == f && s.records[|t.fates|] == r;
  }

  /** The glue index holds the owners of non-apex address records that got
      past the non-apex SOA exit. */
  lemma {:induction false} GlueOfRun(cfg: Config, rs: seq<Record>, n: Name)
    ensures var s := Run(cfg, rs);
      n in s.glue
      <==> exists i :: 0 <= i < |rs| && Passed(s.fates[i], StraySoa)
                       && !SameName(s.records[i].qname, cfg.zone) && IsAddress(s.records[i].qtype)
                       && Canon(s.records[i].qname) == n
    decreases |rs|
  {
    if rs != [] {
      var q := rs[..|rs| - 1];
      GlueOfRun(cfg, q, n);
      GlueStep(cfg, Run(cfg, q), Normalise(rs[|rs| - 1]), n);
    }
  }

  lemma GlueStep(cfg: Config, p: State, y: Record, n: Name)
    requires |p.fates| == |p.records|
    requires n in p.glue
      <==> exists i :: 0 <= i < |p.fates| && Passed(p.fates[i], StraySoa)
                       && !SameName(p.records[i].qname, cfg.zone) && IsAddress(p.records[i].qtype)
                       && Canon(p.records[i].qname) == n
    ensures var s := Step(cfg, p, y);
      n in s.glue
      <==> exists i :: 0 <= i < |s.fates| && Passed(s.fates[i], StraySoa)
                       && !SameName(s.records[i].qname, cfg.zone) && IsAddress(s.records[i].qtype)
                       && Canon(s.records[i].qname) == n
  {
    var s := Step(cfg, p, y);
    var f := FateOf(cfg, p, y);
    assert s.glue == if Passed(f, StraySoa) && !SameName(y.qname, cfg.zone) && IsAddress(y.qtype) then p.glue + {Canon(y.qname)} else p.glue;
    assert forall i :: 0 <= i < |p.fates| ==> s.fates[i] == p.fates[i] && s.records[i] == p.records[i];
    assert s.fates[|p.fates|] == f && s.records[|p.fates|] == y;
  }

  /** The occluders are the (owner, type) pairs of delegations
      and of DNAMEs that got past the non-apex SOA exit. */
  lemma {:induction false} OccludersOfRun(cfg: Config, rs: seq<Record>, o: Occluder)
    ensures var s := Run(cfg, rs);
      o in s.occluders
      <==> exists i :: 0 <= i < |rs|
                         && (IsDelegation(cfg, s.fates[i], s.records[i])
                             || (Passed(s.fates[i], StraySoa) && s.records[i].qtype == DNAME))
                         && o == Occluder(Canon(s.records[i].qname), s.records[i].qtype)
    decreases |rs|
  {
    if rs != [] {
      var q := rs[..|rs| - 1];
      OccludersOfRun(cfg, q, o);
      OccludersStep(cfg, Run(cfg, q), Normalise(rs[|rs| - 1]), o);
    }
  }

  lemma OccludersStep(cfg: Config, p: State, y: Record, o: Occluder)
    requires |p.fates| == |p.records|
    requires o in p.occluders
      <==> exists i :: 0 <= i < |p.fates|
                         && (IsDelegation(cfg, p.fates[i], p.records[i])
                             || (Passed(p.fates[i], StraySoa) && p.records[i].qtype == DNAME))
                         && o == Occluder(Canon(p.records[i].qname), p.records[i].qtype)
    ensures var s := Step(cfg, p, y);
      o in s.occluders
      <==> exists i :: 0 <= i < |s.fates|
                         && (IsDelegation(cfg, s.fates[i], s.records[i])
                             || (Passed(s.fates[i], StraySoa) && s.records[i].qtype == DNAME))
                         && o == Occluder(Canon(s.records[i].qname), s.records[i].qtype)
  {
    var s := Step(cfg, p, y);
    var f := FateOf(cfg, p, y);
    assert s.occluders == if IsDelegation(cfg, f, y) || (Passed(f, StraySoa) && y.qtype == DNAME) then Insert(p.occluders, Occluder(Canon(y.qname), y.qtype)) else p.occluders;
    assert forall i :: 0 <= i < |p.fates| ==> s.fates[i] == p.fates[i] && s.records[i] == p.records[i];
    assert s.fates[|p.fates|] == f && s.records[|p.fates|] == y;
  }

  /** The records queued for the CNAME-target rule are the MX, NS and SRV
      records that got past the RRSIG exit. */
  lemma {:induction false} CnameChecksOfRun(cfg: Config, rs: seq<Record>, r: Record)
    ensures var s := Run(cfg, rs);
      r in s.cnameChecks
      <==> exists i :: 0 <= i < |rs| && Passed(s.fates[i], Unsigned)
                       && (r.qtype == MX || r.qtype == NS || r.qtype == SRV) && s.records[i] == r
    decreases |rs|
  {
    if rs != [] {
      var q := rs[..|rs| - 1];
      CnameChecksOfRun(cfg, q, r);
      CnameChecksStep(cfg, Run(cfg, q), Normalise(rs[|rs| - 1]), r);
    }
  }

  lemma CnameChecksStep(cfg: Config, p: State, y: Record, r: Record)
    requires |p.fates| == |p.records|
    requires r in p.cnameChecks
      <==> exists i :: 0 <= i < |p.fates| && Passed(p.fates[i], Unsigned)
                       && (r.qtype == MX || r.qtype == NS || r.qtype == SRV) && p.records[i] == r
    ensures var s := Step(cfg, p, y);
      r in s.cnameChecks
      <==> exists i :: 0 <= i < |s.fates| && Passed(s.fates[i], Unsigned)
                       && (r.qtype == MX || r.qtype == NS || r.qtype == SRV) && s.records[i] == r
  {
    var s := Step(cfg, p, y);
    var f := FateOf(cfg, p, y);
    assert s.cnameChecks == if Passed(f, Unsigned) && (y.qtype == MX || y.qtype == NS || y.qtype == SRV) then p.cnameChecks + [y] else p.cnameChecks;
    assert forall i :: 0 <= i < |p.fates| ==> s.fates[i] == p.fates[i] && s.records[i] == p.records[i];
    assert s.fates[|p.fates|] == f && s.records[|p.fates|] == y;
  }

  /** The apex-NS flag is set exactly when an apex NS got past the TTL exit. */
  lemma {:induction false} ApexNsOfRun(cfg: Config, rs: seq<Record>)
    ensures var s := Run(cfg, rs);
      s.apexNs
      <==> exists i :: 0 <= i < |rs| && Passed(s.fates[i], TtlClash)
                       && SameName(s.records[i].qname, cfg.zone) && s.records[i].qtype == NS
    decreases |rs|
  {
    if rs != [] {
      var q := rs[..|rs| - 1];
      ApexNsOfRun(cfg, q);
      ApexNsStep(cfg, Run(cfg, q), Normalise(rs[|rs| - 1]));
    }
  }

  lemma ApexNsStep(cfg: Config, p: State, y: Record)
    requires |p.fates| == |p.records|
    requires p.apexNs
      <==> exists i :: 0 <= i < |p.fates| && Passed(p.fates[i], TtlClash)
                       && SameName(p.records[i].qname, cfg.zone) && p.records[i].qtype == NS
    ensures var s := Step(cfg, p, y);
      s.apexNs
      <==> exists i :: 0 <= i < |s.fates| && Passed(s.fates[i], TtlClash)
                       && SameName(s.records[i].qname, cfg.zone) && s.records[i].qtype == NS
  {
    var s := Step(cfg, p, y);
    var f := FateOf(cfg, p, y);
    assert s.apexNs == (p.apexNs || (Passed(f, TtlClash) && SameName(y.qname, cfg.zone) && y.qtype == NS));
    assert forall i :: 0 <= i < |p.fates| ==> s.fates[i] == p.fates[i] && s.records[i] == p.records[i];
    assert s.fates[|p.fates|] == f && s.records[|p.fates|] == y;
  }

  /** The TLSA index sees every record, excluded or not. */
  lemma {:induction false} TlsasOfRun(cfg: Config, rs: seq<Record>, n: Name)
    ensures var s := Run(cfg, rs);
      n in s.tlsas <==> exists i :: 0 <= i < |rs| && s.records[i].qtype == TLSA && Canon(s.records[i].qname) == n
    decreases |rs|
  {
    if rs != [] {
      var q := rs[..|rs| - 1];
      TlsasOfRun(cfg, q, n);
      TlsasStep(cfg, Run(cfg, q), Normalise(rs[|rs| - 1]), n);
    }
  }

  lemma TlsasStep(cfg: Config, p: State, y: Record, n: Name)
    requires |p.fates| == |p.records|
    requires n in p.tlsas <==> exists i :: 0 <= i < |p.fates| && p.records[i].qtype == TLSA && Canon(p.records[i].qname) == n
    ensures var s := Step(cfg, p, y);
      n in s.tlsas <==> exists i :: 0 <= i < |s.fates| && s.records[i].qtype == TLSA && Canon(s.records[i].qname) == n
  {
    var s := Step(cfg, p, y);
    var f := FateOf(cfg, p, y);
    assert s.tlsas == if y.qtype == TLSA then Insert(p.tlsas, Canon(y.qname)) else p.tlsas;
    assert forall i :: 0 <= i < |p.fates| ==> s.fates[i] == p.fates[i] && s.records[i] == p.records[i];
    assert s.fates[|p.fates|] == f && s.records[|p.fates|] == y;
  }

  /** So does the index of address owners ... */
  lemma {:induction false} AddressesOfRun(cfg: Config, rs: seq<Record>, n: Name)
    ensures var s := Run(cfg, rs);
      n in s.addresses <==> exists i :: 0 <= i < |rs| && IsAddress(s.records[i].qtype) && Canon(s.records[i].qname) == n
    decreases |rs|
  {
    if rs != [] {
      var q := rs[..|rs| - 1];
      AddressesOfRun(cfg, q, n);
      AddressesStep(cfg, Run(cfg, q), Normalise(rs[|rs| - 1]), n);
    }
  }

  lemma AddressesStep(cfg: Config, p: State, y: Record, n: Name)
    requires |p.fates| == |p.records|
    requires n in p.addresses <==> exists i :: 0 <= i < |p.fates| && IsAddress(p.records[i].qtype) && Canon(p.records[i].qname) == n
    ensures var s := Step(cfg, p, y);
      n in s.addresses <==> exists i :: 0 <= i < |s.fates| && IsAddress(s.records[i].qtype) && Canon(s.records[i].qname) == n
  {
    var s := Step(cfg, p, y);
    var f := FateOf(cfg, p, y);
    assert s.addresses == if IsAddress(y.qtype) then p.addresses + {Canon(y.qname)} else p.addresses;
    assert forall i :: 0 <= i < |p.fates| ==> s.fates[i] == p.fates[i] && s.records[i] == p.records[i];
    assert s.fates[|p.fates|] == f && s.records[|p.fates|] == y;
  }

  /** ... and of A owners ... */
  lemma {:induction false} ARecordsOfRun(cfg: Config, rs: seq<Record>, n: Name)
    ensures var s := Run(cfg, rs);
      n in s.aRecords <==> exists i :: 0 <= i < |rs| && s.records[i].qtype == A && Canon(s.records[i].qname) == n
    decreases |rs|
  {
    if rs != [] {
      var q := rs[..|rs| - 1];
      ARecordsOfRun(cfg, q, n);
      ARecordsStep(cfg, Run(cfg, q), Normalise(rs[|rs| - 1]), n);
    }
  }

  lemma ARecordsStep(cfg: Config, p: State, y: Record, n: Name)
    requires |p.fates| == |p.records|
    requires n in p.aRecords <==> exists i :: 0 <= i < |p.fates| && p.records[i].qtype == A && Canon(p.records[i].qname) == n
    ensures var s := Step(cfg, p, y);
      n in s.aRecords <==> exists i :: 0 <= i < |s.fates| && s.records[i].qtype == A && Canon(s.records[i].qname) == n
  {
    var s := Step(cfg, p, y);
    var f := FateOf(cfg, p, y);
    assert s.aRecords == if y.qtype == A then p.aRecords + {Canon(y.qname)} else p.aRecords;
    assert forall i :: 0 <= i < |p.fates| ==> s.fates[i] == p.fates[i] && s.records[i] == p.records[i];
    assert s.fates[|p.fates|] == f && s.records[|p.fates|] == y;
  }

  /** ... and of AAAA owners. */
  lemma {:induction false} AaaaRecordsOfRun(cfg: Config, rs: seq<Record>, n: Name)
    ensures var s := Run(cfg, rs);
      n in s.aaaaRecords <==> exists i :: 0 <= i < |rs| && s.records[i].qtype == AAAA && Canon(s.records[i].qname) == n
    decreases |rs|
  {
    if rs != [] {
      var q := rs[..|rs| - 1];
      AaaaRecordsOfRun(cfg, q, n);
      AaaaRecordsStep(cfg, Run(cfg, q), Normalise(rs[|rs| - 1]), n);
    }
  }

  lemma AaaaRecordsStep(cfg: Config, p: State, y: Record, n: Name)
    requires |p.fates| == |p.records|
    requires n in p.aaaaRecords <==> exists i :: 0 <= i < |p.fates| && p.records[i].qtype == AAAA && Canon(p.records[i].qname) == n
    ensures var s := Step(cfg, p, y);
      n in s.aaaaRecords <==> exists i :: 0 <= i < |s.fates| && s.records[i].qtype == AAAA && Canon(s.records[i].qname) == n
  {
    var s := Step(cfg, p, y);
    var f := FateOf(cfg, p, y);
    assert s.aaaaRecords == if y.qtype == AAAA then p.aaaaRecords + {Canon(y.qname)} else p.aaaaRecords;
    assert forall i :: 0 <= i < |p.fates| ==> s.fates[i] == p.fates[i] && s.records[i] == p.records[i];
    assert s.fates[|p.fates|] == f && s.records[|p.fates|] == y;
  }

  /** The sequences standing in for ordered sets hold no name twice. */
  lemma {:induction false} IndicesDistinct(cfg: Config, rs: seq<Record>)
    ensures var s := Run(cfg, rs);
      Distinct(s.tlsas) && Distinct(s.cnames) && Distinct(s.checkGlue) && Distinct(s.occluders)
      && Distinct(s.svcb.targets) && Distinct(s.https.targets)
    decreases |rs|
  {
    if rs != [] {
      var q := rs[..|rs| - 1];
      var t := Run(cfg, q);
      var s := Run(cfg, rs);
      var r := Normalise(rs[|rs| - 1]);
      IndicesDistinct(cfg, q);
      StepDistinct(cfg, t, r);
    }
  }

  lemma StepDistinct(cfg: Config, t: State, r: Record)
    requires Distinct(t.tlsas) && Distinct(t.cnames) && Distinct(t.checkGlue) && Distinct(t.occluders)
    requires Distinct(t.svcb.targets) && Distinct(t.https.targets)
    ensures var s := Step(cfg, t, r);
      Distinct(s.tlsas) && Distinct(s.cnames) && Distinct(s.checkGlue) && Distinct(s.occluders)
      && Distinct(s.svcb.targets) && Distinct(s.https.targets)
  {
    var s := Step(cfg, t, r);
    var data := DataOf(cfg, r);
    InsertFacts(t.tlsas, Canon(r.qname));
    InsertFacts(t.cnames, Canon(r.qname));
    InsertFacts(t.occluders, Occluder(Canon(r.qname), r.qtype));
    if data.Host? {
      InsertFacts(t.checkGlue, Canon(data.target));
    }
    if data.Service? {
      InsertFacts(t.svcb.targets, TupleOf(r, data));
      InsertFacts(t.https.targets, TupleOf(r, data));
    }
  }

  /** An in-zone SVCB/HTTPS record of type `t` (it got past the
      out-of-zone exit). */
  predicate IndexedService(cfg: Config, f: Fate, r: Record, t: QType) {
    Passed(f, Outside) && IsService(r, DataOf(cfg, r)) && r.qtype == t
  }

  /** One service index after one more record. */
  lemma ServiceIndexStep(cfg: Config, s: State, r: Record, t: QType)
    requires t == SVCB || t == HTTPS
    ensures var u := Step(cfg, s, r); var f := FateOf(cfg, s, r);
      ServiceIndex(u, t) == if IndexedService(cfg, f, r, t) then IndexInto(ServiceIndex(s, t), r, DataOf(cfg, r))
                            else ServiceIndex(s, t)
  {
  }

  /** The target tuples of a service type are those of its in-zone records. */
  lemma {:induction false} ServiceTargetsOfRun(cfg: Config, rs: seq<Record>, t: QType, x: SvcTarget)
    requires t == SVCB || t == HTTPS
    ensures var s := Run(cfg, rs);
      x in ServiceIndex(s, t).targets
      <==> exists i :: 0 <= i < |rs| && IndexedService(cfg, s.fates[i], s.records[i], t)
                       && x == TupleOf(s.records[i], DataOf(cfg, s.records[i]))
    decreases |rs|
  {
    if rs != [] {
      var q := rs[..|rs| - 1];
      ServiceTargetsOfRun(cfg, q, t, x);
      ServiceTargetsStep(cfg, Run(cfg, q), Normalise(rs[|rs| - 1]), t, x);
    }
  }

  lemma ServiceTargetsStep(cfg: Config, p: State, y: Record, t: QType, x: SvcTarget)
    requires t == SVCB || t == HTTPS
    requires |p.fates| == |p.records|
    requires x in ServiceIndex(p, t).targets
      <==> exists i :: 0 <= i < |p.fates| && IndexedService(cfg, p.fates[i], p.records[i], t)
                       && x == TupleOf(p.records[i], DataOf(cfg, p.records[i]))
    ensures var s := Step(cfg, p, y);
      x in ServiceIndex(s, t).targets
      <==> exists i :: 0 <= i < |s.fates| && IndexedService(cfg, s.fates[i], s.records[i], t)
                       && x == TupleOf(s.records[i], DataOf(cfg, s.records[i]))
  {
    var s := Step(cfg, p, y);
    var f := FateOf(cfg, p, y);
    ServiceIndexStep(cfg, p, y, t);
    assert forall i :: 0 <= i < |p.fates| ==> s.fates[i] == p.fates[i] && s.records[i] == p.records[i];
    assert s.fates[|p.fates|] == f && s.records[|p.fates|] == y;
  }

  /** The owners of a service type are those of its in-zone records ... */
  lemma {:induction false} ServiceOwnersOfRun(cfg: Config, rs: seq<Record>, t: QType, n: Name)
    requires t == SVCB || t == HTTPS
    ensures var s := Run(cfg, rs);
      n in ServiceIndex(s, t).owners
      <==> exists i :: 0 <= i < |rs| && IndexedService(cfg, s.fates[i], s.records[i], t)
                       && Canon(s.records[i].qname) == n
    decreases |rs|
  {
    if rs != [] {
      var q := rs[..|rs| - 1];
      ServiceOwnersOfRun(cfg, q, t, n);
      ServiceOwnersStep(cfg, Run(cfg, q), Normalise(rs[|rs| - 1]), t, n);
    }
  }

  lemma ServiceOwnersStep(cfg: Config, p: State, y: Record, t: QType, n: Name)
    requires t == SVCB || t == HTTPS
    requires |p.fates| == |p.records|
    requires n in ServiceIndex(p, t).owners
      <==> exists i :: 0 <= i < |p.fates| && IndexedService(cfg, p.fates[i], p.records[i], t)
                       && Canon(p.records[i].qname) == n
    ensures var s := Step(cfg, p, y);
      n in ServiceIndex(s, t).owners
      <==> exists i :: 0 <= i < |s.fates| && IndexedService(cfg, s.fates[i], s.records[i], t)
                       && Canon(s.records[i].qname) == n
  {
    var s := Step(cfg, p, y);
    var f := FateOf(cfg, p, y);
    ServiceIndexStep(cfg, p, y, t);
    assert forall i :: 0 <= i < |p.fates| ==> s.fates[i] == p.fates[i] && s.records[i] == p.records[i];
    assert s.fates[|p.fates|] == f && s.records[|p.fates|] == y;
  }

  /** ... and the alias owners those of its in-zone alias-form records. */
  lemma {:induction false} ServiceAliasesOfRun(cfg: Config, rs: seq<Record>, t: QType, n: Name)
    requires t == SVCB || t == HTTPS
    ensures var s := Run(cfg, rs);
      n in ServiceIndex(s, t).aliases
      <==> exists i :: 0 <= i < |rs| && IndexedService(cfg, s.fates[i], s.records[i], t)
                       && DataOf(cfg, s.records[i]).priority == 0 && Canon(s.records[i].qname) == n
    decreases |rs|
  {
    if rs != [] {
      var q := rs[..|rs| - 1];
      ServiceAliasesOfRun(cfg, q, t, n);
      ServiceAliasesStep(cfg, Run(cfg, q), Normalise(rs[|rs| - 1]), t, n);
    }
  }

  lemma ServiceAliasesStep(cfg: Config, p: State, y: Record, t: QType, n: Name)
    requires t == SVCB || t == HTTPS
    requires |p.fates| == |p.records|
    requires n in ServiceIndex(p, t).aliases
      <==> exists i :: 0 <= i < |p.fates| && IndexedService(cfg, p.fates[i], p.records[i], t)
                       && DataOf(cfg, p.records[i]).priority == 0 && Canon(p.records[i].qname) == n
    ensures var s := Step(cfg, p, y);
      n in ServiceIndex(s, t).aliases
      <==> exists i :: 0 <= i < |s.fates| && IndexedService(cfg, s.fates[i], s.records[i], t)
                       && DataOf(cfg, s.records[i]).priority == 0 && Canon(s.records[i].qname) == n
  {
    var s := Step(cfg, p, y);
    var f := FateOf(cfg, p, y);
    ServiceIndexStep(cfg, p, y, t);
    assert forall i :: 0 <= i < |p.fates| ==> s.fates[i] == p.fates[i] && s.records[i] == p.records[i];
    assert s.fates[|p.fates|] == f && s.records[|p.fates|] == y;
  }

  /** A record of the pass gets the second-alias warning exactly when it is
      an in-zone alias-form SVCB/HTTPS record and an earlier in-zone alias
      form of the same type sits at the same owner. */
  lemma DuplicateAliasOfRun(cfg: Config, rs: seq<Record>, j: nat)
    requires j < |rs|
    ensures var s := Run(cfg, rs); var r := s.records[j];
      CountKind(RecordFindings(cfg, Run(cfg, rs[..j]), rs[j], s.fates[j]), Warn(DuplicateAlias)) == 1
      <==> IndexedService(cfg, s.fates[j], r, r.qtype) && DataOf(cfg, r).priority == 0
           && exists i :: 0 <= i < j && IndexedService(cfg, s.fates[i], s.records[i], r.qtype)
                          && DataOf(cfg, s.records[i]).priority == 0 && SameName(s.records[i].qname, r.qname)
  {
    var s := Run(cfg, rs);
    var p := Run(cfg, rs[..j]);
    var r := Normalise(rs[j]);
    FateAt(cfg, rs, j);
    RunRecords(cfg, rs);
    RunPrefix(cfg, rs, j);
    DuplicateAliasNote(cfg, p, rs[j], s.fates[j]);
    if r.qtype == SVCB || r.qtype == HTTPS {
      ServiceAliasesOfRun(cfg, rs[..j], r.qtype, Canon(r.qname));
    }
    DuplicateAliasAt(cfg, p, s, j,
      CountKind(RecordFindings(cfg, p, rs[j], s.fates[j]), Warn(DuplicateAlias)),
      Canon(r.qname) in ServiceIndex(p, r.qtype).aliases);
  }

  /** The step of DuplicateAliasOfRun that does not depend on how the
      states were built: `c` is the record's warning count and `known`
      says whether its owner was already indexed as an alias form. */
  lemma DuplicateAliasAt(cfg: Config, p: State, s: State, j: nat, c: nat, known: bool)
    requires j < |s.fates| == |s.records|
    requires p.fates == s.fates[..j] && p.records == s.records[..j]
    requires var r := s.records[j];
      (r.qtype == SVCB || r.qtype == HTTPS) ==>
        (known <==> exists i :: 0 <= i < |p.fates| && IndexedService(cfg, p.fates[i], p.records[i], r.qtype)
                                && DataOf(cfg, p.records[i]).priority == 0 && Canon(p.records[i].qname) == Canon(r.qname))
    requires var r := s.records[j];
      c == if IndexedService(cfg, s.fates[j], r, r.qtype) && DataOf(cfg, r).priority == 0 && known then 1 else 0
    ensures var r := s.records[j];
      c == 1
      <==> IndexedService(cfg, s.fates[j], r, r.qtype) && DataOf(cfg, r).priority == 0
           && exists i :: 0 <= i < j && IndexedService(cfg, s.fates[i], s.records[i], r.qtype)
                          && DataOf(cfg, s.records[i]).priority == 0 && SameName(s.records[i].qname, r.qname)
  {
    assert |p.fates| == j;
    assert forall i :: 0 <= i < j ==> p.fates[i] == s.fates[i] && p.records[i] == s.records[i];
  }
}

/** What a run reports: findings tagged with a kind, whose severity decides
    whether they count as errors, warnings or mere information. */
module Findings {
  import opened Common
  import opened Names
  import opened Records

  datatype Severity = Error | Warning | Info

  /** What a finding reports, grouped by the severity the zone check
      prints it with. */
  datatype ErrorKind =
      // zone-level probes, before the records are read
    | UnknownZone | PrimariesFault | NoSoa | SoaLookupFailed
    | Nsec3ZoneTooLong | Nsec3RsaSha1Key | InvalidKeys | NoParentDelegation
      // per record, in the order the pass meets them
    | MalformedContent | OutOfZone | DuplicateRecord | TtlMismatch | SoaNotAtApex
    | DuplicateCname | UnsignedRrsig | SyntheticType
      // cross-record rules
    | CnameAndOther | SelfTarget | TargetMissing | NoApexNs | NeedsRectify | DuplicateMetadata

  datatype WarningKind =
    | SoaAtSign | ContentMismatch | InvalidIPv6
    | AliasHasParams | AlpnMissing | MandatoryMissing | DuplicateAlias
    | InsecureWildcard | DsAtApex | DnskeyNotAtApex | HostnameFault | DnskeyTtl | DnskeyIgnored
    | TlsaWildcardOnly | TlsaOrphan | AliasChain | NoV4Target | NoV6Target
    | MissingGlue | OccludedByDelegation | OccludedByDname | TargetIsCname | DsWithoutDelegation

  datatype InfoKind = SoaAutocomplete | WildcardHint | NotHostname

  datatype Kind = Err(error: ErrorKind) | Warn(warning: WarningKind) | Inform(info: InfoKind)

  function SeverityOf(k: Kind): Severity {
    match k
    case Err(_) => Error
    case Warn(_) => Warning
    case Inform(_) => Info
  }

  /** The finding's subject: a record (owner and type), a name, the zone,
      or a metadata entry. Message text is not modelled. */
  datatype Finding =
    | OnRecord(kind: Kind, owner: Name, qtype: QType)
    | OnName(kind: Kind, name: Name)
    | OnZone(kind: Kind)
    | OnMetadata(kind: Kind, key: string, value: string)

  function CountKind(fs: seq<Finding>, k: Kind): nat {
    if fs == [] then 0
    else CountKind(fs[..|fs| - 1], k) + (if fs[|fs| - 1].kind == k then 1 else 0)
  }

  function CountSeverity(fs: seq<Finding>, sev: Severity): nat {
    if fs == [] then 0
    else CountSeverity(fs[..|fs| - 1], sev) + (if SeverityOf(fs[|fs| - 1].kind) == sev then 1 else 0)
  }

  function Errors(fs: seq<Finding>): nat {
    CountSeverity(fs, Error)
  }

  function Warnings(fs: seq<Finding>): nat {
    CountSeverity(fs, Warning)
  }

  /** The single finding `f` when `b` holds, nothing otherwise. */
  function When(b: bool, f: Finding): seq<Finding> {
    if b then [f] else []
  }

  lemma WhenCounts(b: bool, f: Finding, k: Kind, sev: Severity)
    ensures CountKind(When(b, f), k) == if b && f.kind == k then 1 else 0
    ensures CountSeverity(When(b, f), sev) == if b && SeverityOf(f.kind) == sev then 1 else 0
  {
    if b {
      assert When(b, f)[..0] == [];
    }
  }

  lemma WhenPairCounts(b1: bool, g1: Finding, b2: bool, g2: Finding, k: Kind, sev: Severity)
    ensures CountKind(When(b1, g1) + When(b2, g2), k)
         == (if b1 && g1.kind == k then 1 else 0) + (if b2 && g2.kind == k then 1 else 0)
    ensures CountSeverity(When(b1, g1) + When(b2, g2), sev)
         == (if b1 && SeverityOf(g1.kind) == sev then 1 else 0) + (if b2 && SeverityOf(g2.kind) == sev then 1 else 0)
  {
    WhenCounts(b1, g1, k, sev);
    WhenCounts(b2, g2, k, sev);
    CountKindAppend(When(b1, g1), When(b2, g2), k);
    CountSeverityAppend(When(b1, g1), When(b2, g2), sev);
  }

  /** `n` copies of one finding. */
  function Repeat(f: Finding, n: nat): (fs: seq<Finding>)
    ensures |fs| == n
    ensures forall g :: g in fs ==> g == f
  {
    if n == 0 then [] else Repeat(f, n - 1) + [f]
  }

  lemma {:induction false} RepeatKinds(f: Finding, n: nat, k: Kind)
    ensures CountKind(Repeat(f, n), k) == if f.kind == k then n else 0
    decreases n
  {
    if n > 0 {
      RepeatKinds(f, n - 1, k);
      assert Repeat(f, n)[..n - 1] == Repeat(f, n - 1);
    }
  }

  lemma {:induction false} RepeatSeverities(f: Finding, n: nat, sev: Severity)
    ensures CountSeverity(Repeat(f, n), sev) == if SeverityOf(f.kind) == sev then n else 0
    decreases n
  {
    if n > 0 {
      RepeatSeverities(f, n - 1, sev);
      assert Repeat(f, n)[..n - 1] == Repeat(f, n - 1);
    }
  }

  /** Appending one finding counts it once. */
  lemma CountSnoc(fs: seq<Finding>, g: Finding, k: Kind, sev: Severity)
    ensures CountKind(fs + [g], k) == CountKind(fs, k) + (if g.kind == k then 1 else 0)
    ensures CountSeverity(fs + [g], sev) == CountSeverity(fs, sev) + (if SeverityOf(g.kind) == sev then 1 else 0)
  {
    assert (fs + [g])[..|fs|] == fs;
  }

  /** A kind that no finding has is counted zero times. */
  lemma {:induction false} CountKindAbsent(fs: seq<Finding>, k: Kind)
    requires forall g :: g in fs ==> g.kind != k
    ensures CountKind(fs, k) == 0
    decreases |fs|
  {
    if fs != [] {
      assert forall g :: g in fs[..|fs| - 1] ==> g in fs;
      CountKindAbsent(fs[..|fs| - 1], k);
    }
  }

  /** A concatenation is free of errors exactly when both parts are. */
  lemma NoErrorsAppend(a: seq<Finding>, b: seq<Finding>)
    ensures Errors(a + b) == 0 <==> Errors(a) == 0 && Errors(b) == 0
  {
    CountSeverityAppend(a, b, Error);
  }

  /** The findings of `f` for each element of `xs`, in order. */
  function EmitEach<T>(xs: seq<T>, f: T -> seq<Finding>): seq<Finding> {
    if xs == [] then [] else EmitEach(xs[..|xs| - 1], f) + f(xs[|xs| - 1])
  }

  lemma {:induction false} CountKindAppend(a: seq<Finding>, b: seq<Finding>, k: Kind)
    ensures CountKind(a + b, k) == CountKind(a, k) + CountKind(b, k)
    decreases |b|
  {
    if b != [] {
      assert (a + b)[..|a + b| - 1] == a + b[..|b| - 1];
      CountKindAppend(a, b[..|b| - 1], k);
    } else {
      assert a + b == a;
    }
  }

  lemma {:induction false} CountSeverityAppend(a: seq<Finding>, b: seq<Finding>, sev: Severity)
    ensures CountSeverity(a + b, sev) == CountSeverity(a, sev) + CountSeverity(b, sev)
    decreases |b|
  {
    if b != [] {
      assert (a + b)[..|a + b| - 1] == a + b[..|b| - 1];
      CountSeverityAppend(a, b[..|b| - 1], sev);
    } else {
      assert a + b == a;
    }
  }

  /** A severity is the sum of its kinds: no errors means no finding of an
      error kind. */
  lemma {:induction false} NoErrorsNoErrorKind(fs: seq<Finding>, k: Kind)
    requires SeverityOf(k) == Error && Errors(fs) == 0
    ensures CountKind(fs, k) == 0
    decreases |fs|
  {
    if fs != [] {
      NoErrorsNoErrorKind(fs[..|fs| - 1], k);
    }
  }

  lemma {:induction false} ErrorKindCountsAsError(fs: seq<Finding>, k: Kind)
    requires SeverityOf(k) == Error
    ensures CountKind(fs, k) <= Errors(fs)
    decreases |fs|
  {
    if fs != [] {
      ErrorKindCountsAsError(fs[..|fs| - 1], k);
    }
  }

  /** A list holds no error exactly when none of its findings is of an
      error kind. */
  lemma {:induction false} ErrorsZeroIff(fs: seq<Finding>)
    ensures Errors(fs) == 0 <==> forall g :: g in fs ==> SeverityOf(g.kind) != Error
    decreases |fs|
  {
    if fs != [] {
      var q := fs[..|fs| - 1];
      assert fs == q + [fs[|fs| - 1]];
      ErrorsZeroIff(q);
    }
  }

  lemma EmitEachSnoc<T>(xs: seq<T>, x: T, f: T -> seq<Finding>)
    ensures EmitEach(xs + [x], f) == EmitEach(xs, f) + f(x)
  {
    assert (xs + [x])[..|xs|] == xs;
  }

  /** When every element contributes one finding of kind `k` exactly when
      `p` holds of it, the pass reports one such finding per position. */
  lemma {:induction false} CountEmitEach<T>(xs: seq<T>, f: T -> seq<Finding>, k: Kind, p: T -> bool)
    requires forall x :: x in xs ==> CountKind(f(x), k) == (if p(x) then 1 else 0)
    ensures CountKind(EmitEach(xs, f), k) == |IndicesWhere(xs, p)|
    decreases |xs|
  {
    if xs != [] {
      var q := xs[..|xs| - 1];
      var x := xs[|xs| - 1];
      assert xs == q + [x];
      CountEmitEach(q, f, k, p);
      CountKindAppend(EmitEach(q, f), f(x), k);
      IndicesWhereSnoc(q, x, p);
      assert |q| !in IndicesWhere(q, p);
    }
  }

  /** A pass reports no error exactly when no element's check does. */
  lemma {:induction false} ErrorsEmitEach<T>(xs: seq<T>, f: T -> seq<Finding>)
    ensures Errors(EmitEach(xs, f)) == 0 <==> forall x :: x in xs ==> Errors(f(x)) == 0
    decreases |xs|
  {
    if xs != [] {
      var q := xs[..|xs| - 1];
      var x := xs[|xs| - 1];
      assert xs == q + [x];
      ErrorsEmitEach(q, f);
      CountSeverityAppend(EmitEach(q, f), f(x), Error);
    }
  }

  /** A pass reports no finding of kind `k` exactly when no element's check
      does. */
  lemma {:induction false} CountKindEmitEachZero<T>(xs: seq<T>, f: T -> seq<Finding>, k: Kind)
    ensures CountKind(EmitEach(xs, f), k) == 0 <==> forall x :: x in xs ==> CountKind(f(x), k) == 0
    decreases |xs|
  {
    if xs != [] {
      var q := xs[..|xs| - 1];
      var x := xs[|xs| - 1];
      assert xs == q + [x];
      CountKindEmitEachZero(q, f, k);
      CountKindAppend(EmitEach(q, f), f(x), k);
    }
  }

  lemma {:induction false} CountSeverityEmitEach<T>(xs: seq<T>, f: T -> seq<Finding>, sev: Severity, p: T -> bool)
    requires forall x :: x in xs ==> CountSeverity(f(x), sev) == (if p(x) then 1 else 0)
    ensures CountSeverity(EmitEach(xs, f), sev) == |IndicesWhere(xs, p)|
    decreases |xs|
  {
    if xs != [] {
      var q := xs[..|xs| - 1];
      var x := xs[|xs| - 1];
      assert xs == q + [x];
      CountSeverityEmitEach(q, f, sev, p);
      CountSeverityAppend(EmitEach(q, f), f(x), sev);
      IndicesWhereSnoc(q, x, p);
      assert |q| !in IndicesWhere(q, p);
    }
  }

  /** When only the element `key` can produce the finding `g`, the pass
      contains `g` as often as `key`'s own check does, or not at all. */
  lemma {:induction false} OccurrencesEmitEach<T>(xs: seq<T>, f: T -> seq<Finding>, g: Finding, key: T)
    requires Distinct(xs)
    requires forall x :: x in xs && x != key ==> g !in f(x)
    ensures multiset(EmitEach(xs, f))[g] == if key in xs then multiset(f(key))[g] else 0
    decreases |xs|
  {
    if xs != [] {
      var q := xs[..|xs| - 1];
      var x := xs[|xs| - 1];
      assert xs == q + [x];
      assert Distinct(q);
      assert x !in q by {
        assert forall i :: 0 <= i < |q| ==> q[i] == xs[i] != x;
      }
      OccurrencesEmitEach(q, f, g, key);
      assert multiset(EmitEach(xs, f)) == multiset(EmitEach(q, f)) + multiset(f(x));
    }
  }

  /** A pass reports no finding of severity `sev` exactly when no element's
      check does. */
  lemma {:induction false} SeverityEmitEachZero<T>(xs: seq<T>, f: T -> seq<Finding>, sev: Severity)
    ensures CountSeverity(EmitEach(xs, f), sev) == 0 <==> forall x :: x in xs ==> CountSeverity(f(x), sev) == 0
    decreases |xs|
  {
    if xs != [] {
      var q := xs[..|xs| - 1];
      var x := xs[|xs| - 1];
      assert xs == q + [x];
      SeverityEmitEachZero(q, f, sev);
      CountSeverityAppend(EmitEach(q, f), f(x), sev);
    }
  }
}

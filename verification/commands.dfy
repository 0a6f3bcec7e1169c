/** The decisions the zone-editing commands make before they touch the
    backend: which metadata kinds accept more values, how TSIG key names
    are enabled and disabled for a zone, the default key size, the zone
    kind filter of the listing, and how add-record reads its TTL and
    guards against mixing a CNAME with other data. */
module Commands {
  import opened Common
  import opened Names
  import opened Records
  import opened Decimal

  // ------------------------------------------------------------ add-meta

  /** The metadata kinds that may hold several values. */
  const MultiValueKinds: seq<string> := [
    "ALLOW-AXFR-FROM", "ALLOW-DNSUPDATE-FROM", "ALSO-NOTIFY", "TSIG-ALLOW-AXFR",
    "TSIG-ALLOW-DNSUPDATE", "GSS-ALLOW-AXFR-PRINCIPAL", "PUBLISH-CDS"]

  /** Values may be added to a listed kind or to any user kind, spelled
      with an "X-" prefix. */
  predicate MultiValued(kind: string) {
    kind in MultiValueKinds || (|kind| >= 2 && kind[..2] == "X-")
  }

  /** The values a kind holds after set-meta (`add` false) or add-meta
      (`add` true); None when add-meta refuses a single-value kind. */
  function MetaUpdate(add: bool, kind: string, existing: seq<string>, values: seq<string>): (r: Option<seq<string>>)
    ensures r.None? <==> add && !MultiValued(kind)
    ensures !add ==> r == Some(values)
  {
    if add && !MultiValued(kind) then None
    else if add then Some(existing + values)
    else Some(values)
  }

  /** add-meta keeps every value already stored, in order, and appends the
      new ones after them; a single-value kind is never given a second
      value this way. */
  lemma AddMetaAppends(kind: string, existing: seq<string>, values: seq<string>)
    ensures var r := MetaUpdate(true, kind, existing, values);
      r.Some? ==> |r.value| == |existing| + |values|
                  && r.value[..|existing|] == existing && r.value[|existing|..] == values
    ensures !MultiValued(kind) ==> MetaUpdate(true, kind, existing, values).None?
  {
    var r := MetaUpdate(true, kind, existing, values);
    if r.Some? {
      assert r.value == existing + values;
    }
  }

  /** A user kind always accepts more values, whatever follows its prefix. */
  lemma UserKindsMultiValued(suffix: string)
    ensures MultiValued("X-" + suffix)
  {
    assert ("X-" + suffix)[..2] == "X-";
  }

  /** Two add-meta calls in a row store what one call with both value lists
      stores. */
  lemma AddMetaTwice(kind: string, existing: seq<string>, v1: seq<string>, v2: seq<string>)
    ensures MetaUpdate(true, kind, existing, v1).Some? ==>
      MetaUpdate(true, kind, MetaUpdate(true, kind, existing, v1).value, v2) == MetaUpdate(true, kind, existing, v1 + v2)
  {
    if MetaUpdate(true, kind, existing, v1).Some? {
      assert existing + v1 + v2 == existing + (v1 + v2);
    }
  }

  /** Whether add-meta refuses depends on the kind alone, never on what is
      stored or what is added. */
  lemma AddMetaRefusalByKind(kind: string, e1: seq<string>, v1: seq<string>, e2: seq<string>, v2: seq<string>)
    ensures MetaUpdate(true, kind, e1, v1).None? <==> MetaUpdate(true, kind, e2, v2).None?
  {
  }

  /** set-meta forgets what was stored: after any earlier update, setting
      stores the same as setting a kind that held nothing. For a kind that
      accepts more values, adding to nothing is the same as setting. */
  lemma SetMetaForgets(kind: string, existing: seq<string>, values: seq<string>)
    ensures MetaUpdate(false, kind, existing, values) == MetaUpdate(false, kind, [], values)
    ensures MultiValued(kind) ==> MetaUpdate(true, kind, [], values) == MetaUpdate(false, kind, existing, values)
  {
    assert [] + values == values;
  }

  // ------------------------------------------------------------ TSIG keys

  /** The metadata kind that lists the TSIG keys for a zone in the given
      role: the keys allowed to transfer out of a primary or producer, or
      the key a secondary or consumer transfers in with. The role is
      compared exactly as typed. */
  function TsigMetaKind(role: string): (r: Option<string>)
    ensures r.Some? <==> role in ["primary", "master", "producer", "secondary", "consumer", "slave"]
    ensures r == Some("TSIG-ALLOW-AXFR") <==> role in ["primary", "master", "producer"]
    ensures r == Some("AXFR-MASTER-TSIG") <==> role in ["secondary", "consumer", "slave"]
  {
    if role == "primary" || role == "master" || role == "producer" then Some("TSIG-ALLOW-AXFR")
    else if role == "secondary" || role == "consumer" || role == "slave" then Some("AXFR-MASTER-TSIG")
    else None
  }

  /** activate-tsig-key: the name is appended unless it is already listed. */
  function ActivateTsig(meta: seq<string>, name: string): (r: seq<string>)
    ensures name in r
    ensures multiset(r) == multiset(meta) + (if name in meta then multiset{} else multiset{name})
    ensures meta <= r
  {
    if name in meta then meta else meta + [name]
  }

  /** deactivate-tsig-key: the first occurrence of the name is removed. */
  function RemoveFirst(meta: seq<string>, name: string): (r: seq<string>)
    ensures name !in meta ==> r == meta
    ensures name in meta ==> |r| == |meta| - 1
    ensures multiset(r) == multiset(meta) - multiset{name}
  {
    if meta == [] then []
    else
      assert meta == [meta[0]] + meta[1..];
      if meta[0] == name then meta[1..]
      else [meta[0]] + RemoveFirst(meta[1..], name)
  }

  /** Everything before the first occurrence stays in place, and everything
      after it moves up by one. */
  lemma {:induction false} RemoveFirstShape(meta: seq<string>, name: string, i: nat)
    requires i < |meta| && meta[i] == name && name !in meta[..i]
    ensures RemoveFirst(meta, name) == meta[..i] + meta[i + 1..]
    decreases i
  {
    if i > 0 {
      assert meta[0] != name by {
        assert meta[0] == meta[..i][0];
      }
      assert meta[1..][..i - 1] == meta[1..i];
      assert name !in meta[1..][..i - 1];
      RemoveFirstShape(meta[1..], name, i - 1);
      assert meta[..i] == [meta[0]] + meta[1..][..i - 1];
    }
  }

  /** Disabling a key that was just enabled restores the list it was
      enabled in, when the key was not listed before. */
  lemma DeactivateUndoesActivate(meta: seq<string>, name: string)
    requires name !in meta
    ensures RemoveFirst(ActivateTsig(meta, name), name) == meta
  {
    var r := meta + [name];
    assert r[..|meta|] == meta;
    RemoveFirstShape(r, name, |meta|);
  }

  /** Enabling a key twice is enabling it once. */
  lemma ActivateIdempotent(meta: seq<string>, name: string)
    ensures ActivateTsig(ActivateTsig(meta, name), name) == ActivateTsig(meta, name)
  {
  }

  // ------------------------------------------------------------ key generation

  /** DNSSEC algorithm numbers with a fixed key size. */
  const EccGost: int := 12
  const EcdsaP256: int := 13
  const EcdsaP384: int := 14
  const Ed25519: int := 15
  const Ed448: int := 16

  /** The key size used when none was requested: RSA-era algorithms (up to
      10) get 2048 bits for a key-signing key and 1024 for a zone-signing
      key; the elliptic-curve algorithms get their curve's size; any other
      algorithm, 11 included, is an error. */
  function DefaultKeyBits(algorithm: int, ksk: bool): (bits: Option<nat>)
    ensures algorithm <= 10 ==> bits == Some(if ksk then 2048 else 1024)
    ensures bits.None? <==> algorithm == 11 || algorithm > 16
    ensures bits.Some? && algorithm > 10 ==> bits.value in {256, 384, 456}
    ensures algorithm == EccGost || algorithm == EcdsaP256 || algorithm == Ed25519 ==> bits == Some(256)
    ensures algorithm == EcdsaP384 ==> bits == Some(384)
    ensures algorithm == Ed448 ==> bits == Some(456)
  {
    if algorithm <= 10 then Some(if ksk then 2048 else 1024)
    else if algorithm == EccGost || algorithm == EcdsaP256 || algorithm == Ed25519 then Some(256)
    else if algorithm == EcdsaP384 then Some(384)
    else if algorithm == Ed448 then Some(456)
    else None
  }

  /** The size a new key is created with: the requested size when one was
      given (non-zero, negative sizes included), the default otherwise.
      Size selection fails, with the "cannot guess key size" error, exactly
      when no size was requested and the algorithm has no default. */
  function KeyBits(requested: int, algorithm: int, ksk: bool): (bits: Option<int>)
    ensures bits.None? <==> requested == 0 && (algorithm == 11 || algorithm > 16)
    ensures bits.Some? && requested != 0 ==> bits.value == requested
    ensures requested == 0 && algorithm <= 10 ==> bits == Some(if ksk then 2048 else 1024)
    ensures requested != 0 ==> bits == Some(requested)
    ensures requested == 0 ==> bits == DefaultKeyBits(algorithm, ksk)
  {
    if requested != 0 then Some(requested) else DefaultKeyBits(algorithm, ksk)
  }

  /** Only the RSA-era defaults depend on the key's role: a key-signing key
      is twice as large as a zone-signing key; elliptic-curve sizes are the
      same for both. */
  lemma DefaultKeyBitsRole(algorithm: int)
    ensures algorithm <= 10 ==> DefaultKeyBits(algorithm, true).value == 2 * DefaultKeyBits(algorithm, false).value
    ensures algorithm > 10 ==> DefaultKeyBits(algorithm, true) == DefaultKeyBits(algorithm, false)
  {
  }

  // ------------------------------------------------------------ list-all-zones

  /** The kinds of zone, with the numbering the zone information uses. */
  datatype ZoneKind = Primary | Secondary | Native | Producer | Consumer

  function KindCode(k: ZoneKind): (c: int)
    ensures 0 <= c <= 4
  {
    match k
    case Primary => 0
    case Secondary => 1
    case Native => 2
    case Producer => 3
    case Consumer => 4
  }

  function UpperChar(c: char): char {
    if 'a' <= c <= 'z' then (c as int - 32) as char else c
  }

  /** ASCII-only upper-casing. */
  function Upper(s: string): (u: string)
    ensures |u| == |s|
  {
    seq(|s|, i requires 0 <= i < |s| => UpperChar(s[i]))
  }

  /** Every spelling the kind filter accepts, upper-cased. */
  const KindSpellings: seq<string> := ["PRIMARY", "MASTER", "SECONDARY", "SLAVE", "NATIVE", "PRODUCER", "CONSUMER"]

  /** The kind filter of the listing: -1 (everything) for no argument, the
      kind's number for a kind name in any letter case (the old names
      "master" and "slave" included), and None, a usage error, otherwise. */
  function KindFilter(arg: string): (r: Option<int>)
    ensures arg == [] <==> r == Some(-1)
    ensures r.Some? ==> -1 <= r.value <= 4
    ensures r.None? <==> arg != [] && Upper(arg) !in KindSpellings
  {
    if arg == [] then Some(-1)
    else
      var u := Upper(arg);
      if u == "PRIMARY" || u == "MASTER" then Some(0)
      else if u == "SECONDARY" || u == "SLAVE" then Some(1)
      else if u == "NATIVE" then Some(2)
      else if u == "PRODUCER" then Some(3)
      else if u == "CONSUMER" then Some(4)
      else None
  }

  /** The name of each kind as the listing's usage message spells it. */
  function KindName(k: ZoneKind): string {
    match k
    case Primary => "primary"
    case Secondary => "secondary"
    case Native => "native"
    case Producer => "producer"
    case Consumer => "consumer"
  }

  /** Each kind's own name selects exactly that kind. */
  lemma KindFilterNames(k: ZoneKind)
    ensures KindFilter(KindName(k)) == Some(KindCode(k))
  {
    match k
    case Primary => assert Upper("primary") == "PRIMARY";
    case Secondary => assert Upper("secondary") == "SECONDARY";
    case Native => assert Upper("native") == "NATIVE";
    case Producer => assert Upper("producer") == "PRODUCER";
    case Consumer => assert Upper("consumer") == "CONSUMER";
  }

  /** The old names select the same kinds as the new ones, in any letter
      case. */
  lemma KindFilterLegacyNames(arg: string)
    ensures Upper(arg) == "MASTER" ==> KindFilter(arg) == KindFilter("primary") == Some(0)
    ensures Upper(arg) == "SLAVE" ==> KindFilter(arg) == KindFilter("secondary") == Some(1)
  {
    KindFilterNames(Primary);
    KindFilterNames(Secondary);
  }

  /** The filter ignores letter case. */
  lemma KindFilterIgnoresCase(arg: string)
    ensures KindFilter(Upper(arg)) == KindFilter(arg)
  {
    assert Upper(Upper(arg)) == Upper(arg);
  }

  /** A zone of kind `k` passes the filter: any kind for -1, otherwise the
      kind with that number. */
  predicate Selected(filter: int, k: ZoneKind) {
    filter == -1 || KindCode(k) == filter
  }

  /** The zones the listing prints, in the backend's order. */
  function Listed(filter: int, zones: seq<(Name, ZoneKind)>): (r: seq<Name>)
    ensures |r| <= |zones|
    ensures filter == -1 ==> |r| == |zones|
  {
    if zones == [] then []
    else
      var rest := Listed(filter, zones[..|zones| - 1]);
      var z := zones[|zones| - 1];
      if Selected(filter, z.1) then rest + [z.0] else rest
  }

  /** A name is listed exactly when some zone of that name passes the
      filter. */
  lemma {:induction false} ListedMembers(filter: int, zones: seq<(Name, ZoneKind)>, n: Name)
    ensures n in Listed(filter, zones) <==> exists z :: z in zones && z.0 == n && Selected(filter, z.1)
    decreases |zones|
  {
    if zones != [] {
      var q := zones[..|zones| - 1];
      var last := zones[|zones| - 1];
      assert zones == q + [last];
      ListedMembers(filter, q, n);
      if n in Listed(filter, zones) && n !in Listed(filter, q) {
        assert last in zones && last.0 == n && Selected(filter, last.1);
      }
      if exists z :: z in zones && z.0 == n && Selected(filter, z.1) {
        var z :| z in zones && z.0 == n && Selected(filter, z.1);
        if z !in q {
          assert z == last;
        }
      }
    }
  }

  /** The listing keeps the backend's order: listing two runs of zones one
      after the other lists each run in turn. */
  lemma {:induction false} ListedAppend(filter: int, a: seq<(Name, ZoneKind)>, b: seq<(Name, ZoneKind)>)
    ensures Listed(filter, a + b) == Listed(filter, a) + Listed(filter, b)
    decreases |b|
  {
    if b == [] {
      assert a + b == a;
    } else {
      var c := b[..|b| - 1];
      ListedAppend(filter, a, c);
      assert (a + b)[..|a + b| - 1] == a + c;
      assert (a + b)[|a + b| - 1] == b[|b| - 1];
    }
  }

  /** A single zone is listed exactly when it passes the filter. */
  lemma ListedSingle(filter: int, z: (Name, ZoneKind))
    ensures Listed(filter, [z]) == if Selected(filter, z.1) then [z.0] else []
  {
    assert [z][..0] == [];
  }

  /** How many zones have the given kind number. */
  function KindCount(filter: int, zones: seq<(Name, ZoneKind)>): nat {
    if zones == [] then 0
    else KindCount(filter, zones[..|zones| - 1]) + (if KindCode(zones[|zones| - 1].1) == filter then 1 else 0)
  }

  /** A kind filter lists as many zones as have that kind. */
  lemma {:induction false} ListedCount(filter: int, zones: seq<(Name, ZoneKind)>)
    requires filter != -1
    ensures |Listed(filter, zones)| == KindCount(filter, zones)
    decreases |zones|
  {
    if zones != [] {
      ListedCount(filter, zones[..|zones| - 1]);
    }
  }

  /** The five kind filters together print every zone once. */
  lemma {:induction false} KindFiltersPartition(zones: seq<(Name, ZoneKind)>)
    ensures |Listed(0, zones)| + |Listed(1, zones)| + |Listed(2, zones)| + |Listed(3, zones)| + |Listed(4, zones)|
         == |Listed(-1, zones)|
    decreases |zones|
  {
    if zones != [] {
      KindFiltersPartition(zones[..|zones| - 1]);
    }
  }

  // ------------------------------------------------------------ add-record

  /** How add-record and replace-record read their arguments after the
      type: with more than five arguments, the fifth is the TTL when it
      reads back unchanged through `atoi` and `std::to_string`, and the
      content starts after it; otherwise the default TTL is used and the
      content starts at the fifth argument. */
  function RecordTtl(args: seq<string>, defaultTtl: Uint32): (r: (Uint32, nat))
    ensures r.1 == 4 || r.1 == 5
    ensures r.1 == 5 ==> |args| > 5
  {
    if |args| > 5 && ToDecimal(AtoiUnsigned(args[4])) == args[4] then (AtoiUnsigned(args[4]), 5)
    else (defaultTtl, 4)
  }

  /** The fifth argument is taken as the TTL exactly when it is a plain
      decimal number (no sign, blank or leading zero) below 2^32, and then
      it is that number; anything else leaves the default TTL and counts as
      content. */
  lemma RecordTtlMeaning(args: seq<string>, defaultTtl: Uint32)
    ensures var r := RecordTtl(args, defaultTtl);
      && (r.1 == 5 <==> |args| > 5 && Canonical(args[4]) && DigitsValue(args[4]) < 0x1_0000_0000)
      && (r.1 == 5 ==> r.0 == DigitsValue(args[4]))
      && (r.1 == 4 ==> r.0 == defaultTtl)
  {
    if |args| > 5 {
      AtoiRoundTrip(args[4]);
      if ToDecimal(AtoiUnsigned(args[4])) == args[4] {
        DigitsOfDecimal(AtoiUnsigned(args[4]));
      }
    }
  }

  /** Whether add-record (`add`) or replace-record refuses to write records
      of type `t` at a name that already holds records of the types
      `existing`: a CNAME may only be added to an empty name, or replace a
      name holding nothing but CNAMEs; any other type is refused next to a
      CNAME. */
  function CnameGuardRefuses(add: bool, t: QType, existing: seq<QType>): (refused: bool)
    ensures t == CNAME && add ==> (refused <==> existing != [])
    ensures t == CNAME && !add ==> (refused <==> exists u :: u in existing && u != CNAME)
    ensures t != CNAME ==> (refused <==> CNAME in existing)
  {
    if t == CNAME then
      assert existing != [] ==> existing[0] in existing;
      exists u :: u in existing && (add || u != CNAME)
    else CNAME in existing
  }

  /** A name either holds no CNAME or holds nothing else. */
  predicate CnameExclusive(types: seq<QType>) {
    CNAME in types ==> forall u :: u in types ==> u == CNAME
  }

  /** Whatever the name held before, a write the guard lets through leaves
      it holding either no CNAME or only CNAMEs: the types there afterwards
      are the old ones (all of them when adding, all but `t` when
      replacing) and `t`. */
  lemma CnameGuardKeepsExclusive(add: bool, t: QType, existing: seq<QType>)
    requires !CnameGuardRefuses(add, t, existing)
    ensures CnameExclusive(existing + [t])
    ensures CnameExclusive(Without(existing, t) + [t])
  {
    if t == CNAME && add {
      assert existing == [];
    }
    WithoutIn(existing, t);
  }

  /** The types other than `t`, in order. */
  function Without(types: seq<QType>, t: QType): seq<QType> {
    if types == [] then []
    else (if types[0] == t then [] else [types[0]]) + Without(types[1..], t)
  }

  lemma {:induction false} WithoutIn(types: seq<QType>, t: QType)
    ensures forall u :: u in Without(types, t) <==> u in types && u != t
    decreases |types|
  {
    if types != [] {
      WithoutIn(types[1..], t);
      assert types == [types[0]] + types[1..];
      var head := if types[0] == t then [] else [types[0]];
      assert Without(types, t) == head + Without(types[1..], t);
      forall u
        ensures u in Without(types, t) <==> u in types && u != t
      {
        assert u in types <==> u == types[0] || u in types[1..];
      }
    }
  }
}

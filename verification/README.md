# pdnsutil check-zone, modelled in Dafny

This project models the consistency check that `pdnsutil check-zone` and
`pdnsutil check-all-zones` run over an authoritative PowerDNS zone, together
with the small decisions several zone-editing commands make before they
write to the backend.

The check of one zone (`checkZone`) has four stages, and the model keeps them
apart:

1. **Zone probes.** The zone's information, its SOA, the NSEC3 settings, the
   stored keys and the delegation in the parent zone are looked up. Each
   lookup appears only as its outcome (`ZoneCheck.Probes`), and each outcome
   becomes zero or more zone-level errors. An unknown zone, a missing SOA, or
   an SOA lookup that fails without a backend stops the check before any
   record is read.
2. **Normalisation.** Each record's working copy is normalised (module
   `Normaliser`). SOA content with fewer than seven fields is padded with
   `" 0"` fields. Non-empty TXT content that does not start with a quote is
   quoted.
3. **The pass.** A single left fold over the records (module `Accumulator`)
   records, for each record, whether it was kept or which of eight exits
   dropped it. The exits, in pass order:
   - content that does not parse;
   - an owner outside the zone;
   - a duplicate record;
   - a TTL that differs from its rrset's;
   - an SOA below the apex;
   - a second CNAME at one owner;
   - an RRSIG in a zone that is not presigned;
   - NSEC or NSEC3.

   The fold also builds the indices the later rules read. Each index is
   extended only for records that got past the exits before the update.
   `FateOf` is the exit decision on its own. `Passed` and `Reached` say how
   far a record got.
4. **Cross-record rules.** These run over the indices (module `Rules`):
   - CNAME and other data at one name;
   - TLSA records protecting a name with no data;
   - SVCB/HTTPS targets;
   - NS at the apex;
   - missing glue;
   - occlusion by delegations and DNAMEs;
   - MX/NS/SRV targets that are CNAMEs;
   - the authoritative flag;
   - duplicate metadata values.

   Then comes the verdict. The exit code is a failure exactly when an error
   was counted. Warnings never fail the check.

Findings are values (`Findings.Finding`): a kind, grouped by severity, plus
the name, type or metadata entry it concerns. Counts are derived from the
list.

DNS names are sequences of labels. Names are compared without regard to
ASCII case. Every name kept in an index is lower-cased (`Names.Canon`), so
set membership is case-insensitive as it is for `DNSName`.

Some sets in the source are iterated to emit messages: the CNAME owners, the
TLSA owners, the glue targets, the occluders and the SVCB/HTTPS target tuples.
They are modelled as duplicate-free sequences. The other sets are Dafny
`set`s.

What the record content means comes from an oracle in `Records.Config`:
`decode` parses content for a type, `isHostname` and `hostnameFault` give
the hostname tests. A type's parser yields content of that type's class
only, so `Records.Decode` treats an answer of another shape as content that
does not parse. The model needs only what the parsed content yields:
- the NS/MX/SRV target;
- the SVCB/HTTPS priority, target, parameters and automatic hints;
- the type an RRSIG covers;
- whether the content renders back to itself.

Outside `checkZone`, the model covers:
- `checkAllZones`, which adds an error for a zone name or zone id seen before
  (`AllZones`);
- the add-meta whitelist, TSIG key activation and deactivation, the default
  key size, the zone-kind filter of `list-all-zones`, and add-record's TTL
  detection and CNAME guard (`Commands`);
- the `atoi`/`std::to_string` round trip that TTL detection relies on
  (`Decimal`).

Where the code and its documented behaviour differ, the model follows the
code:
- **Authoritative flag.** A zone whose backend does not do DNSSEC does not
  simply pass the authoritative-flag rule. Its verdict is settled from the
  start to the record's own flag, so a non-authoritative record is still
  reported, unless the records were supplied by an editing session.
- **Out-of-zone records.** An out-of-zone record gets one error and is dropped
  from the pass. It is still entered in the TLSA and address indices, which
  are filled before any exit. The occlusion and authoritative-flag rules still
  judge it, because they walk the whole record list.
- **Glue target.** The glue check reads the NS content as a name, the NS
  target, and compares it against the NS owner. Only targets at or below the NS owner are checked for glue.
- **Second CNAME.** It leaves at its own exit. It never reaches the
  CNAME-and-other-data rule.

## Model

All source paths below are in `pdns/pdnsutil.cc`.

| member | source | states |
|---|---|---|
| ZoneCheck.Check | pdns/pdnsutil.cc:253-859 | A check that reaches the records reports all of them as checked. One stopped by an unknown zone, a missing SOA, or an SOA lookup failing without a backend checks none and fails. |
| ZoneCheck.CheckFailsOnError | pdns/pdnsutil.cc:855-858 | The exit code is success exactly when no error was reported, whichever way the check ended. Warnings and information never change it. |
| ZoneCheck.CheckSucceeds | pdns/pdnsutil.cc:253-859 | The check succeeds iff all of these hold: the probes let it reach the records, every probe is clean, the pass keeps every record, and every cross-record rule that can report an error holds. |
| ZoneCheck.AbortErrors | pdns/pdnsutil.cc:259-292 | A check that stops before the records has reported at least one error. |
| ZoneCheck.ZoneClean | pdns/pdnsutil.cc:263-348 | The zone-level probes report no error iff all of these hold: reading the primaries did not fail; the SOA lookup did not fail; the zone is not both NSEC3-secured and longer than 222 wire octets; no algorithm-5 key is stored under NSEC3; the keys are valid; and the parent zone, if served, delegates the zone. |
| ZoneCheck.PassClean | pdns/pdnsutil.cc:434-608 | The pass over the records reports no error exactly when it keeps every record. |
| ZoneCheck.RulesClean | pdns/pdnsutil.cc:628-853 | The cross-record rules report no error iff five things hold: no CNAME owner has other data; no SVCB/HTTPS tuple targets its own owner or has a dangling alias; the apex has an NS; every record's authoritative flag is acceptable (unless supplied); and no metadata key lists a value twice. |
| ZoneCheck.CnameClean | pdns/pdnsutil.cc:628-633 | The CNAME rule reports no error iff no CNAME owner is also an owner of other data. |
| ZoneCheck.AuthClean | pdns/pdnsutil.cc:800-834 | The authoritative-flag rule reports no error iff the records were supplied, or every record's flag is acceptable. |
| Normaliser.PadSoaFields | pdns/pdnsutil.cc:386-407 | SOA content with fewer than seven whitespace fields is padded to exactly seven: the original fields followed by "0" fields. The original text is a prefix of the result. Content with seven or more fields is unchanged. |
| Normaliser.QuoteTxtShape | pdns/pdnsutil.cc:409-410 | Quoted TXT content is empty or starts with a quote. Unquoted non-empty content appears unchanged between the two quotes added. Content that is empty or already quoted is unchanged. |
| Normaliser.NormaliseIdempotent | pdns/pdnsutil.cc:386-410 | Normalising a working copy again changes nothing. |
| Normaliser.NormaliseKeepsIdentity | pdns/pdnsutil.cc:374-410 | Normalisation changes only the content, and only of SOA and TXT records. |
| Normaliser.NormaliserFindingsNoErrors | pdns/pdnsutil.cc:390-399 | The normaliser never reports an error. It issues the @-sign warning exactly when SOA content has a second field containing '@'. |
| Accumulator.ServiceNotesCounts | pdns/pdnsutil.cc:452-477 | An SVCB/HTTPS record gets three kinds of self-consistency warning. A service form gets one per key its `mandatory` parameter lists but it lacks, and one if it has no-default-alpn without alpn. An alias form gets one if it has parameters. |
| FoldFacts.FatePassed | pdns/pdnsutil.cc:434-608 | A record passes each exit exactly when it passed the previous one and that exit's condition does not hold. The conditions, in pass order: content fails to parse; owner out of zone; duplicate key; TTL differs from the rrset's stored TTL; SOA below the apex; CNAME at an owner already holding one; RRSIG in a zone that is not presigned; NSEC or NSEC3. |
| FoldFacts.RecordErrors | pdns/pdnsutil.cc:386-626 | Every record-local error is an exit. A kept record adds no error, and an excluded record adds exactly one. |
| FoldFacts.DataShape | pdns/pdnsutil.cc:413-440 | Content that parses has its type's shape: NS, MX and SRV content names a target, SVCB and HTTPS content is a service binding, and RRSIG content names the covered type. |
| FoldFacts.DuplicateAliasNote | pdns/pdnsutil.cc:479-502 | A record gets the second-alias warning iff it is an in-zone alias-form SVCB/HTTPS record and an alias form of its type is already indexed at its owner. |
| FoldFacts.DuplicateAliasOfRun | pdns/pdnsutil.cc:479-502 | In the pass, a record gets the second-alias warning iff it is an in-zone alias-form SVCB/HTTPS record and an earlier in-zone alias form of the same type has the same owner, ignoring case. |
| FoldFacts.RunErrors | pdns/pdnsutil.cc:434-608 | The errors the pass reports are exactly as many as the records it excludes. |
| FoldFacts.RunRecords | pdns/pdnsutil.cc:374-410 | The pass judges the normalised working copy of each record, in input order. |
| FoldFacts.RunPrefix | pdns/pdnsutil.cc:374-626 | Records later in the list never change the fate of earlier ones. |
| FoldFacts.FateAt | pdns/pdnsutil.cc:374-626 | Each record's fate is decided by the indices that the records before it built. |
| FoldFacts.ContentsOfRun | pdns/pdnsutil.cc:505-516 | The duplicate index holds exactly the keys of the records that got past the duplicate exit. The key is owner, type and content, lower-cased except for TXT. |
| FoldFacts.TtlKeysOfRun | pdns/pdnsutil.cc:518-529 | The TTL index has a key exactly for the rrsets with a record that got past the TTL exit. For an RRSIG, the rrset is owner, type and covered type. |
| FoldFacts.TtlValuesOfRun | pdns/pdnsutil.cc:524-529 | Every record past the TTL exit carries the TTL stored for its rrset. |
| FoldFacts.ApexNsOfRun | pdns/pdnsutil.cc:537-540 | The apex-NS flag is set exactly when an apex NS got past the TTL exit. |
| FoldFacts.CnamesOfRun | pdns/pdnsutil.cc:580-587 | The CNAME index holds exactly the owners of CNAMEs past the second-CNAME exit. |
| FoldFacts.NoncnamesOfRun | pdns/pdnsutil.cc:588-597 | The other-data index holds exactly the owners of non-CNAME, non-RRSIG records past the non-apex SOA exit. |
| FoldFacts.CheckGlueOfRun | pdns/pdnsutil.cc:554-557 | The names needing glue are exactly the lower-cased targets of non-apex NS records whose target lies at or below the NS owner. |
| FoldFacts.GlueOfRun | pdns/pdnsutil.cc:559-560 | The glue index holds exactly the owners of non-apex A/AAAA records past the non-apex SOA exit. |
| FoldFacts.OccludersOfRun | pdns/pdnsutil.cc:554-567 | The occluders are exactly the (owner, type) pairs of non-apex NS records and of DNAMEs, both past the non-apex SOA exit. |
| FoldFacts.CnameChecksOfRun | pdns/pdnsutil.cc:599-601 | The records queued for the CNAME-target rule are exactly the MX, NS and SRV records past the RRSIG exit. |
| FoldFacts.TlsasOfRun | pdns/pdnsutil.cc:375-376 | The TLSA index holds the owner of every TLSA record, excluded or not. |
| FoldFacts.AddressesOfRun | pdns/pdnsutil.cc:377-379 | The address index holds the owner of every A/AAAA record, excluded or not. |
| FoldFacts.ARecordsOfRun | pdns/pdnsutil.cc:380-382 | The A index holds the owner of every A record, excluded or not. |
| FoldFacts.AaaaRecordsOfRun | pdns/pdnsutil.cc:383-385 | The AAAA index holds the owner of every AAAA record, excluded or not. |
| FoldFacts.ServiceTargetsOfRun | pdns/pdnsutil.cc:479-502 | A service type's target tuples (owner, priority, target, automatic v4/v6 hints) are exactly those of its records past the out-of-zone exit. Later exits do not remove them. |
| FoldFacts.ServiceOwnersOfRun | pdns/pdnsutil.cc:479-502 | A service type's owner index holds exactly the owners of its records past the out-of-zone exit. |
| FoldFacts.ServiceAliasesOfRun | pdns/pdnsutil.cc:481-498 | A service type's alias index holds exactly the owners of its priority-0 records past the out-of-zone exit. |
| FoldFacts.IndicesDistinct | pdns/pdnsutil.cc:352-358 | The indices standing in for ordered sets never hold an entry twice. |
| Exits.DuplicateExit | pdns/pdnsutil.cc:505-516 | A record that reaches the duplicate exit leaves there iff an earlier record with the same key got past it. |
| Exits.TtlExit | pdns/pdnsutil.cc:518-529 | A record that reaches the TTL exit leaves there iff an earlier record of the same rrset got past it with a different TTL. |
| Exits.SecondCnameExit | pdns/pdnsutil.cc:580-587 | A CNAME that reaches the second-CNAME exit leaves there iff an earlier CNAME at the same owner (ignoring case) got past it. |
| Exits.DuplicateSkipsRest | pdns/pdnsutil.cc:511-514 | A record leaving at the duplicate exit adds exactly one error, the duplicate error, and it comes last. It adds no placement or DNSKEY note and extends no later index. |
| Exits.TtlMismatchSkipsRest | pdns/pdnsutil.cc:525-528 | A record leaving at the TTL exit adds exactly one error, the mismatch error, and it comes last. It adds no later note and extends no later index. |
| Rules.CnameConflictsCount | pdns/pdnsutil.cc:628-633 | The CNAME rule reports one error per distinct name that owns both a CNAME and other data. Every error it reports is of that kind. |
| Rules.CnameConflictOnce | pdns/pdnsutil.cc:628-633 | Each name's conflict error appears once when the name owns a CNAME and other data, and otherwise not at all. |
| Rules.TlsaBaseAncestor | pdns/pdnsutil.cc:636-637 | The protected name is the TLSA owner's ancestor two labels up: the owner lies at or below it, two labels deeper. An owner of fewer than two labels is its own protected name, because the unsigned label count wraps. |
| Rules.WildcardIsSibling | pdns/pdnsutil.cc:642-644 | The covering wildcard is a sibling of the name: a wildcard of the same depth under the same parent. |
| Rules.TlsaCheckCounts | pdns/pdnsutil.cc:635-653 | A TLSA owner draws one warning iff its protected name holds no data. The warning is the wildcard form iff the covering wildcard holds data. |
| Rules.TlsaWarnings | pdns/pdnsutil.cc:635-653 | The TLSA rule warns once per distinct TLSA owner whose protected name has no data. |
| Rules.TlsaNoErrors | pdns/pdnsutil.cc:635-653 | The TLSA rule never reports an error. |
| Rules.TargetCheckKinds | pdns/pdnsutil.cc:655-729 | Per target tuple: one error if the tuple targets its own owner; one warning for an in-zone alias target that is itself an alias; one error for an in-zone alias target with neither an address nor a same-type record; one warning per automatic hint family with no A/AAAA record at the hint name. |
| Rules.TargetCheckErrors | pdns/pdnsutil.cc:655-729 | Per target tuple, the errors are exactly the self-target and the dangling alias. |
| Rules.TargetFindingsNoErrors | pdns/pdnsutil.cc:655-729 | The SVCB (HTTPS) rule reports no error iff no tuple targets its owner and no alias tuple dangles. |
| Rules.ApexNsFindings | pdns/pdnsutil.cc:731-734 | One error exactly when no NS got past the exits at the apex. |
| Rules.GlueWarnings | pdns/pdnsutil.cc:736-741 | The glue rule warns once per distinct name needing glue that has no glue record, and reports nothing else. |
| Rules.MissingGlueOnce | pdns/pdnsutil.cc:736-741 | A name's missing-glue warning appears once when the name needs glue and has none, and otherwise not at all. |
| Rules.DnameOccludes | pdns/pdnsutil.cc:743-775 | A DNAME hides exactly the records strictly below its owner. |
| Rules.DelegationOccludes | pdns/pdnsutil.cc:743-775 | A delegation hides the records at or below its owner, except three: A/AAAA glue, empty non-terminals, and the NS and DS records at the cut itself. |
| Rules.OccluderWarnings | pdns/pdnsutil.cc:743-775 | An occluder draws one warning per record it hides, over every record of the zone. |
| Rules.OcclusionSilent | pdns/pdnsutil.cc:743-775 | The occlusion rule is silent iff no occluder hides any record. It never reports an error. |
| Rules.CnameTargetCount | pdns/pdnsutil.cc:777-798 | The rule warns once per queued MX/NS/SRV record whose in-zone target owns a CNAME. It never reports an error. |
| Rules.AuthScanMeaning | pdns/pdnsutil.cc:801-825 | Independently of scan order: a delegation at the record's name is always noted; a verdict settled at the start keeps its value; otherwise the verdict is settled iff some delegation settles it, and then it flips the record's flag. |
| Rules.AuthOrderIndependent | pdns/pdnsutil.cc:805-825 | The scan's outcome depends only on the set of occluders, not on their order. |
| Rules.AuthCheckErrors | pdns/pdnsutil.cc:830-833 | A record draws one error iff its flag is unacceptable and the records were not supplied. |
| Rules.AuthCheckDs | pdns/pdnsutil.cc:826-829 | A non-apex DS draws one warning iff no delegation sits at its name. |
| Rules.AuthFindingsErrors | pdns/pdnsutil.cc:800-834 | One error per record with an unacceptable flag, and none when the records were supplied. |
| Rules.ScanValuesSets | pdns/pdnsutil.cc:839-851 | The scan of one key remembers every value, and reports exactly the values met at least twice. |
| Rules.MetadataCheckErrors | pdns/pdnsutil.cc:838-852 | One error per metadata key and value that occurs twice or more under that key. |
| Rules.MetadataNoErrors | pdns/pdnsutil.cc:836-853 | The metadata rule is silent iff no key lists a value twice. |
| CrossFacts.CnameConflictOfRun | pdns/pdnsutil.cc:580-633 | An owner draws exactly one CNAME-and-other-data error iff a CNAME got past the second-CNAME exit there and some other non-RRSIG record got past the non-apex SOA exit. |
| CrossFacts.TlsaOfRun | pdns/pdnsutil.cc:635-653 | A TLSA owner is silent iff some surviving CNAME or other data sits at its protected name. |
| CrossFacts.MissingGlueOfRun | pdns/pdnsutil.cc:736-741 | A name draws one missing-glue warning iff both hold: a surviving non-apex NS has it as a target at or below the NS owner, and no surviving non-apex A/AAAA record is at that name. |
| CrossFacts.OcclusionOfRun | pdns/pdnsutil.cc:743-775 | The occlusion rule is silent iff no delegation or DNAME record hides any record of the zone, excluded records included. |
| CrossFacts.OcclusionCountOfRun | pdns/pdnsutil.cc:743-775 | The occlusion warnings number the distinct (occluder, hidden record) pairs. Several NS records at one owner occlude only once. |
| CrossFacts.CnameTargetOfRun | pdns/pdnsutil.cc:794-797 | A queued record points at a CNAME iff both hold: its target lies inside the zone, and a surviving CNAME sits there. |
| CrossFacts.SettlesOfRun | pdns/pdnsutil.cc:805-825 | The occluders that settle a record's flag are exactly the delegation records that do. |
| CrossFacts.AuthOfRun | pdns/pdnsutil.cc:800-834 | A record's flag is acceptable as follows. When the records were supplied or the backend has no DNSSEC, the flag alone decides. Otherwise an authoritative record is acceptable unless a delegation covers it, and a non-authoritative one only if one does. |
| AllZones.EntryErrors | pdns/pdnsutil.cc:878-892 | A zone adds at most three errors, and none iff all hold: its check succeeded, and no earlier zone had its name (ignoring case) or its id. |
| AllZones.ErrorsAfterZero | pdns/pdnsutil.cc:876-902 | No error is counted over the first n zones iff all of them passed their checks and no two share a name or an id. |
| AllZones.VisitZone | pdns/pdnsutil.cc:878-894 | Given the names and ids of the zones visited before, a zone's visit adds exactly that zone's errors over the earlier zones. It leaves the seen sets covering this zone too. |
| AllZones.CheckAllZones | pdns/pdnsutil.cc:861-903 | The counter equals the errors of the zones visited. The exit code is a failure iff some error was counted. Without exit-on-error every zone is visited. With it, the walk stops right after the first zone that brings the counter above zero. |
| Commands.AddMetaTwice | pdns/pdnsutil.cc:2486-2490 | Two add-meta calls in a row store what one add-meta with both value lists stores. |
| Commands.AddMetaRefusalByKind | pdns/pdnsutil.cc:3916-3925 | Whether add-meta refuses depends on the kind alone, never on the stored or the new values. |
| Commands.SetMetaForgets | pdns/pdnsutil.cc:2486-2490 | set-meta's result does not depend on what was stored. For a kind that accepts more values, add-meta on an empty kind equals set-meta. |
| Commands.UserKindsMultiValued | pdns/pdnsutil.cc:3920 | Every "X-" kind accepts more values. |
| Commands.TsigMetaKind | pdns/pdnsutil.cc:3792-3799 | "primary", "master" and "producer" select TSIG-ALLOW-AXFR. "secondary", "consumer" and "slave" select AXFR-MASTER-TSIG. Every other role is refused. |
| Commands.ActivateTsig | pdns/pdnsutil.cc:3811-3819 | Enabling a key leaves it listed and keeps every existing entry in place. The key is added once, only if it was absent. |
| Commands.ActivateIdempotent | pdns/pdnsutil.cc:3811-3819 | Enabling a key twice is enabling it once. |
| Commands.RemoveFirst | pdns/pdnsutil.cc:3857-3862 | Disabling removes exactly one occurrence of the key when present and leaves the list alone otherwise. |
| Commands.RemoveFirstShape | pdns/pdnsutil.cc:3857-3862 | The removed occurrence is the first one. Entries before it stay in place, and entries after it move up by one. |
| Commands.DeactivateUndoesActivate | pdns/pdnsutil.cc:3811-3862 | Disabling a key that enabling just added restores the original list. |
| Commands.DefaultKeyBits | pdns/pdnsutil.cc:3690-3703 | With no size requested: algorithms up to 10 get 2048 bits for a KSK and 1024 for a ZSK. Algorithms 12, 13 and 15 get 256 bits, 14 gets 384, and 16 gets 456. Algorithm 11 and anything above 16 have no default and are an error. |
| Commands.KeyBits | pdns/pdnsutil.cc:3678-3703 | A requested non-zero size, negative ones included, is used as given, whatever the algorithm. Size selection fails (the "cannot guess key size" error) iff no size was requested and the algorithm is 11 or above 16. With no size requested, algorithms up to 10 get 2048 bits for a KSK and 1024 for a ZSK. |
| Commands.DefaultKeyBitsRole | pdns/pdnsutil.cc:3690-3699 | Only the RSA-era defaults depend on the key's role: a KSK is twice a ZSK. |
| Commands.KindFilter | pdns/pdnsutil.cc:1738-1754 | No argument lists every kind. A non-empty argument is refused iff its upper-cased form is none of the seven accepted spellings. Any accepted argument selects a kind number from 0 to 4. |
| Commands.KindFilterNames | pdns/pdnsutil.cc:1740-1749 | Each kind's name selects exactly that kind. |
| Commands.KindFilterLegacyNames | pdns/pdnsutil.cc:1740-1743 | "master" selects what "primary" selects, and "slave" what "secondary" selects, in any letter case. |
| Commands.KindFilterIgnoresCase | pdns/pdnsutil.cc:1740-1749 | The filter ignores letter case. |
| Commands.ListedCount | pdns/pdnsutil.cc:1761-1767 | A kind filter lists exactly as many zones as have that kind. |
| Commands.ListedMembers | pdns/pdnsutil.cc:1762-1767 | A name is listed iff some zone of that name passes the filter. |
| Commands.ListedAppend | pdns/pdnsutil.cc:1762-1767 | The listing keeps the backend's order: listing two runs of zones gives the first run's listing followed by the second's. |
| Commands.ListedSingle | pdns/pdnsutil.cc:1763-1764 | A single zone is listed iff it passes the filter. |
| Commands.KindFiltersPartition | pdns/pdnsutil.cc:1761-1767 | The five kind filters together list as many zones as the unfiltered listing does. |
| Commands.RecordTtlMeaning | pdns/pdnsutil.cc:1614-1623 | With more than five arguments, the fifth is taken as the TTL iff it is a canonical decimal below 2^32, and the TTL is then its value. Otherwise the default TTL is used and the content starts at the fifth argument. |
| Commands.CnameGuardRefuses | pdns/pdnsutil.cc:1625-1647 | Adding a CNAME is refused at any name holding records. Replacing with a CNAME is refused when a non-CNAME is present. Any other type is refused next to a CNAME. |
| Commands.CnameGuardKeepsExclusive | pdns/pdnsutil.cc:1625-1647 | A write the guard allows leaves the name holding either no CNAME or nothing but CNAMEs. |
| Decimal.AtoiRoundTrip | pdns/pdnsutil.cc:1616-1617 | A string survives `atoi` into an unsigned 32-bit field and then `std::to_string` iff it is canonical decimal below 2^32. |
| Decimal.DigitsOfDecimal | pdns/pdnsutil.cc:1617 | Reading back the decimal spelling of a number gives the number. |
| Decimal.DecimalOfDigits | pdns/pdnsutil.cc:1617 | Spelling the value of a canonical decimal string gives the string back. |
| Decimal.StrToLongOfDecimal | pdns/pdnsutil.cc:1616 | `strtol` reads a canonical spelling back as the same number iff the value fits a `long`. A larger value reads as the largest `long`. |

## Left out

- **Backend and key-store I/O.** Domain information, SOA lookups, the NSEC3
  parameters, stored keys, the parent-zone lookup and metadata are not
  queried. The model takes their outcomes as inputs: `Probes`, plus the
  fields of `Config`.
- **Key parsing and validation.** Parsing keys, validating them and counting
  algorithm-5 keys are represented only by their results: the
  `rsaSha1Keys` count and the `keysValid` flag.
- **The parent-delegation probe** is an outcome, `parentDelegates`. Which
  ancestor is found, and how its NS records are read, is not modelled.
- **Record content parsing and rendering, and the hostname tests.** These
  are oracles in `Config`, because the record codecs and `checkHostnameCorrectness`
  are not part of this model. The AAAA validity test is part of the same
  oracle.
- **DNS name semantics.** `DNSName` (its escaping, wire length and canonical
  ordering) is not part of this model. Names are label sequences compared
  with ASCII lower-casing.
- **Message texts and output order.** Findings carry a kind and a subject,
  not the printed text. The iteration order of the sets the source loops
  over affects only message order: the model uses insertion order where the
  source uses canonical name order.
- **`list-all-zones` printing** and the verbose zone count are not modelled.
  Only which zones are listed is.
- **Unknown zone.** The "unable to get zone information" line is a finding
  in the model. The source prints it but returns before the error counter
  and the summary line.
- **The add-meta backend write** (`addOrSetMeta`), and the backend reads and
  writes of the TSIG and add-record commands, are not modelled. Only the
  list or guard decision is.
- **Key engine creation and key generation.** `DNSCryptoKeyEngine::make`,
  which may reject the algorithm before a size is chosen, and
  `dpk->create(bits)`, which may reject the size, are not part of this
  model. `Commands.KeyBits` decides only the size handed to `create`.
- Commands.KeyBits: takes the requested size as an unbounded integer. The
  32-bit range check of `checked_stoi<int>` is argument parsing, which is
  not modelled.
- **The rest of pdnsutil** is outside the core and not modelled:
  edit-zone, rectification, key management beyond the default key size,
  benchmarks, and command dispatch.
- Decimal.StrToLong: models `strtol` for a 64-bit `long` in the C locale.
  `atoi`'s narrowing to `int` is modelled as the reduction modulo 2^32 that
  GCC and Clang perform, not as C's implementation-defined conversion.

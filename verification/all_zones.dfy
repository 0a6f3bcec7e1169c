/** Checking every zone the backends serve: each zone's own check, plus an
    error for a zone name or zone id that an earlier zone already used. */
module AllZones {
  import opened Names
  import opened Records
  import opened ZoneCheck

  /** One zone as the backends list it, with the exit code of its own
      check. */
  datatype ZoneEntry = ZoneEntry(zone: Name, id: Uint32, code: ExitCode)

  /** Some earlier zone has the same name, compared without case. */
  predicate NameSeen(earlier: seq<ZoneEntry>, e: ZoneEntry) {
    exists d :: d in earlier && SameName(d.zone, e.zone)
  }

  predicate IdSeen(earlier: seq<ZoneEntry>, e: ZoneEntry) {
    exists d :: d in earlier && d.id == e.id
  }

  /** The errors one zone adds: one for a failed check, one for a repeated
      name, one for a repeated id. */
  function EntryErrors(earlier: seq<ZoneEntry>, e: ZoneEntry): (n: nat)
    ensures n <= 3
    ensures n == 0 <==> e.code == Success && !NameSeen(earlier, e) && !IdSeen(earlier, e)
  {
    (if e.code == Failure then 1 else 0)
    + (if NameSeen(earlier, e) then 1 else 0)
    + (if IdSeen(earlier, e) then 1 else 0)
  }

  /** The error counter after the first `n` zones. */
  function ErrorsAfter(es: seq<ZoneEntry>, n: nat): nat
    requires n <= |es|
  {
    if n == 0 then 0 else ErrorsAfter(es, n - 1) + EntryErrors(es[..n - 1], es[n - 1])
  }

  /** Every zone's check succeeded and no two zones share a name or an id. */
  predicate AllClean(es: seq<ZoneEntry>) {
    && (forall i :: 0 <= i < |es| ==> es[i].code == Success)
    && (forall i, j :: 0 <= i < j < |es| ==> !SameName(es[i].zone, es[j].zone) && es[i].id != es[j].id)
  }

  /** No error is counted exactly when every zone is clean. */
  lemma {:induction false} ErrorsAfterZero(es: seq<ZoneEntry>, n: nat)
    requires n <= |es|
    ensures ErrorsAfter(es, n) == 0 <==> AllClean(es[..n])
    decreases n
  {
    if n > 0 {
      ErrorsAfterZero(es, n - 1);
      assert es[..n] == es[..n - 1] + [es[n - 1]];
      CleanSnoc(es[..n - 1], es[n - 1]);
    }
  }

  /** One more zone keeps the list clean exactly when it adds no error. */
  lemma CleanSnoc(q: seq<ZoneEntry>, e: ZoneEntry)
    ensures AllClean(q + [e]) <==> AllClean(q) && EntryErrors(q, e) == 0
  {
    if AllClean(q + [e]) {
      CleanSnocOnly(q, e);
    }
    if AllClean(q) && EntryErrors(q, e) == 0 {
      CleanSnocIf(q, e);
    }
  }

  lemma CleanSnocOnly(q: seq<ZoneEntry>, e: ZoneEntry)
    requires AllClean(q + [e])
    ensures AllClean(q) && e.code == Success && !NameSeen(q, e) && !IdSeen(q, e)
  {
    var es := q + [e];
    assert forall i :: 0 <= i < |q| ==> es[i] == q[i];
    assert es[|q|] == e;
    forall d | d in q
      ensures !SameName(d.zone, e.zone) && d.id != e.id
    {
      var i :| 0 <= i < |q| && q[i] == d;
      assert !SameName(es[i].zone, es[|q|].zone) && es[i].id != es[|q|].id;
    }
  }

  lemma CleanSnocIf(q: seq<ZoneEntry>, e: ZoneEntry)
    requires AllClean(q) && e.code == Success && !NameSeen(q, e) && !IdSeen(q, e)
    ensures AllClean(q + [e])
  {
    var es := q + [e];
    forall i, j | 0 <= i < j < |es|
      ensures !SameName(es[i].zone, es[j].zone) && es[i].id != es[j].id
    {
      if j < |q| {
        assert es[i] == q[i] && es[j] == q[j];
      } else {
        assert es[i] in q;
      }
    }
  }

  /** The canonical names and the ids of the zones seen so far. */
  function NamesOf(es: seq<ZoneEntry>): set<Name> {
    set d | d in es :: Canon(d.zone)
  }

  function IdsOf(es: seq<ZoneEntry>): set<Uint32> {
    set d | d in es :: d.id
  }

  lemma SeenSets(earlier: seq<ZoneEntry>, e: ZoneEntry)
    ensures NameSeen(earlier, e) <==> Canon(e.zone) in NamesOf(earlier)
    ensures IdSeen(earlier, e) <==> e.id in IdsOf(earlier)
  {
  }

  /** One zone more adds its name and its id to those seen. */
  lemma SeenSnoc(earlier: seq<ZoneEntry>, e: ZoneEntry)
    ensures NamesOf(earlier + [e]) == NamesOf(earlier) + {Canon(e.zone)}
    ensures IdsOf(earlier + [e]) == IdsOf(earlier) + {e.id}
  {
    assert forall d :: d in earlier + [e] <==> d in earlier || d == e;
  }

  /** The checks made for one zone, against the names and ids of the zones
      visited before it: the errors added are exactly the zone's own
      errors, and the seen sets grow to cover the zone. */
  method VisitZone(ghost earlier: seq<ZoneEntry>, e: ZoneEntry, names: set<Name>, ids: set<Uint32>, errors: nat)
    returns (errors': nat, names': set<Name>, ids': set<Uint32>)
    requires names == NamesOf(earlier) && ids == IdsOf(earlier)
    ensures errors' == errors + EntryErrors(earlier, e)
    ensures names' == NamesOf(earlier + [e]) && ids' == IdsOf(earlier + [e])
  {
    SeenSets(earlier, e);
    SeenSnoc(earlier, e);
    errors' := errors;
    if e.code == Failure {
      errors' := errors' + 1;
    }
    if Canon(e.zone) in names {
      errors' := errors' + 1;
    }
    if e.id in ids {
      errors' := errors' + 1;
    }
    names' := names + {Canon(e.zone)};
    ids' := ids + {e.id};
  }

  /** Check the zones in order, counting errors; with `exitOnError`, stop
      after the first zone that brings the counter above zero. The exit
      code is a failure exactly when some error was counted. */
  method CheckAllZones(es: seq<ZoneEntry>, exitOnError: bool) returns (code: ExitCode, errors: nat, checked: nat)
    ensures checked <= |es| && errors == ErrorsAfter(es, checked)
    ensures code == Failure <==> errors > 0
    ensures !exitOnError ==> checked == |es|
    ensures exitOnError ==> checked == |es| || errors > 0
    ensures exitOnError && checked > 0 ==> ErrorsAfter(es, checked - 1) == 0
  {
    var seenNames: set<Name> := {};
    var seenIds: set<Uint32> := {};
    errors := 0;
    checked := 0;
    while checked < |es|
      invariant checked <= |es|
      invariant errors == ErrorsAfter(es, checked)
      invariant seenNames == NamesOf(es[..checked]) && seenIds == IdsOf(es[..checked])
      invariant exitOnError ==> errors == 0
      invariant exitOnError && checked > 0 ==> ErrorsAfter(es, checked - 1) == 0
    {
      errors, seenNames, seenIds := VisitZone(es[..checked], es[checked], seenNames, seenIds, errors);
      assert es[..checked + 1] == es[..checked] + [es[checked]];
      checked := checked + 1;
      if errors > 0 && exitOnError {
        return Failure, errors, checked;
      }
    }
    code := if errors == 0 then Success else Failure;
  }
}

/** Domain names as label sequences, with the case-insensitive comparison and
    the "is part of" (at or below) relation the zone check relies on. */
module Names {

  type Label = string

  /** Labels leftmost (most specific) first; the root is the empty sequence. */
  type Name = seq<Label>

  /** ASCII-only lower-casing, as DNS name comparison uses. */
  function LowerChar(c: char): char {
    if 'A' <= c <= 'Z' then (c as int + 32) as char else c
  }

  function Lower(s: string): string {
    if s == [] then [] else [LowerChar(s[0])] + Lower(s[1..])
  }

  /** The canonical (lower-cased) spelling of a name; two names are the same
      name exactly when their canonical spellings coincide. */
  function Canon(n: Name): Name {
    if n == [] then [] else [Lower(n[0])] + Canon(n[1..])
  }

  predicate SameName(a: Name, b: Name) {
    Canon(a) == Canon(b)
  }

  /** `child` equals `parent` or descends from it, ignoring case. */
  predicate IsPartOf(child: Name, parent: Name) {
    |parent| <= |child| && Canon(child[|child| - |parent|..]) == Canon(parent)
  }

  predicate IsRoot(n: Name) {
    n == []
  }

  /** The leftmost label is exactly `*`. */
  predicate IsWildcard(n: Name) {
    |n| > 0 && n[0] == "*"
  }

  /** Length of the name in uncompressed wire format: a length octet per
      label plus the label, and the final zero octet. */
  function WireLength(n: Name): nat {
    if n == [] then 1 else |n[0]| + 1 + WireLength(n[1..])
  }

  lemma {:induction false} LowerLength(s: string)
    ensures |Lower(s)| == |s|
    decreases |s|
  {
    if s != [] {
      LowerLength(s[1..]);
    }
  }

  lemma {:induction false} CanonLength(n: Name)
    ensures |Canon(n)| == |n|
    decreases |n|
  {
    if n != [] {
      CanonLength(n[1..]);
    }
  }

  lemma {:induction false} LowerIdempotent(s: string)
    ensures Lower(Lower(s)) == Lower(s)
    decreases |s|
  {
    if s != [] {
      LowerIdempotent(s[1..]);
      var l := Lower(s);
      assert l[0] == LowerChar(s[0]) && l[1..] == Lower(s[1..]);
    }
  }

  /** Canonicalising is idempotent, so canonical names are fixed points. */
  lemma {:induction false} CanonIdempotent(n: Name)
    ensures Canon(Canon(n)) == Canon(n)
    decreases |n|
  {
    if n != [] {
      CanonIdempotent(n[1..]);
      LowerIdempotent(n[0]);
      var c := Canon(n);
      assert c[0] == Lower(n[0]) && c[1..] == Canon(n[1..]);
    }
  }

  /** Canonicalising works label by label, so it commutes with dropping
      leading labels. */
  lemma {:induction false} CanonSuffix(n: Name, k: nat)
    requires k <= |n|
    ensures k <= |Canon(n)| && Canon(n)[k..] == Canon(n[k..])
    decreases k
  {
    CanonLength(n);
    if k > 0 {
      CanonSuffix(n[1..], k - 1);
      assert n[1..][k - 1..] == n[k..];
      assert Canon(n)[1..] == Canon(n[1..]);
    }
  }

  /** Neither side of the relation depends on how a name is spelled. */
  lemma PartOfCanon(child: Name, parent: Name)
    ensures IsPartOf(Canon(child), parent) == IsPartOf(child, parent)
    ensures IsPartOf(child, Canon(parent)) == IsPartOf(child, parent)
  {
    CanonLength(child);
    CanonLength(parent);
    CanonIdempotent(parent);
    if |parent| <= |child| {
      var k := |child| - |parent|;
      CanonSuffix(child, k);
      CanonIdempotent(child[k..]);
    }
  }

  lemma SameNameCanon(a: Name)
    ensures SameName(Canon(a), a)
  {
    CanonIdempotent(a);
  }

  /** A name is part of itself, and the same name in another spelling. */
  lemma SameNamePartOf(a: Name, b: Name)
    requires SameName(a, b)
    ensures IsPartOf(a, b) && IsPartOf(b, a)
  {
    CanonLength(a);
    CanonLength(b);
    assert a[0..] == a && b[0..] == b;
  }

  /** Mutual containment is the same name. */
  lemma PartOfAntisymmetric(a: Name, b: Name)
    requires IsPartOf(a, b) && IsPartOf(b, a)
    ensures SameName(a, b)
  {
    assert a[0..] == a;
  }

  /** Being at or below is transitive: what lies under a delegation lies in
      the zone the delegation lies in. */
  lemma PartOfTransitive(a: Name, b: Name, c: Name)
    requires IsPartOf(a, b) && IsPartOf(b, c)
    ensures IsPartOf(a, c)
  {
    var ka := |a| - |b|;
    var kb := |b| - |c|;
    assert a[ka..][kb..] == a[|a| - |c|..];
    CanonSuffix(a[ka..], kb);
    CanonSuffix(b, kb);
  }

  /** Every name is part of the root. */
  lemma PartOfRoot(n: Name)
    ensures IsPartOf(n, [])
  {
    assert n[|n|..] == [];
  }
}

/** The order in which identities are listed, and why no listing depends on map iteration order. */
module Keys {
  import opened Types

  /** Bytewise lexicographic order on strings. */
  predicate Before(a: string, b: string) {
    b != "" && (a == "" || a[0] < b[0] || (a[0] == b[0] && Before(a[1..], b[1..])))
  }

  /** `a` and `b` agree before `i`, where `a` ends or has the smaller byte. */
  predicate DiffersAt(a: string, b: string, i: nat) {
    i <= |a| && i < |b| && a[..i] == b[..i] && (i == |a| || a[i] < b[i])
  }

  lemma DiffersLater(a: string, b: string, i: nat)
    requires a != "" && b != "" && a[0] == b[0]
    ensures DiffersAt(a[1..], b[1..], i) <==> DiffersAt(a, b, i + 1)
    ensures !DiffersAt(a, b, 0)
  {
    if i < |a| && i < |b| {
      assert a[..i + 1] == [a[0]] + a[1..][..i] && b[..i + 1] == [b[0]] + b[1..][..i];
    }
  }

  lemma DiffersAtOnce(a: string, b: string, i: nat)
    requires DiffersAt(a, b, i) && (a == "" || b == "" || a[0] != b[0])
    ensures i == 0
  {
    assert forall k | 0 <= k < i :: a[..i][k] == a[k] && b[..i][k] == b[k];
  }

  /** The order is the lexicographic one: by the first byte that differs, a prefix before its extensions. */
  lemma {:induction false} BeforeIsLexicographic(a: string, b: string)
    ensures Before(a, b) <==> exists i: nat :: DiffersAt(a, b, i)
  {
    if a != "" && b != "" && a[0] == b[0] {
      BeforeIsLexicographic(a[1..], b[1..]);
      forall i: nat ensures DiffersAt(a[1..], b[1..], i) <==> DiffersAt(a, b, i + 1) {
        DiffersLater(a, b, i);
      }
      DiffersLater(a, b, 0);
      if i: nat :| DiffersAt(a, b, i) {
        assert i - 1 >= 0 && DiffersAt(a[1..], b[1..], i - 1);
      }
    } else {
      assert Before(a, b) ==> DiffersAt(a, b, 0);
      forall i: nat | DiffersAt(a, b, i) ensures i == 0 { DiffersAtOnce(a, b, i); }
    }
  }

  lemma {:induction false} BeforeIsTotal(a: string, b: string)
    ensures Before(a, b) || Before(b, a) || a == b
  {
    if a != "" && b != "" && a[0] == b[0] {
      BeforeIsTotal(a[1..], b[1..]);
      assert a == [a[0]] + a[1..] && b == [b[0]] + b[1..];
    }
  }

  lemma {:induction false} BeforeIsStrict(a: string, b: string)
    requires Before(a, b)
    ensures !Before(b, a) && a != b
  {
    if a != "" && a[0] == b[0] {
      BeforeIsStrict(a[1..], b[1..]);
    }
  }

  lemma {:induction false} BeforeIsTransitive(a: string, b: string, c: string)
    requires Before(a, b) && Before(b, c)
    ensures Before(a, c)
  {
    if a != "" && a[0] == b[0] == c[0] {
      BeforeIsTransitive(a[1..], b[1..], c[1..]);
    }
  }

  /** The comparison used to sort identities: scope, then kind, then name. */
  predicate Less(a: ViolationKey, b: ViolationKey) {
    if a.scope != b.scope then Before(a.scope, b.scope)
    else if a.kind != b.kind then Before(a.kind, b.kind)
    else Before(a.name, b.name)
  }

  /** Identities are ordered by scope, those of one scope by kind, those of one kind by name. */
  lemma LessIsByScopeKindName(scope: string, scope': string, kind: string, kind': string, name: string, name': string)
    ensures scope != scope' ==>
            (Less(ViolationKey(scope, kind, name), ViolationKey(scope', kind', name')) <==> Before(scope, scope'))
    ensures kind != kind' ==>
            (Less(ViolationKey(scope, kind, name), ViolationKey(scope, kind', name')) <==> Before(kind, kind'))
    ensures Less(ViolationKey(scope, kind, name), ViolationKey(scope, kind, name')) <==> Before(name, name')
  {
  }

  lemma LessIsStrictTotalOrder(a: ViolationKey, b: ViolationKey, c: ViolationKey)
    ensures Less(a, b) || Less(b, a) || a == b
    ensures Less(a, b) ==> !Less(b, a) && a != b
    ensures Less(a, b) && Less(b, c) ==> Less(a, c)
  {
    BeforeIsTotal(a.scope, b.scope);
    BeforeIsTotal(a.kind, b.kind);
    BeforeIsTotal(a.name, b.name);
    if Less(a, b) {
      StrictPart(a, b);
      if Less(b, c) {
        TransitivePart(a, b, c);
      }
    }
  }

  lemma StrictPart(a: ViolationKey, b: ViolationKey)
    requires Less(a, b)
    ensures !Less(b, a) && a != b
  {
    if a.scope != b.scope { BeforeIsStrict(a.scope, b.scope); }
    else if a.kind != b.kind { BeforeIsStrict(a.kind, b.kind); }
    else { BeforeIsStrict(a.name, b.name); }
  }

  lemma TransitivePart(a: ViolationKey, b: ViolationKey, c: ViolationKey)
    requires Less(a, b) && Less(b, c)
    ensures Less(a, c)
  {
    if a.scope != b.scope && b.scope != c.scope {
      BeforeIsTransitive(a.scope, b.scope, c.scope);
      if a.scope == c.scope { BeforeIsStrict(a.scope, b.scope); }
    } else if a.scope == b.scope == c.scope && a.kind != b.kind && b.kind != c.kind {
      BeforeIsTransitive(a.kind, b.kind, c.kind);
      if a.kind == c.kind { BeforeIsStrict(a.kind, b.kind); }
    } else if a.scope == b.scope == c.scope && a.kind == b.kind == c.kind {
      BeforeIsTransitive(a.name, b.name, c.name);
    }
  }

  ghost predicate StrictlySorted(keys: seq<ViolationKey>) {
    forall i, j | 0 <= i < j < |keys| :: Less(keys[i], keys[j])
  }

  function Elements<T>(xs: seq<T>): set<T> {
    set x | x in xs
  }

  /** `keys` lists the set `s`: sorted, every member once, nothing else. */
  ghost predicate Lists(keys: seq<ViolationKey>, s: set<ViolationKey>) {
    StrictlySorted(keys) && Elements(keys) == s
  }

  /** A set of identities has only one sorted listing, so whatever order a map yields its keys in,
      the sorted result is the same. */
  lemma {:induction false} ListingIsUnique(a: seq<ViolationKey>, b: seq<ViolationKey>, s: set<ViolationKey>)
    requires Lists(a, s) && Lists(b, s)
    ensures a == b
    decreases |a|
  {
    assert a != [] ==> a[0] in Elements(b);
    assert b != [] ==> b[0] in Elements(a);
    if a != [] {
      var i :| 0 <= i < |b| && b[i] == a[0];
      var j :| 0 <= j < |a| && a[j] == b[0];
      LessIsStrictTotalOrder(a[0], b[0], a[0]);
      assert i == 0;
      TailLists(a, s);
      TailLists(b, s);
      ListingIsUnique(a[1..], b[1..], s - {a[0]});
      assert a == [a[0]] + a[1..] && b == [b[0]] + b[1..];
    }
  }

  lemma TailLists(a: seq<ViolationKey>, s: set<ViolationKey>)
    requires Lists(a, s) && a != []
    ensures Lists(a[1..], s - {a[0]})
  {
    forall k | 0 < k < |a| ensures a[k] != a[0] { StrictPart(a[0], a[k]); }
    forall x | x in s - {a[0]} ensures x in a[1..] {
      var k :| 0 <= k < |a| && a[k] == x;
      assert x == a[1..][k - 1];
    }
    assert Elements(a[1..]) == s - {a[0]};
  }

  /** Insertion into a sorted listing. */
  lemma InsertKeepsListing(keys: seq<ViolationKey>, s: set<ViolationKey>, k: ViolationKey, i: nat)
    requires Lists(keys, s) && k !in s && i <= |keys|
    requires forall j | 0 <= j < i :: Less(keys[j], k)
    requires forall j | i <= j < |keys| :: Less(k, keys[j])
    ensures Lists(keys[..i] + [k] + keys[i..], s + {k})
  {
    var r := keys[..i] + [k] + keys[i..];
    forall x | x in s + {k} ensures x in r {
      if x in s {
        var j :| 0 <= j < |keys| && keys[j] == x;
        assert x == r[if j < i then j else j + 1];
      }
    }
    assert Elements(r) == s + {k};
  }

  /** The sorted listing of a set, however it was iterated. */
  ghost function Listing(s: set<ViolationKey>): (keys: seq<ViolationKey>)
    ensures Lists(keys, s)
    ensures forall k :: k in keys <==> k in s
  {
    ListingExists(s);
    var keys :| Lists(keys, s);
    assert forall k :: k in keys <==> k in Elements(keys);
    keys
  }

  lemma {:induction false} ListingExists(s: set<ViolationKey>)
    ensures exists keys :: Lists(keys, s)
  {
    if s == {} {
      assert Lists([], {});
    } else {
      var k :| k in s;
      ListingExists(s - {k});
      var keys :| Lists(keys, s - {k});
      var i := Position(keys, k);
      InsertKeepsListing(keys, s - {k}, k, i);
      assert s - {k} + {k} == s;
      assert Lists(keys[..i] + [k] + keys[i..], s);
    }
  }

  lemma {:induction false} Position(keys: seq<ViolationKey>, k: ViolationKey) returns (i: nat)
    requires StrictlySorted(keys) && k !in keys
    ensures i <= |keys|
    ensures forall j | 0 <= j < i :: Less(keys[j], k)
    ensures forall j | i <= j < |keys| :: Less(k, keys[j])
  {
    i := 0;
    while i < |keys| && Less(keys[i], k)
      invariant i <= |keys|
      invariant forall j | 0 <= j < i :: Less(keys[j], k)
    {
      i := i + 1;
    }
    forall j | i <= j < |keys| ensures Less(k, keys[j]) {
      LessIsStrictTotalOrder(k, keys[i], keys[j]);
    }
  }

  /** Sorts the distinct keys collected from a map. The sorting algorithm of the Go library is not
      modelled; insertion stands in for it, and the listing it must produce is unique. */
  method SortKeys(collected: seq<ViolationKey>) returns (keys: seq<ViolationKey>)
    requires forall i, j | 0 <= i < j < |collected| :: collected[i] != collected[j]
    ensures keys == Listing(Elements(collected))
  {
    keys := [];
    for n := 0 to |collected|
      invariant Lists(keys, Elements(collected[..n]))
    {
      var k := collected[n];
      assert collected[..n + 1] == collected[..n] + [k];
      assert Elements(collected[..n + 1]) == Elements(collected[..n]) + {k};
      assert k !in collected[..n];
      assert k !in Elements(keys);
      var i := 0;
      while i < |keys| && Less(keys[i], k)
        invariant 0 <= i <= |keys|
        invariant forall j | 0 <= j < i :: Less(keys[j], k)
      {
        i := i + 1;
      }
      forall j | i <= j < |keys| ensures Less(k, keys[j]) {
        LessIsStrictTotalOrder(k, keys[i], keys[j]);
      }
      InsertKeepsListing(keys, Elements(collected[..n]), k, i);
      keys := keys[..i] + [k] + keys[i..];
    }
    assert collected[..|collected|] == collected;
    ListingIsUnique(keys, Listing(Elements(collected)), Elements(collected));
  }
}

/** The strings that key the throttling windows: parts joined by NUL. */
module ThrottleKeys {
  import opened Types

  const NUL: char := '\0'

  function Joined(a: string, b: string): string {
    a + [NUL] + b
  }

  function IdentityKey(k: ViolationKey): string {
    Joined(k.scope, Joined(k.kind, k.name))
  }

  predicate NulFree(s: string) {
    NUL !in s
  }

  predicate NulFreeKey(k: ViolationKey) {
    NulFree(k.scope) && NulFree(k.kind) && NulFree(k.name)
  }

  function NulCount(s: string): nat {
    if s == [] then 0 else NulCount(s[..|s| - 1]) + if s[|s| - 1] == NUL then 1 else 0
  }

  lemma {:induction false} NulCountConcat(a: string, b: string)
    ensures NulCount(a + b) == NulCount(a) + NulCount(b)
  {
    if b == [] {
      assert a + b == a;
    } else {
      NulCountConcat(a, b[..|b| - 1]);
      assert (a + b)[..|a + b| - 1] == a + b[..|b| - 1];
    }
  }

  lemma {:induction false} NulCountZero(s: string)
    ensures NulCount(s) == 0 <==> NulFree(s)
  {
    if s != [] {
      NulCountZero(s[..|s| - 1]);
    }
  }

  lemma NulCountOfKey(k: ViolationKey)
    ensures NulCount(IdentityKey(k)) == NulCount(k.scope) + NulCount(k.kind) + NulCount(k.name) + 2
  {
    NulCountConcat(k.scope + [NUL], Joined(k.kind, k.name));
    NulCountConcat(k.scope, [NUL]);
    NulCountConcat(k.kind + [NUL], k.name);
    NulCountConcat(k.kind, [NUL]);
    assert [NUL][..0] == [];
  }

  lemma JoinedOnce(a: string, b: string, a': string, b': string)
    requires NulFree(a) && NulFree(a') && Joined(a, b) == Joined(a', b')
    ensures a == a' && b == b'
  {
    var s, s' := Joined(a, b), Joined(a', b');
    assert s[|a|] == NUL && s'[|a'|] == NUL;
    assert forall i | 0 <= i < |a| :: s[i] == a[i];
    assert forall i | 0 <= i < |a'| :: s'[i] == a'[i];
    assert |a| == |a'|;
    assert a == s[..|a|] && a' == s'[..|a|];
    assert b == s[|a| + 1..] && b' == s'[|a| + 1..];
  }

  /** An identity has a window of its own exactly when none of its three parts holds a NUL; otherwise some
      other identity has the same key and shares its window. */
  lemma KeyIsExclusive(k: ViolationKey)
    ensures NulFreeKey(k) <==> forall other :: IdentityKey(other) == IdentityKey(k) ==> other == k
  {
    if NulFreeKey(k) {
      forall other | IdentityKey(other) == IdentityKey(k) ensures other == k {
        NulCountsOfParts(k);
        NulCountsOfParts(other);
        JoinedOnce(other.scope, Joined(other.kind, other.name), k.scope, Joined(k.kind, k.name));
        JoinedOnce(other.kind, other.name, k.kind, k.name);
      }
    } else {
      var other := Shifted(k);
      assert other != k && IdentityKey(other) == IdentityKey(k);
    }
  }

  lemma NulCountsOfParts(k: ViolationKey)
    ensures NulCount(IdentityKey(k)) >= 2
    ensures NulCount(IdentityKey(k)) == 2 <==> NulFreeKey(k)
  {
    NulCountOfKey(k);
    NulCountZero(k.scope);
    NulCountZero(k.kind);
    NulCountZero(k.name);
  }

  function FirstNul(s: string): (i: nat)
    requires !NulFree(s)
    ensures i < |s| && s[i] == NUL
  {
    if s[0] == NUL then 0 else FirstNul(s[1..]) + 1
  }

  /** Another identity with the same key: the parts are cut at another NUL. */
  function Shifted(k: ViolationKey): (other: ViolationKey)
    requires !NulFreeKey(k)
    ensures other != k && IdentityKey(other) == IdentityKey(k)
  {
    if !NulFree(k.scope) then
      var i := FirstNul(k.scope);
      SplitAt(k.scope, i);
      Regroup(k.scope[..i], k.scope[i + 1..], k.kind, k.name);
      ViolationKey(k.scope[..i], k.scope[i + 1..], Joined(k.kind, k.name))
    else if !NulFree(k.kind) then
      var i := FirstNul(k.kind);
      SplitAt(k.kind, i);
      Regroup(k.scope, k.kind[..i], k.kind[i + 1..], k.name);
      ViolationKey(Joined(k.scope, k.kind[..i]), k.kind[i + 1..], k.name)
    else
      var i := FirstNul(k.name);
      SplitAt(k.name, i);
      Regroup(k.scope, k.kind, k.name[..i], k.name[i + 1..]);
      ViolationKey(Joined(k.scope, k.kind), k.name[..i], k.name[i + 1..])
  }

  lemma SplitAt(s: string, i: nat)
    requires i < |s| && s[i] == NUL
    ensures Joined(s[..i], s[i + 1..]) == s
  {
    assert s == s[..i] + [s[i]] + s[i + 1..];
  }

  /** Joining is associative, which is why the cut can move. */
  lemma Regroup(a: string, b: string, c: string, d: string)
    ensures Joined(a, Joined(b, Joined(c, d))) == Joined(Joined(a, b), Joined(c, d)) ==
        Joined(a, Joined(Joined(b, c), d))
  {
    assert Joined(b, Joined(c, d)) == Joined(Joined(b, c), d);
  }

  /** Two parts without a NUL are read back from their joined form. */
  lemma PairIsExclusive(a: string, b: string, c: string, d: string)
    requires NulFree(a) && NulFree(b)
    ensures Joined(a, b) == Joined(c, d) <==> a == c && b == d
  {
    if Joined(a, b) == Joined(c, d) {
      NulCountOfPair(a, b);
      NulCountOfPair(c, d);
      NulCountZero(a);
      NulCountZero(b);
      NulCountZero(c);
      JoinedOnce(a, b, c, d);
    }
  }

  lemma NulCountOfPair(a: string, b: string)
    ensures NulCount(Joined(a, b)) == NulCount(a) + NulCount(b) + 1
  {
    NulCountConcat(a + [NUL], b);
    NulCountConcat(a, [NUL]);
    assert [NUL][..0] == [];
  }

  // ---------- the key of a report ----------

  /** The key a report is throttled under; `site` is the call site an unscoped transaction was begun at. */
  function ReportKey(x: Report, site: string): string {
    match x
    case Violated(v) => IdentityKey(v.Key())
    case Stale(s) => IdentityKey(KeyOf(s.scope, s.op))
    case UnscopedTx => site
    case UnscopedCheck(op) => Joined(op.kind, op.name)
    case NestedScope(outer, inner) => Joined(outer, inner)
    case LeakedTx(scope, _) => scope
  }

  /** The keys written out. */
  lemma KeysSpelledOut(v: Violation, s: StaleAllow, op: Op, outer: string, inner: string, n: int, site: string)
    ensures ReportKey(Violated(v), site) == v.scope + "\0" + v.op.kind + "\0" + v.op.name
    ensures ReportKey(Stale(s), site) == s.scope + "\0" + s.op.kind + "\0" + s.op.name
    ensures ReportKey(UnscopedTx, site) == site
    ensures ReportKey(UnscopedCheck(op), site) == op.kind + "\0" + op.name
    ensures ReportKey(NestedScope(outer, inner), site) == outer + "\0" + inner
    ensures ReportKey(LeakedTx(outer, n), site) == outer
  {
    assert v.scope + "\0" + (v.op.kind + "\0" + v.op.name) == v.scope + "\0" + v.op.kind + "\0" + v.op.name;
    assert s.scope + "\0" + (s.op.kind + "\0" + s.op.name) == s.scope + "\0" + s.op.kind + "\0" + s.op.name;
  }

  /** Two reports of one kind are about the same thing: violations and stale exemptions by scope and
      operation, unscoped checkpoints by operation, nested scopes by both names, leaks by scope. */
  predicate SameSubject(x: Report, y: Report) {
    match x
    case Violated(v) => y.Violated? && y.violation.scope == v.scope && y.violation.op == v.op
    case Stale(s) => y.Stale? && y.stale.scope == s.scope && y.stale.op == s.op
    case UnscopedTx => y.UnscopedTx?
    case UnscopedCheck(op) => y.UnscopedCheck? && y.op == op
    case NestedScope(outer, inner) => y.NestedScope? && y.outer == outer && y.inner == inner
    case LeakedTx(scope, _) => y.LeakedTx? && y.scope == scope
  }

  predicate SameKind(x: Report, y: Report) {
    match x
    case Violated(_) => y.Violated?
    case Stale(_) => y.Stale?
    case UnscopedTx => y.UnscopedTx?
    case UnscopedCheck(_) => y.UnscopedCheck?
    case NestedScope(_, _) => y.NestedScope?
    case LeakedTx(_, _) => y.LeakedTx?
  }

  /** No part of the report's key holds a NUL. */
  predicate NulFreeReport(x: Report) {
    match x
    case Violated(v) => NulFree(v.scope) && NulFree(v.op.kind) && NulFree(v.op.name)
    case Stale(s) => NulFree(s.scope) && NulFree(s.op.kind) && NulFree(s.op.name)
    case UnscopedTx => true
    case UnscopedCheck(op) => NulFree(op.kind) && NulFree(op.name)
    case NestedScope(outer, inner) => NulFree(outer) && NulFree(inner)
    case LeakedTx(_, _) => true
  }

  /** On parts free of NULs two reports of one kind share a key exactly when they have the same subject;
      unscoped transactions share one exactly when they have the same call site. */
  lemma KeysTellApart(x: Report, y: Report, site: string, site': string)
    requires NulFreeReport(x) && SameKind(x, y)
    ensures ReportKey(x, site) == ReportKey(y, site') <==> SameSubject(x, y) && (x.UnscopedTx? ==> site == site')
  {
    match x
    case Violated(v) => KeyIsExclusive(v.Key());
    case Stale(s) => KeyIsExclusive(KeyOf(s.scope, s.op));
    case UnscopedCheck(op) => PairIsExclusive(op.kind, op.name, y.op.kind, y.op.name);
    case NestedScope(outer, inner) => PairIsExclusive(outer, inner, y.outer, y.inner);
    case _ =>
  }
}

/** The baseline: identities whose violations are tolerated, which of them still suppress anything, and the
    reporter that filters through it. */
module Baselines {
  import opened Types
  import opened Keys
  import opened Detectors

  /** Per baselined identity, whether it has suppressed a violation. */
  type Usage = map<ViolationKey, bool>

  /** Whether a report is swallowed. */
  predicate Swallowed(m: Usage, x: Report) {
    x.Violated? && x.violation.Key() in m
  }

  function Marked(m: Usage, x: Report): Usage {
    if Swallowed(m, x) then m[x.violation.Key() := true] else m
  }

  function MarkedAll(m: Usage, xs: seq<Report>): Usage {
    if xs == [] then m else Marked(MarkedAll(m, xs[..|xs| - 1]), xs[|xs| - 1])
  }

  /** What reaches the wrapped reporter, as the reports come one by one. */
  function Passed(m: Usage, next: Reporter, xs: seq<Report>): seq<Report> {
    if xs == [] then []
    else
      var init, x := xs[..|xs| - 1], xs[|xs| - 1];
      Passed(m, next, init) + if !Swallowed(MarkedAll(m, init), x) && Accepts(next, x) then [x] else []
  }

  // ---------- over a whole stream ----------

  /** The reports of `xs` whose identity is not in `keys`, in order. */
  function NotIn(keys: set<ViolationKey>, xs: seq<Report>): seq<Report> {
    if xs == [] then []
    else
      NotIn(keys, xs[..|xs| - 1])
      + if xs[|xs| - 1].Violated? && xs[|xs| - 1].violation.Key() in keys then [] else [xs[|xs| - 1]]
  }

  /** The identities violated in a stream. */
  function ViolatedIn(xs: seq<Report>): set<ViolationKey> {
    set x | x in xs && x.Violated? :: x.violation.Key()
  }

  /** Entries are never added or lost by filtering, and an entry is marked used by exactly the streams that
      violate it. */
  lemma {:induction false} UsageFollowsStream(m: Usage, xs: seq<Report>)
    ensures MarkedAll(m, xs).Keys == m.Keys
    ensures forall k | k in m :: MarkedAll(m, xs)[k] <==> m[k] || k in ViolatedIn(xs)
  {
    if xs != [] {
      var init, x := xs[..|xs| - 1], xs[|xs| - 1];
      UsageFollowsStream(m, init);
      assert xs == init + [x];
      assert ViolatedIn(xs) == ViolatedIn(init) + if x.Violated? then {x.violation.Key()} else {};
    }
  }

  /** Exactly the reports of identities that are not baselined pass, in order, whatever the entries'
      usage and whatever came before. */
  lemma {:induction false} FilterIsExact(m: Usage, next: Reporter, xs: seq<Report>)
    ensures Passed(m, next, xs) == Taken(next, NotIn(m.Keys, xs))
  {
    if xs != [] {
      var init, x := xs[..|xs| - 1], xs[|xs| - 1];
      FilterIsExact(m, next, init);
      UsageFollowsStream(m, init);
      var kept := NotIn(m.Keys, init);
      if Swallowed(m, x) {
        assert kept + [] == kept;
        assert Taken(next, kept) + [] == Taken(next, kept);
      } else {
        assert (kept + [x])[..|kept|] == kept;
      }
    }
  }

  function Unused(m: Usage): set<ViolationKey> {
    set k | k in m && !m[k]
  }

  /** What is unused after a stream is what was unused before and is not violated in it. */
  lemma UnusedAreUnseen(m: Usage, xs: seq<Report>)
    ensures Unused(MarkedAll(m, xs)) == Unused(m) - ViolatedIn(xs)
  {
    UsageFollowsStream(m, xs);
  }

  /** A new baseline over some identities. */
  function FreshUsage(keys: set<ViolationKey>): Usage {
    map k | k in keys :: false
  }

  function KeysOf(vs: seq<Violation>): set<ViolationKey> {
    set v | v in vs :: v.Key()
  }

  function Reports(vs: seq<Violation>): seq<Report> {
    seq(|vs|, i requires 0 <= i < |vs| => Violated(vs[i]))
  }

  lemma {:induction false} NotInIsEmpty(keys: set<ViolationKey>, xs: seq<Report>)
    ensures NotIn(keys, xs) == [] <==> forall x | x in xs :: x.Violated? && x.violation.Key() in keys
  {
    if xs != [] {
      var init, x := xs[..|xs| - 1], xs[|xs| - 1];
      assert xs == init + [x];
      NotInIsEmpty(keys, init);
    }
  }

  /** A baseline built from violations swallows a run of violations whole exactly when the run shows no
      identity the building one did not, and has nothing unused exactly when it shows all of them. So
      the very violations that built it forward nothing and leave nothing unused. */
  lemma RatchetHolds(built: seq<Violation>, run: seq<Violation>, next: Reporter)
    ensures var m := FreshUsage(KeysOf(built));
      && (Passed(m, next, Reports(run)) == [] <==> KeysOf(run) <= KeysOf(built))
      && (Unused(MarkedAll(m, Reports(run))) == {} <==> KeysOf(built) <= KeysOf(run))
  {
    PassesNothing(FreshUsage(KeysOf(built)), run, next);
    UnusedAreUnseen(FreshUsage(KeysOf(built)), Reports(run));
    ViolatedInReports(run);
    assert Unused(FreshUsage(KeysOf(built))) == KeysOf(built);
    NothingLeft(KeysOf(built), KeysOf(run));
  }

  lemma NothingLeft<T>(a: set<T>, b: set<T>)
    ensures a - b == {} <==> a <= b
  {
    if a - b == {} {
      forall x | x in a ensures x in b { assert x !in a - b; }
    }
  }

  lemma PassesNothing(m: Usage, run: seq<Violation>, next: Reporter)
    ensures Passed(m, next, Reports(run)) == [] <==> KeysOf(run) <= m.Keys
  {
    var xs := Reports(run);
    FilterIsExact(m, next, xs);
    ViolatedInReports(run);
    NotInPicks(m.Keys, xs);
    ViolationsAreTaken(next, NotIn(m.Keys, xs));
    NotInIsEmpty(m.Keys, xs);
    if Passed(m, next, xs) == [] {
      forall v | v in run ensures v.Key() in m.Keys { assert Violated(v) in xs; }
    }
  }

  lemma ViolatedInReports(vs: seq<Violation>)
    ensures ViolatedIn(Reports(vs)) == KeysOf(vs)
    ensures forall x :: x in Reports(vs) <==> x.Violated? && x.violation in vs
  {
    forall v | v in vs ensures Violated(v) in Reports(vs) {
      var i :| 0 <= i < |vs| && vs[i] == v;
      assert Reports(vs)[i] == Violated(v);
    }
    forall k | k in KeysOf(vs) ensures k in ViolatedIn(Reports(vs)) {
      var v :| v in vs && v.Key() == k;
      assert Violated(v) in Reports(vs) && Violated(v).violation.Key() == k;
    }
  }

  lemma {:induction false} NotInPicks(keys: set<ViolationKey>, xs: seq<Report>)
    ensures forall x | x in NotIn(keys, xs) :: x in xs
  {
    if xs != [] {
      NotInPicks(keys, xs[..|xs| - 1]);
    }
  }

  lemma {:induction false} ViolationsAreTaken(next: Reporter, xs: seq<Report>)
    requires forall x | x in xs :: x.Violated?
    ensures Taken(next, xs) == xs
  {
    if xs != [] {
      var init, x := xs[..|xs| - 1], xs[|xs| - 1];
      assert xs == init + [x];
      ViolationsAreTaken(next, init);
    }
  }

  // ---------- the objects ----------

  class Baseline {
    var entries: Usage

    constructor ()
      ensures entries == map[]
    {
      entries := map[];
    }

    /** Registers an identity; one already there keeps its usage. */
    method Add(scope: string, op: Op)
      modifies this
      ensures entries == FreshUsage({KeyOf(scope, op)}) + old(entries)
    {
      var k := KeyOf(scope, op);
      if k !in entries {
        entries := entries[k := false];
      }
    }

    method Covers(k: ViolationKey) returns (covered: bool)
      modifies this
      ensures covered <==> k in old(entries)
      ensures entries == if covered then old(entries)[k := true] else old(entries)
    {
      if k !in entries {
        return false;
      }
      entries := entries[k := true];
      return true;
    }

    method Entries() returns (out: seq<ViolationKey>)
      ensures out == Listing(entries.Keys)
    {
      var collected := [];
      var rest := entries.Keys;
      while rest != {}
        invariant rest <= entries.Keys
        invariant forall i, j | 0 <= i < j < |collected| :: collected[i] != collected[j]
        invariant Elements(collected) == entries.Keys - rest
        decreases rest
      {
        var k :| k in rest;
        rest := rest - {k};
        assert k !in Elements(collected);
        assert Elements(collected + [k]) == Elements(collected) + {k};
        collected := collected + [k];
      }
      assert Elements(collected) == entries.Keys;
      out := SortKeys(collected);
    }

    method UnusedEntries() returns (out: seq<ViolationKey>)
      ensures out == Listing(Unused(entries))
    {
      var collected := [];
      var rest := entries.Keys;
      while rest != {}
        invariant rest <= entries.Keys
        invariant forall i, j | 0 <= i < j < |collected| :: collected[i] != collected[j]
        invariant Elements(collected) == set k | k in entries && k !in rest && !entries[k]
        decreases rest
      {
        var k :| k in rest;
        rest := rest - {k};
        if !entries[k] {
          assert k !in Elements(collected);
          assert Elements(collected + [k]) == Elements(collected) + {k};
          collected := collected + [k];
        }
      }
      assert Elements(collected) == Unused(entries);
      out := SortKeys(collected);
    }
  }

  /** A baseline from the violations of a run: their identities, whatever their order and however often
      each occurs. */
  method BaselineFromViolations(vs: seq<Violation>) returns (b: Baseline)
    ensures fresh(b) && b.entries == FreshUsage(KeysOf(vs))
  {
    b := new Baseline();
    for i := 0 to |vs|
      invariant b.entries == FreshUsage(KeysOf(vs[..i]))
    {
      assert vs[..i + 1] == vs[..i] + [vs[i]];
      assert KeysOf(vs[..i + 1]) == KeysOf(vs[..i]) + {vs[i].Key()};
      b.entries := b.entries[vs[i].Key() := false];
    }
    assert vs[..|vs|] == vs;
  }

  /** A baseline from the entries of a saved file. */
  method BaselineFromEntries(keys: seq<ViolationKey>) returns (b: Baseline)
    ensures fresh(b) && b.entries == FreshUsage(Elements(keys))
  {
    b := new Baseline();
    for i := 0 to |keys|
      invariant b.entries == FreshUsage(Elements(keys[..i]))
    {
      assert keys[..i + 1] == keys[..i] + [keys[i]];
      assert Elements(keys[..i + 1]) == Elements(keys[..i]) + {keys[i]};
      b.entries := b.entries[keys[i] := false];
    }
    assert keys[..|keys|] == keys;
  }

  /** Saving a baseline and loading it back: the same identities, in the same listing, none of them used. */
  method SaveAndLoad(b: Baseline) returns (loaded: Baseline)
    ensures loaded.entries.Keys == b.entries.Keys && Unused(loaded.entries) == b.entries.Keys
  {
    var saved := b.Entries();
    loaded := BaselineFromEntries(saved);
    assert Elements(saved) == b.entries.Keys;
  }

  class BaselineReporter {
    const baseline: Baseline?
    /** What the wrapped reporter takes, and what it has received. */
    const next: Reporter
    var forwarded: seq<Report>

    constructor (baseline: Baseline?, next: Reporter)
      ensures this.baseline == baseline && this.next == next && forwarded == []
    {
      this.baseline, this.next, forwarded := baseline, next, [];
    }

    /** The entries, none without a baseline. */
    ghost function Usage(): Usage
      reads baseline
    {
      if baseline == null then map[] else baseline.entries
    }

    /** One report: only violations are filtered. */
    method Receive(x: Report)
      modifies this`forwarded, baseline
      ensures Usage() == Marked(old(Usage()), x)
      ensures forwarded == old(forwarded) + if !Swallowed(old(Usage()), x) && Accepts(next, x) then [x] else []
    {
      if x.Violated? {
        var covered := false;
        if baseline != null {
          covered := baseline.Covers(x.violation.Key());
        }
        if covered {
          return;
        }
        forwarded := forwarded + [x];
      } else if Accepts(next, x) {
        forwarded := forwarded + [x];
      }
    }

    /** A stream of reports, one by one. */
    method ReceiveAll(xs: seq<Report>)
      modifies this`forwarded, baseline
      ensures forwarded == old(forwarded) + Taken(next, NotIn(old(Usage()).Keys, xs))
      ensures Unused(Usage()) == Unused(old(Usage())) - ViolatedIn(xs)
    {
      ghost var m := Usage();
      for i := 0 to |xs|
        invariant Usage() == MarkedAll(m, xs[..i])
        invariant forwarded == old(forwarded) + Passed(m, next, xs[..i])
      {
        assert xs[..i + 1][..i] == xs[..i];
        Receive(xs[i]);
      }
      assert xs[..|xs|] == xs;
      FilterIsExact(m, next, xs);
      UnusedAreUnseen(m, xs);
    }
  }
}

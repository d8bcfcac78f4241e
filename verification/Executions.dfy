/** A whole scope execution: a sequence of in-transaction events, then the finish of the scope. */
module Executions {
  import opened Types
  import opened Counts
  import opened Keys
  import opened Governance

  /** An event: its operation, how many transactions were open, the call-site option it was given, and the
      region of its context, as an index into the regions of the execution in creation order. */
  datatype Event = Event(op: Op, open: int, option: Option<Decl>, region: Option<nat>)

  datatype Region = Region(decl: Decl, calls: int)

  datatype Run = Run(calls: Calls, regions: seq<Region>, entries: Entries, violations: seq<Violation>) {
    predicate Admits(e: Event) {
      e.region.Some? ==> e.region.value < |regions|
    }

    /** What `e` sees. */
    function For(e: Event): Gov
      requires Admits(e)
    {
      Gov(calls, if e.region.Some? then regions[e.region.value].calls else 0, entries)
    }

    function RegionDecl(e: Event): Option<Decl>
      requires Admits(e)
    {
      if e.region.Some? then Some(regions[e.region.value].decl) else None
    }

    function OutcomeOf(scope: string, e: Event): Outcome
      requires Admits(e)
    {
      CoveredBy(For(e), KeyOf(scope, e.op), e.option, RegionDecl(e))
    }

    function ViolationBy(scope: string, e: Event): Option<Violation>
      requires Admits(e)
    {
      ViolationOf(For(e), scope, e.op, e.open, e.option, RegionDecl(e))
    }

    function After(scope: string, e: Event): Run
      requires Admits(e)
    {
      var g := GovAfter(For(e), KeyOf(scope, e.op), e.option, RegionDecl(e));
      var v := ViolationBy(scope, e);
      Run(g.calls,
          if e.region.Some? then regions[e.region.value := regions[e.region.value].(calls := g.regionCalls)]
          else regions,
          g.entries,
          violations + if v.Some? then [v.value] else [])
    }
  }

  predicate AllAdmitted(r: Run, es: seq<Event>) {
    forall e | e in es :: r.Admits(e)
  }

  function Execute(scope: string, r: Run, es: seq<Event>): (r': Run)
    requires AllAdmitted(r, es)
    ensures |r'.regions| == |r.regions|
    ensures forall i | 0 <= i < |r.regions| :: r'.regions[i].decl == r.regions[i].decl
    ensures r'.entries.Keys == r.entries.Keys
    ensures forall k | k in r.entries :: r'.entries[k].(used := r.entries[k].used) == r.entries[k]
  {
    if es == [] then r
    else
      var p := Execute(scope, r, es[..|es| - 1]);
      var e := es[|es| - 1];
      assert e in es;
      EveryEntryKept(p.For(e), KeyOf(scope, e.op), e.option, p.RegionDecl(e));
      p.After(scope, e)
  }

  lemma EveryEntryKept(g: Gov, key: ViolationKey, option: Option<Decl>, region: Option<Decl>)
    ensures var after := GovAfter(g, key, option, region).entries;
            && after.Keys == g.entries.Keys
            && forall k | k in g.entries :: after[k].(used := g.entries[k].used) == g.entries[k]
  {
  }

  /** A fresh execution, with the regions its contexts will use and the Allowlist in force. */
  predicate IsFresh(r: Run) {
    r.calls == map[] && r.violations == [] && forall x | x in r.regions :: x.calls == 0
  }

  function Events(scope: string, es: seq<Event>, key: ViolationKey): nat {
    if es == [] then 0
    else Events(scope, es[..|es| - 1], key) + if KeyOf(scope, es[|es| - 1].op) == key then 1 else 0
  }

  function CallsReported(vs: seq<Violation>, key: ViolationKey): seq<int> {
    if vs == [] then []
    else
      var v := vs[|vs| - 1];
      CallsReported(vs[..|vs| - 1], key) + if v.Key() == key then [v.call] else []
  }

  function Range(from: int, to: int): seq<int> {
    if from < to then seq(to - from, i => from + i) else []
  }

  // ---------- the finish ----------

  function IdentityShortfall(scope: string, key: ViolationKey, c: CallCount): seq<StaleAllow> {
    if c.declared != [] && FallsShort(c.declared, c.n) then
      [StaleAllow(scope, Op(key.kind, key.name), c.reason, c.n, c.declared)]
    else []
  }

  function IdentityShortfalls(scope: string, calls: Calls, keys: seq<ViolationKey>): seq<StaleAllow>
    requires forall k | k in keys :: k in calls
  {
    if keys == [] then []
    else
      IdentityShortfalls(scope, calls, keys[..|keys| - 1])
      + IdentityShortfall(scope, keys[|keys| - 1], calls[keys[|keys| - 1]])
  }

  lemma OneIdentityMore(scope: string, calls: Calls, keys: seq<ViolationKey>, i: nat)
    requires i < |keys| && forall k | k in keys :: k in calls
    ensures IdentityShortfalls(scope, calls, keys[..i + 1]) ==
            IdentityShortfalls(scope, calls, keys[..i]) + IdentityShortfall(scope, keys[i], calls[keys[i]])
  {
    assert keys[..i + 1][..i] == keys[..i];
  }

  function RegionShortfall(scope: string, r: Region): seq<StaleAllow> {
    if r.decl.counts != [] && FallsShort(r.decl.counts, r.calls) then
      [StaleAllow(scope, Op("", ""), r.decl.reason, r.calls, r.decl.counts)]
    else []
  }

  function RegionShortfalls(scope: string, regions: seq<Region>): seq<StaleAllow> {
    if regions == [] then []
    else RegionShortfalls(scope, regions[..|regions| - 1]) + RegionShortfall(scope, regions[|regions| - 1])
  }

  function DeclaredKeys(calls: Calls): set<ViolationKey> {
    set k | k in calls && calls[k].declared != []
  }

  /** What the finish reports: identities in sorted order, then counted regions in creation order. */
  ghost function Shortfalls(scope: string, calls: Calls, regions: seq<Region>): seq<StaleAllow> {
    IdentityShortfalls(scope, calls, Listing(DeclaredKeys(calls))) + RegionShortfalls(scope, regions)
  }

  // ---------- totals ----------

  /** The account of `key` after `n` of its events. */
  predicate Counted(calls: Calls, key: ViolationKey, n: nat) {
    CallsSoFar(calls, key) == n && (key in calls <==> n > 0)
  }

  lemma NotedKeepsCounts(calls: Calls, key: ViolationKey, d: Option<Decl>, other: ViolationKey)
    ensures var after := NotedIf(calls, key, d);
      && after.Keys == calls.Keys
      && CallsSoFar(after, other) == CallsSoFar(calls, other)
      && (other != key && other in calls ==> after[other] == calls[other])
  {
  }

  lemma CallsAfterCounts(calls: Calls, key: ViolationKey, option: Option<Decl>, asked: Option<Decl>,
      other: ViolationKey, n: nat)
    requires Counted(calls, other, n)
    ensures var after := CallsAfter(calls, key, option, asked);
      && Counted(after, other, if other == key then n + 1 else n)
      && (other != key && other in calls ==> after[other] == calls[other])
  {
    NotedKeepsCounts(Bumped(calls, key), key, option, other);
    NotedKeepsCounts(NotedIf(Bumped(calls, key), key, option), key, asked, other);
  }

  lemma {:induction false} EventsAreCounted(scope: string, r: Run, es: seq<Event>, key: ViolationKey)
    requires r.calls == map[] && AllAdmitted(r, es)
    ensures Counted(Execute(scope, r, es).calls, key, Events(scope, es, key))
  {
    if es != [] {
      var init, e := es[..|es| - 1], es[|es| - 1];
      EventsAreCounted(scope, r, init, key);
      var p := Execute(scope, r, init);
      assert e in es;
      var who := p.OutcomeOf(scope, e);
      CallsAfterCounts(p.calls, KeyOf(scope, e.op), e.option,
                       if who.ByEntry? || who.Uncovered? then EntryDecl(p.entries, KeyOf(scope, e.op)) else None,
                       key, Events(scope, init, key));
    }
  }

  // ---------- growth and shrinkage both surface ----------

  /** The account of `key` after `n` events that all consulted the counted declaration `d`. Past the
      maximum the declaration kept may be another tier's, but only one that is exceeded too. */
  predicate Pinned(calls: Calls, key: ViolationKey, d: Decl, n: nat) {
    && Counted(calls, key, n)
    && (0 < n <= Largest(d.counts) ==> calls[key].declared == d.counts && calls[key].reason == d.reason)
    && (0 < n && Largest(d.counts) < n ==> calls[key].declared != [] && Largest(calls[key].declared) < n)
  }

  /** The calls of `key` reported after `n` of its events: those past the maximum, in order. */
  predicate ReportsExcess(vs: seq<Violation>, key: ViolationKey, d: Decl, n: nat) {
    CallsReported(vs, key) == Range(Largest(d.counts) + 1, n + 1)
  }

  lemma ReportedSnoc(vs: seq<Violation>, v: Option<Violation>, key: ViolationKey)
    ensures var more := if v.Some? then [v.value] else [];
            CallsReported(vs + more, key) ==
            CallsReported(vs, key) + if v.Some? && v.value.Key() == key then [v.value.call] else []
  {
    if v.Some? {
      assert (vs + [v.value])[..|vs|] == vs;
    } else {
      assert vs + [] == vs;
    }
  }

  lemma OtherEventKeepsPinned(scope: string, r: Run, e: Event, key: ViolationKey, d: Decl, n: nat)
    requires r.Admits(e) && KeyOf(scope, e.op) != key
    requires Pinned(r.calls, key, d, n) && ReportsExcess(r.violations, key, d, n)
    ensures var r' := r.After(scope, e); Pinned(r'.calls, key, d, n) && ReportsExcess(r'.violations, key, d, n)
  {
    var k, who := KeyOf(scope, e.op), r.OutcomeOf(scope, e);
    CallsAfterCounts(r.calls, k, e.option, if who.ByEntry? || who.Uncovered? then EntryDecl(r.entries, k) else None,
        key, n);
    ReportedSnoc(r.violations, r.ViolationBy(scope, e), key);
  }

  /** The tier that decides for `e`'s identity when regions stay out of it: its option, or without one the
      Allowlist's entry. */
  function DecidingTier(e: Event): Outcome {
    if e.option.Some? then ByOption else ByEntry
  }

  function Consulted(scope: string, entries: Entries, e: Event): Option<Decl> {
    if e.option.Some? then e.option else EntryDecl(entries, KeyOf(scope, e.op))
  }

  /** `e` consults `d`, and no other tier covers it. */
  predicate DecidedBy(scope: string, r: Run, e: Event, d: Decl)
    requires r.Admits(e)
  {
    && Consulted(scope, r.entries, e) == Some(d)
    && (r.OutcomeOf(scope, e) == DecidingTier(e) || r.OutcomeOf(scope, e).Uncovered?)
  }

  lemma OwnEventIsCovered(scope: string, r: Run, e: Event, d: Decl, n: nat)
    requires r.Admits(e) && d.counts != [] && Counted(r.calls, KeyOf(scope, e.op), n) && DecidedBy(scope, r, e, d)
    ensures r.OutcomeOf(scope, e).Uncovered? <==> Largest(d.counts) < n + 1
    ensures r.OutcomeOf(scope, e).Uncovered? ==>
      forall ed | EntryDecl(r.entries, KeyOf(scope, e.op)) == Some(ed) :: ed.counts != [] && Largest(ed.counts) < n + 1
  {
  }

  lemma OwnEventPins(scope: string, r: Run, e: Event, d: Decl, n: nat)
    requires r.Admits(e) && d.counts != [] && Pinned(r.calls, KeyOf(scope, e.op), d, n) && DecidedBy(scope, r, e, d)
    ensures Pinned(r.After(scope, e).calls, KeyOf(scope, e.op), d, n + 1)
  {
    var key, who := KeyOf(scope, e.op), r.OutcomeOf(scope, e);
    var asked := if who.ByEntry? || who.Uncovered? then EntryDecl(r.entries, key) else None;
    OwnEventIsCovered(scope, r, e, d, n);
    CallsAfterCounts(r.calls, key, e.option, asked, key, n);
    var noted := NotedIf(Bumped(r.calls, key), key, e.option);
    assert r.After(scope, e).calls == NotedIf(noted, key, asked);
    assert e.option.Some? ==> noted[key].declared == d.counts && noted[key].reason == d.reason;
  }

  lemma RangeGrows(max: int, n: nat, asked: bool)
    requires 0 <= max
    ensures Range(max + 1, n + 1) + (if asked && max < n + 1 then [n + 1] else []) ==
            Range(max + 1, (if asked then n + 1 else n) + 1)
  {
  }

  lemma ExcessGrows(vs: seq<Violation>, key: ViolationKey, d: Decl, n: nat, v: Option<Violation>)
    requires ReportsExcess(vs, key, d, n)
    requires v.Some? <==> Largest(d.counts) < n + 1
    requires v.Some? ==> v.value.Key() == key && v.value.call == n + 1
    ensures ReportsExcess(vs + if v.Some? then [v.value] else [], key, d, n + 1)
  {
    ReportedSnoc(vs, v, key);
    RangeGrows(Largest(d.counts), n, true);
  }

  lemma OwnEventReportsExcess(scope: string, r: Run, e: Event, d: Decl, n: nat)
    requires r.Admits(e) && d.counts != [] && Counted(r.calls, KeyOf(scope, e.op), n) && DecidedBy(scope, r, e, d)
    requires ReportsExcess(r.violations, KeyOf(scope, e.op), d, n)
    ensures ReportsExcess(r.After(scope, e).violations, KeyOf(scope, e.op), d, n + 1)
  {
    OwnEventIsCovered(scope, r, e, d, n);
    ExcessGrows(r.violations, KeyOf(scope, e.op), d, n, r.ViolationBy(scope, e));
  }

  /** While `es` executes, every event of `key` consults `d` and is covered by no other tier. Events of
      other identities are free. */
  predicate AllDecidedBy(scope: string, r: Run, es: seq<Event>, key: ViolationKey, d: Decl)
    requires AllAdmitted(r, es)
  {
    es == [] ||
      var init, e := es[..|es| - 1], es[|es| - 1];
      assert e in es;
      && AllDecidedBy(scope, r, init, key, d)
      && (KeyOf(scope, e.op) == key ==> DecidedBy(scope, Execute(scope, r, init), e, d))
  }

  lemma {:induction false} DeclarationPinsIdentity(scope: string, r: Run, es: seq<Event>, key: ViolationKey, d: Decl)
    requires IsFresh(r) && AllAdmitted(r, es) && d.counts != [] && AllDecidedBy(scope, r, es, key, d)
    ensures var r' := Execute(scope, r, es); var n := Events(scope, es, key);
            Pinned(r'.calls, key, d, n) && ReportsExcess(r'.violations, key, d, n)
  {
    if es != [] {
      var init, e := es[..|es| - 1], es[|es| - 1];
      DeclarationPinsIdentity(scope, r, init, key, d);
      assert e in es;
      var p, n := Execute(scope, r, init), Events(scope, init, key);
      if KeyOf(scope, e.op) == key {
        OwnEventPins(scope, p, e, d, n);
        OwnEventReportsExcess(scope, p, e, d, n);
      } else {
        OtherEventKeepsPinned(scope, p, e, key, d, n);
      }
    }
  }

  // ---------- what the finish says of one identity ----------

  function About(stale: seq<StaleAllow>, op: Op): seq<StaleAllow> {
    if stale == [] then []
    else
      var last := stale[|stale| - 1];
      About(stale[..|stale| - 1], op) + if last.op == op then [last] else []
  }

  /** The sorted pass over the identities reports each at most once, and one that is not listed never. */
  lemma {:induction false} FinishReportsEachIdentityOnce(scope: string, calls: Calls, keys: seq<ViolationKey>,
      key: ViolationKey)
    requires StrictlySorted(keys) && (forall k | k in keys :: k in calls && k.scope == scope) && key.scope == scope
    ensures About(IdentityShortfalls(scope, calls, keys), Op(key.kind, key.name)) ==
            if key in keys then IdentityShortfall(scope, key, calls[key]) else []
  {
    if keys != [] {
      var n := |keys| - 1;
      var init, last := keys[..n], keys[n];
      FinishReportsEachIdentityOnce(scope, calls, init, key);
      forall i | 0 <= i < n ensures keys[i] != last { StrictPart(keys[i], last); }
      assert last !in init;
      var before, mine := IdentityShortfalls(scope, calls, init), IdentityShortfall(scope, last, calls[last]);
      if mine == [] {
        assert before + mine == before;
      } else {
        assert (before + mine)[..|before|] == before;
      }
    }
  }

  /** The reports come in the order of their identities. */
  lemma {:induction false} ShortfallsInOrder(scope: string, calls: Calls, keys: seq<ViolationKey>)
    requires StrictlySorted(keys) && forall k | k in keys :: k in calls && k.scope == scope
    ensures forall x | x in IdentityShortfalls(scope, calls, keys) :: KeyOf(scope, x.op) in keys
    ensures InOrder(scope, IdentityShortfalls(scope, calls, keys))
  {
    if keys != [] {
      var n := |keys| - 1;
      ShortfallsInOrder(scope, calls, keys[..n]);
      var before, mine := IdentityShortfalls(scope, calls, keys[..n]),
          IdentityShortfall(scope, keys[n], calls[keys[n]]);
      forall x | x in before ensures Less(KeyOf(scope, x.op), keys[n]) {
        var i :| 0 <= i < n && keys[..n][i] == KeyOf(scope, x.op);
        assert keys[i] == KeyOf(scope, x.op);
      }
      InOrderSnoc(scope, before, mine, keys[n]);
    }
  }

  predicate InOrder(scope: string, xs: seq<StaleAllow>) {
    forall i, j | 0 <= i < j < |xs| :: Less(KeyOf(scope, xs[i].op), KeyOf(scope, xs[j].op))
  }

  lemma InOrderSnoc(scope: string, xs: seq<StaleAllow>, more: seq<StaleAllow>, key: ViolationKey)
    requires InOrder(scope, xs) && |more| <= 1 && forall x | x in more :: KeyOf(scope, x.op) == key
    requires forall x | x in xs :: Less(KeyOf(scope, x.op), key)
    ensures InOrder(scope, xs + more)
  {
  }

  lemma {:induction false} AboutConcat(a: seq<StaleAllow>, b: seq<StaleAllow>, op: Op)
    ensures About(a + b, op) == About(a, op) + About(b, op)
  {
    if b == [] {
      assert a + b == a;
    } else {
      AboutConcat(a, b[..|b| - 1], op);
      assert (a + b)[..|a + b| - 1] == a + b[..|b| - 1];
    }
  }

  /** Reports about regions name no operation. */
  lemma {:induction false} RegionsNameNoOperation(scope: string, regions: seq<Region>, op: Op)
    ensures About(RegionShortfalls(scope, regions), op) ==
            if op == Op("", "") then RegionShortfalls(scope, regions) else []
  {
    if regions != [] {
      var init, last := regions[..|regions| - 1], regions[|regions| - 1];
      RegionsNameNoOperation(scope, init, op);
      var before, mine := RegionShortfalls(scope, init), RegionShortfall(scope, last);
      AboutConcat(before, mine, op);
      if mine != [] {
        assert mine[..0] == [];
      }
    }
  }

  lemma {:induction false} AccountsCarryScope(scope: string, r: Run, es: seq<Event>)
    requires r.calls == map[] && AllAdmitted(r, es)
    ensures forall k | k in Execute(scope, r, es).calls :: k.scope == scope
  {
    if es != [] {
      var init, e := es[..|es| - 1], es[|es| - 1];
      AccountsCarryScope(scope, r, init);
      assert e in es;
      var p := Execute(scope, r, init);
      EveryEventIsCountedOnce(p.For(e), KeyOf(scope, e.op), e.option, p.RegionDecl(e));
    }
  }

  /** The reports about regions that a finish adds to those about `op`: none, but for the operation with no
      kind and no name, under which they are. */
  function RegionsAbout(scope: string, r: Run, op: Op): seq<StaleAllow> {
    if op == Op("", "") then RegionShortfalls(scope, r.regions) else []
  }

  /** What a finish reports under an operation: what the account of its identity demands, if there is one,
      and, for the operation with no kind and no name only, the regions. */
  ghost predicate FinishSays(scope: string, r: Run, op: Op) {
    var key := KeyOf(scope, op);
    About(Shortfalls(scope, r.calls, r.regions), op) ==
      (if key in r.calls then IdentityShortfall(scope, key, r.calls[key]) else []) + RegionsAbout(scope, r, op)
  }

  lemma FinishAbout(scope: string, r: Run, op: Op)
    requires forall k | k in r.calls :: k.scope == scope
    ensures FinishSays(scope, r, op)
  {
    var keys := Listing(DeclaredKeys(r.calls));
    FinishReportsEachIdentityOnce(scope, r.calls, keys, KeyOf(scope, op));
    RegionsNameNoOperation(scope, r.regions, op);
    AboutConcat(IdentityShortfalls(scope, r.calls, keys), RegionShortfalls(scope, r.regions), op);
  }

  /** The one finish-time report of a total that falls short of `d`. */
  function Short(scope: string, op: Op, d: Decl, n: nat): seq<StaleAllow> {
    if d.counts != [] && n <= Largest(d.counts) && n !in d.counts then [StaleAllow(scope, op, d.reason, n, d.counts)]
    else []
  }

  /** What a run with `n` events of `op` under the counted declaration `d` must have reported by the end of
      its finish: the calls past the maximum as violations, and the identity once exactly when the total
      stopped short of the maximum without being declared; nothing at all exactly when `n` is declared. */
  ghost predicate Surfaces(scope: string, r: Run, op: Op, d: Decl, n: nat) {
    SaysExactly(CallsReported(r.violations, KeyOf(scope, op)), About(Shortfalls(scope, r.calls, r.regions), op),
                Short(scope, op, d, n), RegionsAbout(scope, r, op), d, n)
  }

  predicate SaysExactly(calls: seq<int>, finish: seq<StaleAllow>, short: seq<StaleAllow>, others: seq<StaleAllow>,
                        d: Decl, n: nat)
  {
    && calls == Range(Largest(d.counts) + 1, n + 1)
    && finish == short + others
    && (calls == [] && finish == others <==> n in d.counts)
  }

  lemma ShortOrExcess(calls: seq<int>, finish: seq<StaleAllow>, short: seq<StaleAllow>, others: seq<StaleAllow>,
                      d: Decl, n: nat)
    requires 0 < n && calls == Range(Largest(d.counts) + 1, n + 1) && finish == short + others
    requires short == [] <==> n in d.counts || Largest(d.counts) < n
    ensures SaysExactly(calls, finish, short, others, d, n)
  {
    RangeIsEmpty(Largest(d.counts) + 1, n + 1);
    AddsNothing(short, others);
  }

  lemma PinnedFallsShort(scope: string, calls: Calls, op: Op, d: Decl, n: nat)
    requires Pinned(calls, KeyOf(scope, op), d, n) && 0 < n && d.counts != []
    ensures KeyOf(scope, op) in calls
    ensures IdentityShortfall(scope, KeyOf(scope, op), calls[KeyOf(scope, op)]) == Short(scope, op, d, n)
  {
  }

  lemma PinnedSurfaces(scope: string, r: Run, op: Op, d: Decl, n: nat)
    requires d.counts != [] && 0 < n && ReportsExcess(r.violations, KeyOf(scope, op), d, n)
    requires Pinned(r.calls, KeyOf(scope, op), d, n) && FinishSays(scope, r, op)
    ensures Surfaces(scope, r, op, d, n)
  {
    PinnedFallsShort(scope, r.calls, op, d, n);
    ShortOrExcess(CallsReported(r.violations, KeyOf(scope, op)), About(Shortfalls(scope, r.calls, r.regions), op),
                  Short(scope, op, d, n), RegionsAbout(scope, r, op), d, n);
  }

  /** Growth and shrinkage both surface: whatever else runs in the scope, when the events of an operation
      all consult one counted declaration and nothing else covers them, what the run and its finish report
      of it depends on their number alone, in the way `Surfaces` says. */
  lemma GrowthAndShrinkage(scope: string, r: Run, es: seq<Event>, op: Op, d: Decl)
    requires IsFresh(r) && AllAdmitted(r, es) && d.counts != [] && AllDecidedBy(scope, r, es, KeyOf(scope, op), d)
    requires Events(scope, es, KeyOf(scope, op)) > 0
    ensures Surfaces(scope, Execute(scope, r, es), op, d, Events(scope, es, KeyOf(scope, op)))
  {
    DeclarationPinsIdentity(scope, r, es, KeyOf(scope, op), d);
    AccountsCarryScope(scope, r, es);
    FinishAbout(scope, Execute(scope, r, es), op);
    PinnedSurfaces(scope, Execute(scope, r, es), op, d, Events(scope, es, KeyOf(scope, op)));
  }

  lemma RangeIsEmpty(from: int, to: int)
    ensures Range(from, to) == [] <==> to <= from
  {
    assert from < to ==> |Range(from, to)| == to - from;
  }

  lemma AddsNothing<T>(a: seq<T>, b: seq<T>)
    ensures a + b == b <==> a == []
  {
    assert |a + b| == |a| + |b|;
    assert a == [] ==> a + b == b;
  }
}

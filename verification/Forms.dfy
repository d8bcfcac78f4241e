/** The three exemption forms decide alike: which one to use is about where the exemption lives. */
module Forms {
  import opened Types
  import opened Counts
  import opened Keys
  import opened Governance
  import opened Executions

  /** `|opens|` events of one operation, each with its number of open transactions, all carrying `option`
      and running under `region`. */
  function Same(op: Op, opens: seq<int>, option: Option<Decl>, region: Option<nat>): seq<Event> {
    seq(|opens|, i requires 0 <= i < |opens| => Event(op, opens[i], option, region))
  }

  function Start(regions: seq<Region>, entries: Entries): Run {
    Run(map[], regions, entries, [])
  }

  /** The violations of the events so far under the declaration `d`: every call past its maximum. */
  function Excess(scope: string, op: Op, d: Decl, opens: seq<int>): seq<Violation> {
    if opens == [] then []
    else
      var n := |opens|;
      Excess(scope, op, d, opens[..n - 1])
      + if Covers(d.counts, n) then [] else [Violation(op, scope, opens[n - 1], n, d.counts)]
  }

  /** The accounts an identity form leaves after `n` events. */
  function Account(key: ViolationKey, d: Decl, n: nat): Calls {
    if n == 0 then map[] else map[key := CallCount(n, d.counts, if d.counts == [] then "" else d.reason)]
  }

  /** The accounts a region form leaves: the identity is counted, nothing is declared for it. */
  function BareAccount(key: ViolationKey, n: nat): Calls {
    if n == 0 then map[] else map[key := CallCount(n, [], "")]
  }

  lemma SameSnoc(op: Op, opens: seq<int>, option: Option<Decl>, region: Option<nat>)
    requires opens != []
    ensures var es := Same(op, opens, option, region); var n := |opens| - 1;
            && |es| == n + 1 && es[..n] == Same(op, opens[..n], option, region)
            && es[n] == Event(op, opens[n], option, region)
  {
  }

  /** Counting one more event and noting `d` for it, as the option or as the entry, extends the account. */
  lemma AccountStep(key: ViolationKey, d: Decl, n: nat, option: Option<Decl>, asked: Option<Decl>)
    requires (option == Some(d) && asked == None) || (option == None && asked == Some(d))
    ensures CallsAfter(Account(key, d, n), key, option, asked) == Account(key, d, n + 1)
  {
  }

  lemma ExcessStep(scope: string, op: Op, d: Decl, opens: seq<int>, v: Option<Violation>)
    requires opens != []
    requires v == Overrun(scope, op, opens[|opens| - 1], d, |opens|)
    ensures Excess(scope, op, d, opens[..|opens| - 1]) + (if v.Some? then [v.value] else []) ==
        Excess(scope, op, d, opens)
  {
  }

  /** The violation of call `k` under `d`, if any. */
  function Overrun(scope: string, op: Op, open: int, d: Decl, k: int): Option<Violation> {
    if Covers(d.counts, k) then None else Some(Violation(op, scope, open, k, d.counts))
  }

  lemma OptionRuling(g: Gov, scope: string, op: Op, open: int, d: Decl)
    requires g.entries == map[]
    ensures var key := KeyOf(scope, op);
      && ViolationOf(g, scope, op, open, Some(d), None) == Overrun(scope, op, open, d, CallsSoFar(g.calls, key) + 1)
      && GovAfter(g, key, Some(d), None) == Gov(CallsAfter(g.calls, key, Some(d), None), g.regionCalls, map[])
  {
    Nothing(d.counts);
  }

  lemma EntryRuling(g: Gov, scope: string, op: Op, open: int, d: Decl, at: ViolationKey, used: bool)
    requires g.entries == map[at := Entry(d.reason, d.counts, used)] && IsEntryFor(at, KeyOf(scope, op))
    ensures var key := KeyOf(scope, op);
      var k := CallsSoFar(g.calls, key) + 1;
      && ViolationOf(g, scope, op, open, None, None) == Overrun(scope, op, open, d, k)
      && GovAfter(g, key, None, None) == Gov(CallsAfter(g.calls, key, None, Some(d)), g.regionCalls,
                                             map[at := Entry(d.reason, d.counts, used || Covers(d.counts, k))])
  {
    var none: seq<int> := [];
    Nothing(none);
    Nothing(d.counts);
  }

  lemma OptionStep(scope: string, op: Op, d: Decl, opens: seq<int>)
    requires opens != []
    ensures var n := |opens| - 1;
      Run(Account(KeyOf(scope, op), d, n), [], map[], Excess(scope, op, d, opens[..n]))
      .After(scope, Event(op, opens[n], Some(d), None))
      == Run(Account(KeyOf(scope, op), d, n + 1), [], map[], Excess(scope, op, d, opens))
  {
    var n, key := |opens| - 1, KeyOf(scope, op);
    var r, e := Run(Account(key, d, n), [], map[], Excess(scope, op, d, opens[..n])),
        Event(op, opens[n], Some(d), None);
    AccountStep(key, d, n, Some(d), None);
    OptionRuling(r.For(e), scope, op, opens[n], d);
    ExcessStep(scope, op, d, opens, r.ViolationBy(scope, e));
  }

  lemma {:induction false} OptionForm(scope: string, op: Op, d: Decl, opens: seq<int>)
    ensures AllAdmitted(Start([], map[]), Same(op, opens, Some(d), None))
    ensures Execute(scope, Start([], map[]), Same(op, opens, Some(d), None)) ==
            Run(Account(KeyOf(scope, op), d, |opens|), [], map[], Excess(scope, op, d, opens))
  {
    if opens == [] {
      assert Same(op, opens, Some(d), None) == [];
    } else {
      SameSnoc(op, opens, Some(d), None);
      OptionForm(scope, op, d, opens[..|opens| - 1]);
      OptionStep(scope, op, d, opens);
    }
  }

  lemma RegionStep(scope: string, op: Op, d: Decl, opens: seq<int>)
    requires opens != []
    ensures var n := |opens| - 1;
      Run(BareAccount(KeyOf(scope, op), n), [Region(d, n)], map[], Excess(scope, op, d, opens[..n]))
      .After(scope, Event(op, opens[n], None, Some(0)))
      == Run(BareAccount(KeyOf(scope, op), n + 1), [Region(d, n + 1)], map[], Excess(scope, op, d, opens))
  {
    Nothing(d.counts);
  }

  lemma {:induction false} RegionForm(scope: string, op: Op, d: Decl, opens: seq<int>)
    ensures AllAdmitted(Start([Region(d, 0)], map[]), Same(op, opens, None, Some(0)))
    ensures Execute(scope, Start([Region(d, 0)], map[]), Same(op, opens, None, Some(0))) ==
            Run(BareAccount(KeyOf(scope, op), |opens|), [Region(d, |opens|)], map[], Excess(scope, op, d, opens))
  {
    if opens == [] {
      assert Same(op, opens, None, Some(0)) == [];
    } else {
      SameSnoc(op, opens, None, Some(0));
      RegionForm(scope, op, d, opens[..|opens| - 1]);
      RegionStep(scope, op, d, opens);
    }
  }

  /** An entry for the identity, under its own scope or for any scope. */
  predicate IsEntryFor(at: ViolationKey, key: ViolationKey) {
    at == key || at == ViolationKey(ANY_SCOPE, key.kind, key.name)
  }

  function EntryAfter(d: Decl, n: nat): Entry {
    Entry(d.reason, d.counts, n > 0 && Covers(d.counts, 1))
  }

  lemma EntryStep(scope: string, op: Op, d: Decl, at: ViolationKey, opens: seq<int>)
    requires opens != [] && IsEntryFor(at, KeyOf(scope, op))
    ensures var n := |opens| - 1;
      Run(Account(KeyOf(scope, op), d, n), [], map[at := EntryAfter(d, n)], Excess(scope, op, d, opens[..n]))
      .After(scope, Event(op, opens[n], None, None))
      == Run(Account(KeyOf(scope, op), d, n + 1), [], map[at := EntryAfter(d, n + 1)], Excess(scope, op, d, opens))
  {
    var n, key := |opens| - 1, KeyOf(scope, op);
    var r := Run(Account(key, d, n), [], map[at := EntryAfter(d, n)], Excess(scope, op, d, opens[..n]));
    var e := Event(op, opens[n], None, None);
    AccountStep(key, d, n, None, Some(d));
    EntryRuling(r.For(e), scope, op, opens[n], d, at, EntryAfter(d, n).used);
    ExcessStep(scope, op, d, opens, r.ViolationBy(scope, e));
  }

  lemma {:induction false} EntryForm(scope: string, op: Op, d: Decl, at: ViolationKey, opens: seq<int>)
    requires IsEntryFor(at, KeyOf(scope, op))
    ensures AllAdmitted(Start([], map[at := Entry(d.reason, d.counts, false)]), Same(op, opens, None, None))
    ensures Execute(scope, Start([], map[at := Entry(d.reason, d.counts, false)]), Same(op, opens, None, None)) ==
            Run(Account(KeyOf(scope, op), d, |opens|), [],
                map[at := EntryAfter(d, |opens|)], Excess(scope, op, d, opens))
  {
    if opens == [] {
      assert Same(op, opens, None, None) == [];
    } else {
      SameSnoc(op, opens, None, None);
      EntryForm(scope, op, d, at, opens[..|opens| - 1]);
      EntryStep(scope, op, d, at, opens);
    }
  }

  ghost function FinishOf(scope: string, r: Run): seq<StaleAllow> {
    Shortfalls(scope, r.calls, r.regions)
  }

  lemma FinishOfAccount(scope: string, key: ViolationKey, d: Decl, n: nat)
    requires 0 < n
    ensures Shortfalls(scope, Account(key, d, n), []) == Short(scope, Op(key.kind, key.name), d, n)
  {
    var calls := Account(key, d, n);
    var keys := if d.counts == [] then [] else [key];
    assert Lists(keys, DeclaredKeys(calls));
    ListingIsUnique(keys, Listing(DeclaredKeys(calls)), DeclaredKeys(calls));
    Nothing(IdentityShortfalls(scope, calls, keys));
    Nothing(IdentityShortfall(scope, key, calls[key]));
    if d.counts != [] {
      assert keys[..0] == [];
      assert IdentityShortfalls(scope, calls, []) == [];
      assert IdentityShortfalls(scope, calls, keys) == IdentityShortfall(scope, key, calls[key]);
    }
  }

  lemma FinishOfRegion(scope: string, key: ViolationKey, d: Decl, n: nat)
    ensures Shortfalls(scope, BareAccount(key, n), [Region(d, n)]) == Short(scope, Op("", ""), d, n)
  {
    var calls := BareAccount(key, n);
    assert Lists([], DeclaredKeys(calls));
    ListingIsUnique([], Listing(DeclaredKeys(calls)), DeclaredKeys(calls));
    assert [Region(d, n)][..0] == [];
    assert RegionShortfalls(scope, []) == [];
    Nothing(RegionShortfalls(scope, [Region(d, n)]));
    Nothing(RegionShortfall(scope, Region(d, n)));
  }

  /** Same counts, same events, same reports. For one or more in-transaction events of one operation, the
      call-site option, one region and one Allowlist entry yield the same violations, with the same call
      numbers and allowed calls, and the same finish-time reports, except that the region's names no
      operation. */
  lemma FormsDecideIdentically(scope: string, op: Op, d: Decl, at: ViolationKey, opens: seq<int>)
    requires opens != [] && IsEntryFor(at, KeyOf(scope, op))
    ensures AllAdmitted(Start([], map[]), Same(op, opens, Some(d), None))
    ensures AllAdmitted(Start([Region(d, 0)], map[]), Same(op, opens, None, Some(0)))
    ensures AllAdmitted(Start([], map[at := Entry(d.reason, d.counts, false)]), Same(op, opens, None, None))
    ensures var byOption := Execute(scope, Start([], map[]), Same(op, opens, Some(d), None));
      var byRegion := Execute(scope, Start([Region(d, 0)], map[]), Same(op, opens, None, Some(0)));
      var byEntry :=
          Execute(scope, Start([], map[at := Entry(d.reason, d.counts, false)]), Same(op, opens, None, None));
      && byOption.violations == byRegion.violations == byEntry.violations == Excess(scope, op, d, opens)
      && FinishOf(scope, byOption) == FinishOf(scope, byEntry) == Short(scope, op, d, |opens|)
      && FinishOf(scope, byRegion) == Short(scope, Op("", ""), d, |opens|)
  {
    var key := KeyOf(scope, op);
    OptionForm(scope, op, d, opens);
    RegionForm(scope, op, d, opens);
    EntryForm(scope, op, d, at, opens);
    FinishOfAccount(scope, key, d, |opens|);
    FinishOfRegion(scope, key, d, |opens|);
  }

  /** With no event at all the forms part: a counted region is checked whenever it was created, so it is
      reported unless 0 is declared; an identity that saw nothing has no account to check. */
  lemma FormsPartOnNoEvents(scope: string, d: Decl)
    requires d.counts != []
    ensures Shortfalls(scope, map[], []) == []
    ensures Shortfalls(scope, map[], [Region(d, 0)]) == [] <==> 0 in d.counts
  {
    FinishOfRegion(scope, ViolationKey("", "", ""), d, 0);
    assert Lists([], DeclaredKeys(map[]));
    ListingIsUnique([], Listing(DeclaredKeys(map[])), DeclaredKeys(map[]));
  }
}

/** Exact-call governance: how one in-transaction event is resolved against the three exemption tiers, and
    what a whole scope execution then reports. */
module Governance {
  import opened Types
  import opened Counts

  /** Per identity: its events so far and the exact-call declaration last consulted for it. */
  datatype CallCount = CallCount(n: int, declared: seq<int>, reason: string)

  /** An Allowlist entry. */
  datatype Entry = Entry(reason: string, counts: seq<int>, used: bool)

  type Calls = map<ViolationKey, CallCount>
  type Entries = map<ViolationKey, Entry>

  const ANY_SCOPE := "*"

  function CallsSoFar(calls: Calls, key: ViolationKey): int {
    if key in calls then calls[key].n else 0
  }

  function Bumped(calls: Calls, key: ViolationKey): Calls {
    if key in calls then calls[key := calls[key].(n := calls[key].n + 1)]
    else calls[key := CallCount(1, [], "")]
  }

  /** Remembers a counted declaration for the identity; the last one wins, an uncounted one is not kept. */
  function Noted(calls: Calls, key: ViolationKey, d: Decl): Calls {
    if d.counts == [] || key !in calls then calls
    else calls[key := calls[key].(declared := d.counts, reason := d.reason)]
  }

  /** The entry that decides for an identity: its own, else the any-scope one. */
  function EntryKey(entries: Entries, key: ViolationKey): Option<ViolationKey> {
    var wild := ViolationKey(ANY_SCOPE, key.kind, key.name);
    if key in entries then Some(key) else if wild in entries then Some(wild) else None
  }

  /** What one event reads and writes: the scope's accounts, the counter of the region it runs under
      (0 when it runs under none), and the Allowlist (empty when there is none). */
  datatype Gov = Gov(calls: Calls, regionCalls: int, entries: Entries)

  /** Who covers an event: the call-site option is asked first, then the region, then the Allowlist. */
  datatype Outcome = ByOption | ByRegion | ByEntry | Uncovered

  function CoveredBy(g: Gov, key: ViolationKey, option: Option<Decl>, region: Option<Decl>): Outcome {
    var k := CallsSoFar(g.calls, key) + 1;
    var ek := EntryKey(g.entries, key);
    if option.Some? && Covers(option.value.counts, k) then ByOption
    else if region.Some? && Covers(region.value.counts, g.regionCalls + 1) then ByRegion
    else if ek.Some? && Covers(g.entries[ek.value].counts, k) then ByEntry
    else Uncovered
  }

  function CountsOf(d: Option<Decl>): seq<int> {
    if d.Some? then d.value.counts else []
  }

  /** The declaration of the entry that decides for an identity. */
  function EntryDecl(entries: Entries, key: ViolationKey): Option<Decl> {
    match EntryKey(entries, key)
    case Some(ek) => Some(Decl(entries[ek].reason, entries[ek].counts))
    case None => None
  }

  function NotedIf(calls: Calls, key: ViolationKey, d: Option<Decl>): Calls {
    if d.Some? then Noted(calls, key, d.value) else calls
  }

  /** The accounts after the event: counted, with the option noted, and the entry too when it was asked. */
  function CallsAfter(calls: Calls, key: ViolationKey, option: Option<Decl>, asked: Option<Decl>): Calls {
    NotedIf(NotedIf(Bumped(calls, key), key, option), key, asked)
  }

  /** The accounts and counters after one in-transaction event. */
  function GovAfter(g: Gov, key: ViolationKey, option: Option<Decl>, region: Option<Decl>): Gov {
    var who := CoveredBy(g, key, option, region);
    var ek := EntryKey(g.entries, key);
    Gov(CallsAfter(g.calls, key, option, if who.ByEntry? || who.Uncovered? then EntryDecl(g.entries, key) else None),
        if region.Some? && !who.ByOption? then g.regionCalls + 1 else g.regionCalls,
        if who.ByEntry? then g.entries[ek.value := g.entries[ek.value].(used := true)] else g.entries)
  }

  /** The violation one in-transaction event yields, if any. */
  function ViolationOf(g: Gov, scope: string, op: Op, open: int, option: Option<Decl>,
      region: Option<Decl>): Option<Violation> {
    var key := KeyOf(scope, op);
    if CoveredBy(g, key, option, region).Uncovered? then
      Some(Violation(op, scope, open, CallsSoFar(g.calls, key) + 1,
                     CountsOf(option) + CountsOf(region) + CountsOf(EntryDecl(g.entries, key))))
    else None
  }

  // ---------- what the tiers decide ----------

  /** A tier that is present: the counts it declares and the call number it compares them with. */
  datatype Tier = Tier(counts: seq<int>, index: int)

  function OptionTier(g: Gov, key: ViolationKey, option: Option<Decl>): Option<Tier> {
    if option.Some? then Some(Tier(option.value.counts, CallsSoFar(g.calls, key) + 1)) else None
  }

  function RegionTier(g: Gov, region: Option<Decl>): Option<Tier> {
    if region.Some? then Some(Tier(region.value.counts, g.regionCalls + 1)) else None
  }

  function EntryTier(g: Gov, key: ViolationKey): Option<Tier> {
    match EntryKey(g.entries, key)
    case Some(ek) => Some(Tier(g.entries[ek].counts, CallsSoFar(g.calls, key) + 1))
    case None => None
  }

  predicate Covering(t: Option<Tier>) {
    t.Some? && (t.value.counts == [] || exists c | c in t.value.counts :: 0 < t.value.index <= c)
  }

  predicate Exceeded(t: Option<Tier>) {
    t.Some? ==> t.value.counts != [] && forall c | c in t.value.counts :: c < t.value.index
  }

  /** Accounts in which every counter is a real count. */
  predicate Sane(g: Gov) {
    0 <= g.regionCalls && forall key | key in g.calls :: 0 < g.calls[key].n
  }

  /** Every event is counted once, for its own identity only, whatever the tiers decide. */
  lemma EveryEventIsCountedOnce(g: Gov, key: ViolationKey, option: Option<Decl>, region: Option<Decl>)
    ensures var after := GovAfter(g, key, option, region);
      && (Sane(g) ==> Sane(after))
      && CallsSoFar(after.calls, key) == CallsSoFar(g.calls, key) + 1
      && after.calls.Keys == g.calls.Keys + {key}
      && (forall other | other in g.calls && other != key :: after.calls[other] == g.calls[other])
  {
  }

  /** An event is reported exactly when every tier present is counted and all its counts are exceeded.
      The region's counter moves exactly when the option did not cover, and an entry is marked used
      exactly when it covers and no earlier tier did; both are left alone otherwise. */
  lemma TierResolution(g: Gov, scope: string, op: Op, open: int, option: Option<Decl>, region: Option<Decl>)
    requires Sane(g)
    ensures var key := KeyOf(scope, op);
      var after := GovAfter(g, key, option, region);
      var o, m, e := OptionTier(g, key, option), RegionTier(g, region), EntryTier(g, key);
      && (ViolationOf(g, scope, op, open, option, region).Some? <==> Exceeded(o) && Exceeded(m) && Exceeded(e))
      && (after.regionCalls == g.regionCalls + if region.Some? && !Covering(o) then 1 else 0)
      && after.entries.Keys == g.entries.Keys
      && (forall x | x in g.entries ::
            after.entries[x] ==
              if EntryKey(g.entries, key) == Some(x) && Covering(e) && !Covering(o) && !Covering(m)
              then g.entries[x].(used := true) else g.entries[x])
  {
    var key := KeyOf(scope, op);
    TierCovers(OptionTier(g, key, option));
    TierCovers(RegionTier(g, region));
    TierCovers(EntryTier(g, key));
  }

  lemma TierCovers(t: Option<Tier>)
    requires t.Some? ==> 0 < t.value.index
    ensures Covering(t) <==> t.Some? && Covers(t.value.counts, t.value.index)
    ensures Exceeded(t) <==> !Covering(t)
  {
    if t.Some? {
      var m := Largest(t.value.counts);
      assert m > 0 ==> m in t.value.counts;
    }
  }

  // ---------- which entry decides ----------

  /** The option or the region covers the event, so the Allowlist is not asked. */
  predicate CoveredInCode(g: Gov, key: ViolationKey, option: Option<Decl>, region: Option<Decl>) {
    var k := CallsSoFar(g.calls, key) + 1;
    || (option.Some? && (option.value.counts == [] || k <= Largest(option.value.counts)))
    || (region.Some? && (region.value.counts == [] || g.regionCalls + 1 <= Largest(region.value.counts)))
  }

  /** The entry at `at` decides the event: its counts cover the call and it alone becomes used, or they are
      exceeded, end the list of allowed calls, and no entry changes; counted, they are what the account
      remembers. */
  predicate DecidedAt(g: Gov, scope: string, op: Op, open: int, option: Option<Decl>, region: Option<Decl>,
      at: ViolationKey)
    requires at in g.entries
  {
    var key, x := KeyOf(scope, op), g.entries[at];
    var k := CallsSoFar(g.calls, key) + 1;
    var after, v := GovAfter(g, key, option, region), ViolationOf(g, scope, op, open, option, region);
    && (if x.counts == [] || k <= Largest(x.counts) then v == None && after.entries == g.entries[at := x.(used := true)]
        else && v == Some(Violation(op, scope, open, k, CountsOf(option) + CountsOf(region) + x.counts))
             && after.entries == g.entries)
    && (x.counts != [] ==>
          key in after.calls && after.calls[key].declared == x.counts && after.calls[key].reason == x.reason)
  }

  /** An entry for the scope itself decides, whatever entry there is for any scope. */
  lemma OwnEntryDecides(g: Gov, scope: string, op: Op, open: int, option: Option<Decl>, region: Option<Decl>)
    requires !CoveredInCode(g, KeyOf(scope, op), option, region)
    requires ViolationKey(scope, op.kind, op.name) in g.entries
    ensures DecidedAt(g, scope, op, open, option, region, ViolationKey(scope, op.kind, op.name))
  {
  }

  /** Without one, an entry for any scope decides. */
  lemma AnyScopeEntryDecides(g: Gov, scope: string, op: Op, open: int, option: Option<Decl>, region: Option<Decl>)
    requires !CoveredInCode(g, KeyOf(scope, op), option, region)
    requires ViolationKey(scope, op.kind, op.name) !in g.entries && ViolationKey("*", op.kind, op.name) in g.entries
    ensures DecidedAt(g, scope, op, open, option, region, ViolationKey("*", op.kind, op.name))
  {
  }

  /** Without either, or when the option or the region covers, the Allowlist has no part in it: the event is
      reported exactly when it is not covered in code, and no entry changes. */
  lemma NoEntryDecides(g: Gov, scope: string, op: Op, open: int, option: Option<Decl>, region: Option<Decl>)
    requires || CoveredInCode(g, KeyOf(scope, op), option, region)
             || (&& ViolationKey(scope, op.kind, op.name) !in g.entries
                 && ViolationKey("*", op.kind, op.name) !in g.entries)
    ensures GovAfter(g, KeyOf(scope, op), option, region).entries == g.entries
    ensures ViolationOf(g, scope, op, open, option, region) ==
            if CoveredInCode(g, KeyOf(scope, op), option, region) then None
            else Some(Violation(op, scope, open, CallsSoFar(g.calls, KeyOf(scope, op)) + 1,
                                CountsOf(option) + CountsOf(region)))
  {
    Nothing(CountsOf(option) + CountsOf(region));
  }
}

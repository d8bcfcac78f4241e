/** The detector's objects: scopes, regions, the Allowlist, reporters and sessions, with the methods that
    change them in place. Each method is proved against the functions of the modules above. */
module Detectors {
  import opened Types
  import opened Counts
  import opened Keys
  import opened Contexts
  import opened Governance
  import opened Executions
  import V = Verdicts

  // ---------- scopes and regions ----------

  /** An exemption region: its declaration and the events counted under it. */
  class AllowMark {
    const decl: Decl
    var n: int

    constructor (decl: Decl)
      ensures this.decl == decl && n == 0
    {
      this.decl := decl;
      n := 0;
    }
  }

  class Scope {
    const name: string
    var openTxs: int
    var finished: bool
    var calls: Calls
    var marks: seq<AllowMark>

    constructor (name: string)
      ensures this.name == name && openTxs == 0 && !finished && calls == map[] && marks == []
    {
      this.name := name;
      openTxs, finished, calls, marks := 0, false, map[], [];
    }

    method BumpCall(key: ViolationKey) returns (k: int)
      modifies this`calls
      ensures calls == Bumped(old(calls), key) && k == CallsSoFar(old(calls), key) + 1
    {
      if key !in calls {
        calls := calls[key := CallCount(0, [], "")];
      }
      calls := calls[key := calls[key].(n := calls[key].n + 1)];
      k := calls[key].n;
    }

    method NoteDeclared(key: ViolationKey, counts: seq<int>, reason: string)
      modifies this`calls
      ensures calls == Noted(old(calls), key, Decl(reason, counts))
    {
      if |counts| == 0 {
        return;
      }
      if key in calls {
        calls := calls[key := calls[key].(declared := counts, reason := reason)];
      }
    }

    method RegisterMark(m: AllowMark)
      modifies this`marks
      ensures marks == old(marks) + [m]
    {
      marks := marks + [m];
    }
  }

  /** The regions as the finish sees them. */
  ghost function RegionsOf(marks: seq<AllowMark>): seq<Region>
    reads marks
  {
    if marks == [] then []
    else
      var last := marks[|marks| - 1];
      RegionsOf(marks[..|marks| - 1]) + [Region(last.decl, last.n)]
  }

  type Ctx = Context<Scope, AllowMark>

  ghost function ScopeSet(ctx: Ctx): set<Scope> {
    match Resolve(ctx) case Unscoped => {} case Scoped(s, _) => {s}
  }

  ghost function MarkSet(ctx: Ctx): set<AllowMark> {
    match Resolve(ctx) case Scoped(_, Some(m)) => {m} case _ => {}
  }

  function ScopeOf(ctx: Ctx): Option<Scope> {
    match Resolve(ctx) case Unscoped => None case Scoped(s, _) => Some(s)
  }

  function ScopeAndMarkFrom(ctx: Ctx): (Scope?, AllowMark?) {
    match Resolve(ctx)
    case Unscoped => (null, null)
    case Scoped(s, None) => (s, null)
    case Scoped(s, Some(m)) => (s, m)
  }

  /** Opens an exemption region on a context. A counted one is put on the scope's list, to be checked at the
      finish; without a scope nothing happens. */
  method AllowInTransactionHere(ctx: Ctx, decl: Decl) returns (actx: Ctx)
    modifies ScopeSet(ctx)`marks
    ensures ScopeOf(actx) == ScopeOf(ctx)
    ensures Resolve(ctx).Unscoped? ==> actx == ctx
    ensures Resolve(ctx).Scoped? ==>
      && Resolve(actx).mark.Some? && fresh(Resolve(actx).mark.value)
      && Resolve(actx).mark.value.decl == decl && Resolve(actx).mark.value.n == 0
      && actx == AllowHere(ctx, Resolve(actx).mark.value)
      && Resolve(ctx).scope.marks == old(Resolve(ctx).scope.marks)
          + (if decl.counts != [] then [Resolve(actx).mark.value] else [])
  {
    match Resolve(ctx) {
      case Unscoped =>
        actx := ctx;
      case Scoped(s, _) =>
        var m := new AllowMark(decl);
        if |decl.counts| != 0 {
          s.RegisterMark(m);
        }
        actx := RegionContext(ctx, s, m);
    }
  }

  // ---------- the Allowlist ----------

  class Allowlist {
    var entries: Entries

    constructor ()
      ensures entries == map[]
    {
      entries := map[];
    }

    method Add(scope: string, op: Op, reason: string, exactCalls: seq<int>)
      modifies this
      ensures entries == old(entries)[KeyOf(scope, op) := Entry(reason, exactCalls, false)]
    {
      entries := entries[KeyOf(scope, op) := Entry(reason, exactCalls, false)];
    }

    method Decide(scope: string, op: Op, k: int)
        returns (covered: bool, counts: seq<int>, reason: string, present: bool)
      modifies this
      ensures var own, wild := ViolationKey(scope, op.kind, op.name), ViolationKey("*", op.kind, op.name);
        var at := if own in old(entries) then own else wild;
        && (present <==> own in old(entries) || wild in old(entries))
        && (present ==> counts == old(entries)[at].counts && reason == old(entries)[at].reason)
        && (covered <==> present && (counts == [] || k <= Largest(counts)))
        && entries == if covered then old(entries)[at := old(entries)[at].(used := true)] else old(entries)
    {
      var key := KeyOf(scope, op);
      var ok := key in entries;
      if !ok {
        key := KeyOf(ANY_SCOPE, op);
        ok := key in entries;
      }
      if !ok {
        return false, [], "", false;
      }
      var e := entries[key];
      if Covers(e.counts, k) {
        entries := entries[key := e.(used := true)];
        return true, e.counts, e.reason, true;
      }
      return false, e.counts, e.reason, true;
    }

    method UnusedEntries() returns (out: seq<ViolationKey>)
      ensures out == Listing(set k | k in entries && !entries[k].used)
    {
      var collected := [];
      var rest := entries.Keys;
      while rest != {}
        invariant rest <= entries.Keys
        invariant forall i, j | 0 <= i < j < |collected| :: collected[i] != collected[j]
        invariant Elements(collected) == set k | k in entries && k !in rest && !entries[k].used
        decreases rest
      {
        var k :| k in rest;
        rest := rest - {k};
        if !entries[k].used {
          assert k !in Elements(collected);
          assert Elements(collected + [k]) == Elements(collected) + {k};
          collected := collected + [k];
        }
      }
      assert Elements(collected) == set k | k in entries && !entries[k].used;
      out := SortKeys(collected);
    }
  }

  // ---------- reporters ----------

  /** Which of the optional reports a reporter takes; every reporter takes violations. */
  datatype Reporter = Reporter(stale: bool, unscopedTx: bool, unscopedCheck: bool, nested: bool, leaked: bool)

  predicate Accepts(r: Reporter, x: Report) {
    match x
    case Violated(_) => true
    case Stale(_) => r.stale
    case UnscopedTx => r.unscopedTx
    case UnscopedCheck(_) => r.unscopedCheck
    case NestedScope(_, _) => r.nested
    case LeakedTx(_, _) => r.leaked
  }

  /** The reports of `xs` that `r` takes, in order. */
  function Taken(r: Reporter, xs: seq<Report>): seq<Report> {
    if xs == [] then []
    else Taken(r, xs[..|xs| - 1]) + if Accepts(r, xs[|xs| - 1]) then [xs[|xs| - 1]] else []
  }

  /** Every reporter has received, after what it had, exactly the reports of `xs` it takes, once each. */
  predicate Delivered(rs: seq<Reporter>, before: seq<seq<Report>>, after: seq<seq<Report>>, xs: seq<Report>) {
    && |before| == |after| == |rs|
    && forall i | 0 <= i < |rs| :: after[i] == before[i] + Taken(rs[i], xs)
  }

  lemma {:induction false} TakenConcat(r: Reporter, xs: seq<Report>, ys: seq<Report>)
    ensures Taken(r, xs + ys) == Taken(r, xs) + Taken(r, ys)
  {
    if ys == [] {
      assert xs + ys == xs;
    } else {
      var init := ys[..|ys| - 1];
      TakenConcat(r, xs, init);
      assert (xs + ys)[..|xs + ys| - 1] == xs + init;
    }
  }

  /** A reporter takes every violation, and each optional kind of report exactly when it has the method for
      it. */
  lemma TakenByKind(r: Reporter, v: Violation, s: StaleAllow, op: Op, outer: string, inner: string, n: int)
    ensures Taken(r, []) == []
    ensures Taken(r, [Violated(v)]) == [Violated(v)]
    ensures Taken(r, [Stale(s)]) == if r.stale then [Stale(s)] else []
    ensures Taken(r, [UnscopedTx]) == if r.unscopedTx then [UnscopedTx] else []
    ensures Taken(r, [UnscopedCheck(op)]) == if r.unscopedCheck then [UnscopedCheck(op)] else []
    ensures Taken(r, [NestedScope(outer, inner)]) == if r.nested then [NestedScope(outer, inner)] else []
    ensures Taken(r, [LeakedTx(outer, n)]) == if r.leaked then [LeakedTx(outer, n)] else []
  {
    TakenOne(r, Violated(v));
    TakenOne(r, Stale(s));
    TakenOne(r, UnscopedTx);
    TakenOne(r, UnscopedCheck(op));
    TakenOne(r, NestedScope(outer, inner));
    TakenOne(r, LeakedTx(outer, n));
  }

  lemma TakenOne(r: Reporter, x: Report)
    ensures Taken(r, [x]) == if Accepts(r, x) then [x] else []
  {
    assert [x][..0] == [];
  }

  lemma DeliveredTwice(rs: seq<Reporter>, a: seq<seq<Report>>, b: seq<seq<Report>>, c: seq<seq<Report>>,
      xs: seq<Report>, ys: seq<Report>)
    requires Delivered(rs, a, b, xs) && Delivered(rs, b, c, ys)
    ensures Delivered(rs, a, c, xs + ys)
  {
    forall i | 0 <= i < |rs| ensures c[i] == a[i] + Taken(rs[i], xs + ys) {
      TakenConcat(rs[i], xs, ys);
    }
  }

  // ---------- the detector ----------

  /** An option of a checkpoint: an exemption, or attributes, which decide nothing. */
  datatype CheckOption = AllowInTransaction(decl: Decl) | WithAttrs

  /** The exemption in force among the options: the last one given. */
  function Applied(opts: seq<CheckOption>): Option<Decl> {
    if opts == [] then None
    else if opts[|opts| - 1].AllowInTransaction? then Some(opts[|opts| - 1].decl)
    else Applied(opts[..|opts| - 1])
  }

  /** The last exemption among the options is in force, whatever other options stand between or behind. */
  lemma {:induction false} LastExemptionApplies(opts: seq<CheckOption>, i: nat)
    requires i < |opts| && opts[i].AllowInTransaction?
    requires forall j | i < j < |opts| :: opts[j].WithAttrs?
    ensures Applied(opts) == Some(opts[i].decl)
  {
    if i < |opts| - 1 {
      LastExemptionApplies(opts[..|opts| - 1], i);
    }
  }

  lemma {:induction false} NoExemptionApplies(opts: seq<CheckOption>)
    requires forall j | 0 <= j < |opts| :: opts[j].WithAttrs?
    ensures Applied(opts) == None
  {
    if opts != [] {
      NoExemptionApplies(opts[..|opts| - 1]);
    }
  }

  method AppliedCheckConfig(opts: seq<CheckOption>) returns (cfg: Option<Decl>)
    ensures cfg == Applied(opts)
  {
    cfg := None;
    for i := 0 to |opts|
      invariant cfg == Applied(opts[..i])
    {
      assert opts[..i + 1][..i] == opts[..i];
      if opts[i].AllowInTransaction? {
        cfg := Some(opts[i].decl);
      }
    }
    assert opts[..|opts|] == opts;
  }

  class Detector {
    const reporters: seq<Reporter>
    const allowlist: Allowlist?
    const classify: string -> StatementKind
    const checkers: seq<V.Checker>
    const reportUnscoped: bool
    const reportUnscopedCheck: bool
    const reportNested: bool
    const reportLeaked: bool
    /** What each reporter has received. */
    var logs: seq<seq<Report>>

    constructor (reporters: seq<Reporter>, allowlist: Allowlist?, classify: string -> StatementKind,
                 checkers: seq<V.Checker>, reportUnscoped: bool, reportUnscopedCheck: bool,
                 reportNested: bool, reportLeaked: bool)
      ensures Valid() && forall l | l in logs :: l == []
      ensures this.reporters == reporters && this.allowlist == allowlist
      ensures this.classify == classify && this.checkers == checkers
      ensures this.reportUnscoped == reportUnscoped && this.reportUnscopedCheck == reportUnscopedCheck
      ensures this.reportNested == reportNested && this.reportLeaked == reportLeaked
    {
      this.reporters, this.allowlist, this.classify, this.checkers := reporters, allowlist, classify, checkers;
      this.reportUnscoped, this.reportUnscopedCheck := reportUnscoped, reportUnscopedCheck;
      this.reportNested, this.reportLeaked := reportNested, reportLeaked;
      logs := seq(|reporters|, i => []);
    }

    ghost predicate Valid()
      reads this`logs
    {
      |logs| == |reporters|
    }

    ghost function ListSet(): set<Allowlist> {
      if allowlist == null then {} else {allowlist}
    }

    ghost function Entries(): Entries
      reads ListSet()
    {
      if allowlist == null then map[] else allowlist.entries
    }

    /** What an event in scope `s` under `mark` reads. */
    ghost function GovIn(s: Scope, mark: AllowMark?): Gov
      reads s`calls, mark, ListSet()
    {
      Gov(s.calls, if mark == null then 0 else mark.n, Entries())
    }

    /** What the context shows. */
    ghost function ViewOf(ctx: Ctx): V.View
      reads ScopeSet(ctx), MarkSet(ctx), ListSet()
    {
      match Resolve(ctx)
      case Unscoped => V.Nowhere
      case Scoped(s, None) => V.Within(s.name, s.openTxs, None, GovIn(s, null))
      case Scoped(s, Some(m)) => V.Within(s.name, s.openTxs, Some(m.decl), GovIn(s, m))
    }

    /** A context without a scope shows nothing; otherwise it shows the scope it resolves to as it stands, and
        the region it resolves to with the events counted for it. */
    lemma ContextShows(ctx: Ctx)
      ensures Resolve(ctx) == Unscoped ==> ViewOf(ctx) == V.Nowhere
      ensures forall s :: Resolve(ctx) == Scoped(s, None) ==>
        ViewOf(ctx) == V.Within(s.name, s.openTxs, None, Gov(s.calls, 0, Entries()))
      ensures forall s, m :: Resolve(ctx) == Scoped(s, Some(m)) ==>
        ViewOf(ctx) == V.Within(s.name, s.openTxs, Some(m.decl), Gov(s.calls, m.n, Entries()))
    {
    }

    /** Hands one report to every reporter that takes it. */
    method Emit(x: Report)
      requires Valid()
      modifies this`logs
      ensures Delivered(reporters, old(logs), logs, [x])
    {
      for i := 0 to |reporters|
        invariant |logs| == |reporters|
        invariant forall j | 0 <= j < i :: logs[j] == old(logs)[j] + Taken(reporters[j], [x])
        invariant forall j | i <= j < |logs| :: logs[j] == old(logs)[j]
      {
        assert [x][..0] == [];
        if Accepts(reporters[i], x) {
          logs := logs[i := logs[i] + [x]];
        }
      }
    }

    /** Counts the event and asks the two in-code tiers in order; `declined` collects the counts of those
        that decline. */
    method AskInCode(s: Scope, mark: AllowMark?, op: Op, cfg: Option<Decl>)
        returns (covered: bool, k: int, declined: seq<int>)
      modifies s`calls, mark
      ensures var key, region := KeyOf(s.name, op), if mark == null then None else Some(mark.decl);
        && k == CallsSoFar(old(s.calls), key) + 1
        && s.calls == NotedIf(Bumped(old(s.calls), key), key, cfg)
        && (covered <==>
            (cfg.Some? && Covers(cfg.value.counts, k)) || (mark != null && Covers(mark.decl.counts, old(mark.n) + 1)))
        && (mark != null ==> mark.n == old(mark.n) + if cfg.Some? && Covers(cfg.value.counts, k) then 0 else 1)
        && (!covered ==> declined == CountsOf(cfg) + CountsOf(region))
    {
      var key := KeyOf(s.name, op);
      k := s.BumpCall(key);
      declined := [];
      if cfg.Some? {
        s.NoteDeclared(key, cfg.value.counts, cfg.value.reason);
        if Covers(cfg.value.counts, k) {
          return true, k, declined;
        }
        declined := declined + cfg.value.counts;
      }
      if mark != null {
        mark.n := mark.n + 1;
        var mk := mark.n;
        if Covers(mark.decl.counts, mk) {
          return true, k, declined;
        }
        declined := declined + mark.decl.counts;
      }
      return false, k, declined;
    }

    /** Counts the event and asks the tiers in order. */
    method AskTiers(s: Scope, mark: AllowMark?, op: Op, cfg: Option<Decl>)
        returns (covered: bool, k: int, declined: seq<int>)
      modifies s`calls, mark, ListSet()
      ensures var before := old(GovIn(s, mark));
        var key, region := KeyOf(s.name, op), if mark == null then None else Some(mark.decl);
        && GovIn(s, mark) == GovAfter(before, key, cfg, region)
        && (covered <==> !CoveredBy(before, key, cfg, region).Uncovered?)
        && k == CallsSoFar(before.calls, key) + 1
        && (!covered ==> declined == CountsOf(cfg) + CountsOf(region) + CountsOf(EntryDecl(before.entries, key)))
    {
      covered, k, declined := AskInCode(s, mark, op, cfg);
      if !covered {
        var counts;
        covered, counts := AskAllowlist(s, op, k);
        declined := declined + counts;
      }
    }

    /** Asks the Allowlist, if there is one, about call `k`, and notes the entry that answers. */
    method AskAllowlist(s: Scope, op: Op, k: int) returns (covered: bool, counts: seq<int>)
      modifies s`calls, ListSet()
      ensures var key := KeyOf(s.name, op);
        var d, ek := EntryDecl(old(Entries()), key), EntryKey(old(Entries()), key);
        && s.calls == NotedIf(old(s.calls), key, d)
        && counts == CountsOf(d)
        && (covered <==> d.Some? && Covers(d.value.counts, k))
        && Entries() ==
            (if covered then old(Entries())[ek.value := old(Entries())[ek.value].(used := true)] else old(Entries()))
    {
      if allowlist == null {
        return false, [];
      }
      var reason, present;
      covered, counts, reason, present := allowlist.Decide(s.name, op, k);
      if present {
        s.NoteDeclared(KeyOf(s.name, op), counts, reason);
      } else {
        counts := [];
      }
    }

    /** Resolves one in-transaction event and reports it when no tier covers it. */
    method DecideAndReport(s: Scope, mark: AllowMark?, op: Op, open: int, cfg: Option<Decl>)
      requires Valid()
      modifies this`logs, s`calls, mark, ListSet()
      ensures var before := old(GovIn(s, mark));
        var region := if mark == null then None else Some(mark.decl);
        && GovIn(s, mark) == GovAfter(before, KeyOf(s.name, op), cfg, region)
        && Delivered(reporters, old(logs), logs, V.Violations(ViolationOf(before, s.name, op, open, cfg, region)))
    {
      var covered, k, declined := AskTiers(s, mark, op, cfg);
      if !covered {
        Emit(Violated(Violation(op, s.name, open, k, declined)));
      }
    }

    ghost predicate Shows(ctx: Ctx, before: V.View, e: V.Effect)
      reads ScopeSet(ctx), MarkSet(ctx), ListSet()
    {
      ViewOf(ctx) == before.With(e.gov)
    }

    /** A checkpoint. */
    method Check(ctx: Ctx, op: Op, opts: seq<CheckOption>)
      requires Valid()
      modifies this`logs, ScopeSet(ctx)`calls, MarkSet(ctx), ListSet()
      ensures var e := V.Check(old(ViewOf(ctx)), reportUnscopedCheck, op, Applied(opts));
              Shows(ctx, old(ViewOf(ctx)), e) && Delivered(reporters, old(logs), logs, e.reports)
    {
      var (s, mark) := ScopeAndMarkFrom(ctx);
      if s == null {
        if reportUnscopedCheck {
          Emit(UnscopedCheck(op));
        }
        return;
      }
      var cfg := AppliedCheckConfig(opts);
      var open := s.openTxs;
      if open <= 0 {
        ReportUnused(s, mark, op, cfg);
        return;
      }
      DecideAndReport(s, mark, op, open, cfg);
    }

    /** With nothing open, each in-code exemption present is reported as stale. */
    method ReportUnused(s: Scope, mark: AllowMark?, op: Op, cfg: Option<Decl>)
      requires Valid()
      modifies this`logs
      ensures Delivered(reporters, old(logs), logs,
                        V.Stales(s.name, op, cfg)
                            + V.Stales(s.name, op, if mark == null then None else Some(mark.decl)))
    {
      ghost var region := if mark == null then None else Some(mark.decl);
      if cfg.Some? {
        Emit(Stale(StaleAllow(s.name, op, cfg.value.reason, 0, [])));
      }
      label between:
      if mark != null {
        Emit(Stale(StaleAllow(s.name, op, mark.decl.reason, 0, [])));
      }
      DeliveredTwice(reporters, old(logs), old@between(logs), logs, V.Stales(s.name, op, cfg),
          V.Stales(s.name, op, region));
    }

    /** Whether an option-less checkpoint could do anything. */
    predicate CheckNeeded(ctx: Ctx)
      reads ScopeSet(ctx), MarkSet(ctx), ListSet()
      ensures CheckNeeded(ctx) <==> V.CheckNeeded(ViewOf(ctx), reportUnscopedCheck)
    {
      var (s, mark) := ScopeAndMarkFrom(ctx);
      if s != null then s.openTxs > 0 || mark != null else reportUnscopedCheck
    }

    /** A wrapped HTTP round trip: the checkpoint runs only when it could do anything. */
    method RoundTrip(ctx: Ctx, op: Op)
      requires Valid()
      modifies this`logs, ScopeSet(ctx)`calls, MarkSet(ctx), ListSet()
      ensures var e := V.Check(old(ViewOf(ctx)), reportUnscopedCheck, op, None);
              Shows(ctx, old(ViewOf(ctx)), e) && Delivered(reporters, old(logs), logs, e.reports)
    {
      ghost var v := ViewOf(ctx);
      V.GateIsExact(v, reportUnscopedCheck, op);
      if CheckNeeded(ctx) {
        Check(ctx, op, []);
      } else {
        assert v.With(v.Accounts()) == v;
      }
    }

    /** Reports the operations a prepared statement was matched to. */
    method ReportStatementOps(ctx: Ctx, ops: seq<Op>)
      requires Valid()
      modifies this`logs, ScopeSet(ctx)`calls, MarkSet(ctx), ListSet()
      ensures var e := V.Operations(old(ViewOf(ctx)), ops);
              Shows(ctx, old(ViewOf(ctx)), e) && Delivered(reporters, old(logs), logs, e.reports)
    {
      ghost var v := ViewOf(ctx);
      var (s, mark) := ScopeAndMarkFrom(ctx);
      if s == null {
        return;
      }
      var open := s.openTxs;
      if open <= 0 && mark == null {
        V.NothingToSay(v, ops);
        return;
      }
      for i := 0 to |ops|
        invariant Valid() && Shows(ctx, v, V.Operations(v, ops[..i]))
        invariant Delivered(reporters, old(logs), logs, V.Operations(v, ops[..i]).reports)
      {
        label top:
        assert ops[..i + 1][..i] == ops[..i];
        ghost var e := V.Operations(v, ops[..i]);
        ReportMatch(ctx, s, mark, ops[i], open);
        DeliveredTwice(reporters, old(logs), old@top(logs), logs, e.reports, V.Matched(v.With(e.gov), ops[i]).reports);
      }
      assert ops[..|ops|] == ops;
    }

    /** Runs the checkers on a statement and reports every match. */
    method RunStatementCheckers(ctx: Ctx, query: string)
      requires Valid()
      modifies this`logs, ScopeSet(ctx)`calls, MarkSet(ctx), ListSet()
      ensures var e := V.RunCheckers(old(ViewOf(ctx)), checkers, query);
              Shows(ctx, old(ViewOf(ctx)), e) && Delivered(reporters, old(logs), logs, e.reports)
    {
      ghost var v := ViewOf(ctx);
      var (s, mark) := ScopeAndMarkFrom(ctx);
      if s == null {
        return;
      }
      var open := s.openTxs;
      if open <= 0 && mark == null {
        V.MatchFirstReportLater(v, checkers, query);
        V.NothingToSay(v, V.Matches(checkers, query));
        return;
      }
      for i := 0 to |checkers|
        invariant Valid() && Shows(ctx, v, V.RunCheckers(v, checkers[..i], query))
        invariant Delivered(reporters, old(logs), logs, V.RunCheckers(v, checkers[..i], query).reports)
      {
        label top:
        assert checkers[..i + 1][..i] == checkers[..i];
        ghost var e := V.RunCheckers(v, checkers[..i], query);
        var op := checkers[i](query);
        if op.Some? {
          ReportMatch(ctx, s, mark, op.value, open);
          DeliveredTwice(reporters, old(logs), old@top(logs), logs, e.reports,
              V.Matched(v.With(e.gov), op.value).reports);
        }
      }
      assert checkers[..|checkers|] == checkers;
    }

    /** Reports one matched operation: a violation candidate while a transaction is open, else a stale region. */
    method ReportMatch(ghost ctx: Ctx, s: Scope, mark: AllowMark?, op: Op, open: int)
      requires Valid() && ScopeAndMarkFrom(ctx) == (s, mark) && open == s.openTxs && (open <= 0 ==> mark != null)
      modifies this`logs, s`calls, mark, ListSet()
      ensures var e := V.Matched(old(ViewOf(ctx)), op);
              Shows(ctx, old(ViewOf(ctx)), e) && Delivered(reporters, old(logs), logs, e.reports)
    {
      if open <= 0 {
        Emit(Stale(StaleAllow(s.name, op, mark.decl.reason, 0, [])));
      } else {
        DecideAndReport(s, mark, op, open, None);
      }
    }

    // ---------- scopes ----------

    method StartScope(ctx: Ctx, name: string) returns (sctx: Ctx, s: Scope)
      requires Valid()
      modifies this`logs
      ensures fresh(s) && s.name == name && s.openTxs == 0 && !s.finished && s.calls == map[] && s.marks == []
      ensures sctx == ScopeContext(ctx, s)
      ensures Delivered(reporters, old(logs), logs,
                        if reportNested && ScopeOf(ctx).Some? then [NestedScope(ScopeOf(ctx).value.name, name)] else [])
    {
      var outer := ScopeOf(ctx);
      if outer.Some? && reportNested {
        Emit(NestedScope(outer.value.name, name));
      }
      s := new Scope(name);
      sctx := ScopeContext(ctx, s);
    }

    /** Ends a scope. Only the first call does anything: it reports what the declarations did not live up
        to, then the transactions still open. */
    method FinishScope(s: Scope)
      requires Valid() && forall m | m in s.marks :: m.decl.counts != []
      modifies this`logs, s`finished
      ensures s.finished
      ensures Delivered(reporters, old(logs), logs,
                        if old(s.finished) then []
                        else StaleReports(Shortfalls(s.name, s.calls, RegionsOf(s.marks)))
                             + if reportLeaked && s.openTxs > 0 then [LeakedTx(s.name, s.openTxs)] else [])
    {
      if s.finished {
        return;
      }
      s.finished := true;
      ReportCallShortfalls(s);
      label reported:
      ghost var stale := StaleReports(Shortfalls(s.name, s.calls, RegionsOf(s.marks)));
      if !reportLeaked {
        assert stale + [] == stale;
        return;
      }
      if s.openTxs > 0 {
        Emit(LeakedTx(s.name, s.openTxs));
        DeliveredTwice(reporters, old(logs), old@reported(logs), logs, stale, [LeakedTx(s.name, s.openTxs)]);
      } else {
        assert stale + [] == stale;
      }
    }

    method ReportCallShortfalls(s: Scope)
      requires Valid() && forall m | m in s.marks :: m.decl.counts != []
      modifies this`logs
      ensures Delivered(reporters, old(logs), logs, StaleReports(Shortfalls(s.name, s.calls, RegionsOf(s.marks))))
    {
      var stale := IdentityPass(s.name, s.calls);
      var more := RegionPass(s.name, s.marks);
      EmitStale(stale + more);
    }

    method EmitStale(stale: seq<StaleAllow>)
      requires Valid()
      modifies this`logs
      ensures Delivered(reporters, old(logs), logs, StaleReports(stale))
    {
      for i := 0 to |stale|
        invariant Valid() && Delivered(reporters, old(logs), logs, StaleReports(stale[..i]))
      {
        label top:
        assert stale[..i + 1][..i] == stale[..i];
        Emit(Stale(stale[i]));
        DeliveredTwice(reporters, old(logs), old@top(logs), logs, StaleReports(stale[..i]), [Stale(stale[i])]);
      }
      assert stale[..|stale|] == stale;
    }
  }

  function StaleReports(xs: seq<StaleAllow>): seq<Report> {
    if xs == [] then [] else StaleReports(xs[..|xs| - 1]) + [Stale(xs[|xs| - 1])]
  }

  /** One report for each, in order. */
  lemma {:induction false} StaleReportsAt(xs: seq<StaleAllow>)
    ensures |StaleReports(xs)| == |xs| && forall i | 0 <= i < |xs| :: StaleReports(xs)[i] == Stale(xs[i])
  {
    if xs != [] {
      StaleReportsAt(xs[..|xs| - 1]);
    }
  }

  lemma {:induction false} RegionsOfAt(marks: seq<AllowMark>)
    ensures |RegionsOf(marks)| == |marks|
    ensures forall i | 0 <= i < |marks| :: RegionsOf(marks)[i] == Region(marks[i].decl, marks[i].n)
  {
    if marks != [] {
      RegionsOfAt(marks[..|marks| - 1]);
    }
  }

  /** The regions' part of the finish: the counted ones, in creation order. */
  method RegionPass(scope: string, marks: seq<AllowMark>) returns (stale: seq<StaleAllow>)
    requires forall m | m in marks :: m.decl.counts != []
    ensures stale == RegionShortfalls(scope, RegionsOf(marks))
  {
    ghost var rs := RegionsOf(marks);
    RegionsOfAt(marks);
    stale := [];
    for i := 0 to |marks|
      invariant forall j | 0 <= j < |marks| :: rs[j] == Region(marks[j].decl, marks[j].n)
      invariant stale == RegionShortfalls(scope, rs[..i])
    {
      var m := marks[i];
      assert m in marks && rs[..i + 1][..i] == rs[..i];
      var n := m.n;
      var max := MaxCount(m.decl.counts);
      var exact := ContainsCount(m.decl.counts, n);
      if n <= max && !exact {
        stale := stale + [StaleAllow(scope, Op("", ""), m.decl.reason, n, m.decl.counts)];
      }
    }
    assert rs[..|rs|] == rs;
  }

  /** Collects the declared identities in whatever order the map yields them, and sorts. */
  method DeclaredIn(calls: Calls) returns (keys: seq<ViolationKey>)
    ensures keys == Listing(DeclaredKeys(calls))
  {
    var collected := [];
    var rest := calls.Keys;
    while rest != {}
      invariant rest <= calls.Keys
      invariant forall i, j | 0 <= i < j < |collected| :: collected[i] != collected[j]
      invariant Elements(collected) == set k | k in calls && k !in rest && calls[k].declared != []
      decreases rest
    {
      var k :| k in rest;
      rest := rest - {k};
      if |calls[k].declared| != 0 {
        assert k !in Elements(collected);
        assert Elements(collected + [k]) == Elements(collected) + {k};
        collected := collected + [k];
      }
    }
    assert Elements(collected) == DeclaredKeys(calls);
    keys := SortKeys(collected);
  }

  /** The identities' part of the finish: each declared one is checked, in sorted order. */
  method IdentityPass(scope: string, calls: Calls) returns (stale: seq<StaleAllow>)
    ensures stale == IdentityShortfalls(scope, calls, Listing(DeclaredKeys(calls)))
  {
    var keys := DeclaredIn(calls);
    assert forall k | k in keys :: k in DeclaredKeys(calls) && k in calls;
    stale := [];
    for i := 0 to |keys|
      invariant stale == IdentityShortfalls(scope, calls, keys[..i])
    {
      OneIdentityMore(scope, calls, keys, i);
      var key := keys[i];
      assert key in DeclaredKeys(calls);
      var c := calls[key];
      var max := MaxCount(c.declared);
      var exact := ContainsCount(c.declared, c.n);
      if c.n <= max && !exact {
        stale := stale + [StaleAllow(scope, Op(key.kind, key.name), c.reason, c.n, c.declared)];
      } else {
        assert stale + [] == stale;
      }
    }
    assert keys[..|keys|] == keys;
  }
}

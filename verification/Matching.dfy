/** What statements matched by the checkers come to, match by match. */
module Matching {
  import opened Types
  import opened Counts
  import opened Governance
  import opened Verdicts
  import opened Targets

  // ---------- which operations a statement is matched to ----------

  lemma {:induction false} MatchesConcat(a: seq<Checker>, b: seq<Checker>, query: string)
    ensures Matches(a + b, query) == Matches(a, query) + Matches(b, query)
  {
    if b == [] {
      assert a + b == a;
      Nothing(Matches(a, query));
    } else {
      MatchesConcat(a, b[..|b| - 1], query);
      ConcatSnoc(a, b);
    }
  }

  /** The matches are those of the checkers one by one, in their order. */
  lemma MatchesInOrder(first: Checker, rest: seq<Checker>, query: string)
    ensures Matches([], query) == []
    ensures Matches([first] + rest, query) ==
            (if first(query).Some? then [first(query).value] else []) + Matches(rest, query)
  {
    MatchesConcat([first], rest, query);
    assert [first][..0] == [];
  }

  // ---------- with something open ----------

  /** How many of the operations name the identity. */
  function Naming(scope: string, ops: seq<Op>, key: ViolationKey): nat {
    if ops == [] then 0
    else
      var last := ops[|ops| - 1];
      Naming(scope, ops[..|ops| - 1], key) + if ViolationKey(scope, last.kind, last.name) == key then 1 else 0
  }

  /** The call number of the last of the operations. */
  function Turn(v: View, ops: seq<Op>): int
    requires v.Within? && ops != []
  {
    var last := ops[|ops| - 1];
    var key := ViolationKey(v.scope, last.kind, last.name);
    CallsSoFar(v.gov.calls, key) + Naming(v.scope, ops, key)
  }

  predicate Past(counts: seq<int>, k: int) {
    counts != [] && Largest(counts) < k
  }

  /** The counts of the Allowlist's entry for the operation, its own before the one for any scope. */
  function Declared(v: View, op: Op): Option<seq<int>>
    requires v.Within?
  {
    var own, wild := ViolationKey(v.scope, op.kind, op.name), ViolationKey("*", op.kind, op.name);
    if own in v.gov.entries then Some(v.gov.entries[own].counts)
    else if wild in v.gov.entries then Some(v.gov.entries[wild].counts)
    else None
  }

  /** The report of a match that the region counts as its `asked`-th and that is call `k` of its identity: it
      is reported exactly when the region and the entry, as far as present, are past. */
  function TurnReport(v: View, op: Op, asked: int, k: int): seq<Report>
    requires v.Within?
  {
    var entry := Declared(v, op);
    if v.region.Some? && !Past(v.region.value.counts, asked) then []
    else if entry.Some? && !Past(entry.value, k) then []
    else
      var exceeded := CountsOf(v.region) + if entry.Some? then entry.value else [];
      [Violated(Violation(op, v.scope, v.open, k, exceeded))]
  }

  /** The report of the last of the operations, read off the state before the first. */
  function LastReport(v: View, ops: seq<Op>): seq<Report>
    requires v.Within? && ops != []
  {
    TurnReport(v, ops[|ops| - 1], v.gov.regionCalls + |ops|, Turn(v, ops))
  }

  function MatchReports(v: View, ops: seq<Op>): seq<Report>
    requires v.Within?
  {
    if ops == [] then [] else MatchReports(v, ops[..|ops| - 1]) + LastReport(v, ops)
  }

  /** The accounts after the operations: each identity's has grown by its matches, the region has counted
      them all, and the entries declare what they did. */
  ghost predicate Grown(v: View, ops: seq<Op>, g: Gov)
    requires v.Within?
  {
    && (forall key :: CallsSoFar(g.calls, key) == CallsSoFar(v.gov.calls, key) + Naming(v.scope, ops, key))
    && g.regionCalls == v.gov.regionCalls + (if v.region.Some? then |ops| else 0)
    && SameEntries(v, g)
  }

  lemma NamingSnoc(scope: string, ops: seq<Op>, op: Op, key: ViolationKey)
    ensures Naming(scope, ops + [op], key) == Naming(scope, ops, key) + if KeyOf(scope, op) == key then 1 else 0
  {
    assert (ops + [op])[..|ops|] == ops;
  }

  lemma GrowsByOne(v: View, init: seq<Op>, op: Op, g: Gov)
    requires v.Within? && Grown(v, init, g)
    ensures Grown(v, init + [op], GovAfter(g, KeyOf(v.scope, op), None, v.region))
  {
    EveryEventIsCountedOnce(g, KeyOf(v.scope, op), None, v.region);
    forall key {
      NamingSnoc(v.scope, init, op, key);
    }
  }

  /** The entries declare what they did. */
  predicate SameEntries(v: View, g: Gov)
    requires v.Within?
  {
    && g.entries.Keys == v.gov.entries.Keys
    && forall x | x in v.gov.entries :: g.entries[x].counts == v.gov.entries[x].counts
  }

  /** The event of one match says what its turn must. */
  lemma EventIsTurn(v: View, op: Op, g: Gov)
    requires v.Within? && SameEntries(v, g)
    ensures Violations(ViolationOf(g, v.scope, op, v.open, None, v.region)) ==
            TurnReport(v, op, g.regionCalls + 1, CallsSoFar(g.calls, KeyOf(v.scope, op)) + 1)
  {
    var own, wild := ViolationKey(v.scope, op.kind, op.name), ViolationKey("*", op.kind, op.name);
    Nothing(CountsOf(v.region));
    if CoveredInCode(g, own, None, v.region) || (own !in g.entries && wild !in g.entries) {
      NoEntryDecides(g, v.scope, op, v.open, None, v.region);
    } else if own in g.entries {
      OwnEntryDecides(g, v.scope, op, v.open, None, v.region);
    } else {
      AnyScopeEntryDecides(g, v.scope, op, v.open, None, v.region);
    }
  }

  lemma TurnIsLastReport(v: View, init: seq<Op>, op: Op, g: Gov)
    requires v.Within? && Grown(v, init, g)
    ensures LastReport(v, init + [op]) ==
        TurnReport(v, op, g.regionCalls + 1, CallsSoFar(g.calls, KeyOf(v.scope, op)) + 1)
  {
    NamingSnoc(v.scope, init, op, KeyOf(v.scope, op));
    assert CallsSoFar(g.calls, KeyOf(v.scope, op)) + 1 == Turn(v, init + [op]);
  }

  lemma OneMoreMatch(v: View, init: seq<Op>, op: Op, g: Gov)
    requires v.Within? && v.open > 0 && Grown(v, init, g)
    ensures Matched(v.With(g), op).reports == LastReport(v, init + [op])
    ensures Grown(v, init + [op], Matched(v.With(g), op).gov)
  {
    EventIsTurn(v, op, g);
    TurnIsLastReport(v, init, op, g);
    GrowsByOne(v, init, op, g);
  }

  /** With something open, matched operations are counted each under its identity, and reported, in order,
      exactly when every tier present is past at their turn. */
  lemma {:induction false} MatchesInTransaction(v: View, ops: seq<Op>)
    requires v.Within? && v.open > 0
    ensures Operations(v, ops).reports == MatchReports(v, ops) && Grown(v, ops, Operations(v, ops).gov)
  {
    if ops != [] {
      var init, op := ops[..|ops| - 1], ops[|ops| - 1];
      MatchesInTransaction(v, init);
      OneMoreMatch(v, init, op, Operations(v, init).gov);
      assert ops == init + [op];
    }
  }

  /** Nothing exempts the operations. */
  predicate Unexempted(v: View, ops: seq<Op>) {
    v.Within? ==> v.region.None? && forall op | op in ops :: Declared(v, op).None?
  }

  /** The violation of the `i`-th match when nothing exempts it. */
  function Plain(v: View, ops: seq<Op>, i: nat): Report
    requires v.Within? && i < |ops|
  {
    Violated(Violation(ops[i], v.scope, v.open, Turn(v, ops[..i + 1]), []))
  }

  /** Without exemptions every match is reported: one violation each, in order, with its operation, the number
      open and its own call number. */
  lemma {:induction false} EveryMatchIsReported(v: View, ops: seq<Op>)
    requires v.Within? && Unexempted(v, ops)
    ensures |MatchReports(v, ops)| == |ops|
    ensures forall i | 0 <= i < |ops| :: MatchReports(v, ops)[i] == Plain(v, ops, i)
  {
    if ops != [] {
      var n := |ops| - 1;
      EveryMatchIsReported(v, ops[..n]);
      assert ops[n] in ops && ops[..n + 1] == ops;
      UnexemptedIsPlain(v, ops);
      forall i | 0 <= i < n ensures Plain(v, ops[..n], i) == Plain(v, ops, i) {
        assert ops[..n][..i + 1] == ops[..i + 1];
      }
    }
  }

  lemma UnexemptedIsPlain(v: View, ops: seq<Op>)
    requires v.Within? && ops != [] && v.region.None? && Declared(v, ops[|ops| - 1]).None?
    ensures LastReport(v, ops) == [Violated(Violation(ops[|ops| - 1], v.scope, v.open, Turn(v, ops), []))]
  {
    var none: seq<int> := [];
    Nothing(none);
  }

  /** The report of an event nothing exempts, when `open` transactions are open. */
  function PlainReports(scope: string, op: Op, open: int, k: int): seq<Report> {
    if open <= 0 then [] else [Violated(Violation(op, scope, open, k, []))]
  }

  lemma PlainEvent(v: View, op: Op, open: int)
    requires v.Within? && v.region.None? && Declared(v, op).None? && open > 0
    ensures Event(v, op, open, None).reports ==
            PlainReports(v.scope, op, open, CallsSoFar(v.gov.calls, KeyOf(v.scope, op)) + 1)
  {
    NoEntryDecides(v.gov, v.scope, op, open, None, None);
    Nothing(CountsOf(None));
  }

  /** A write nothing exempts is reported exactly when other transactions are open, with their number. */
  lemma PlainWrite(v: View, self: bool, query: string, op: Op, foreign: nat)
    requires v.Within? && v.region.None? && foreign == v.open - if self then 1 else 0
    requires op == Op("db", CrossConnOpName(query)) && Declared(v, op).None?
    ensures Write(v, self, query).reports ==
            PlainReports(v.scope, op, foreign, CallsSoFar(v.gov.calls, KeyOf(v.scope, op)) + 1)
  {
    WriteCases(v, self, query, foreign);
    if foreign > 0 {
      PlainEvent(v, op, foreign);
    }
  }

  // ---------- with nothing open ----------

  /** With nothing open, matched operations under a region are reported as its being stale, one report each,
      in order, with the region's reason, and no account changes. */
  lemma {:induction false} MatchesOutsideTransaction(v: View, ops: seq<Op>, d: Decl)
    requires v.Within? && v.open <= 0 && v.region == Some(d)
    ensures Operations(v, ops).gov == v.gov
    ensures |Operations(v, ops).reports| == |ops|
    ensures forall i | 0 <= i < |ops| ::
              Operations(v, ops).reports[i] == Stale(StaleAllow(v.scope, ops[i], d.reason, 0, []))
  {
    if ops != [] {
      MatchesOutsideTransaction(v, ops[..|ops| - 1], d);
    }
  }

  /** The same of a statement run past the checkers one by one. */
  lemma CheckersReport(v: View, checkers: seq<Checker>, query: string)
    requires v.Within?
    ensures var ops, e := Matches(checkers, query), RunCheckers(v, checkers, query);
      && (v.open > 0 ==> e.reports == MatchReports(v, ops) && Grown(v, ops, e.gov))
      && (v.open <= 0 && v.region.None? ==> e == NoEffect(v))
      && (v.open <= 0 && v.region.Some? ==>
            && e.gov == v.gov && |e.reports| == |ops|
            && forall i | 0 <= i < |ops| ::
                 e.reports[i] == Stale(StaleAllow(v.scope, ops[i], v.region.value.reason, 0, [])))
  {
    var ops := Matches(checkers, query);
    MatchFirstReportLater(v, checkers, query);
    if v.open > 0 {
      MatchesInTransaction(v, ops);
    } else if v.region.None? {
      NothingToSay(v, ops);
    } else {
      MatchesOutsideTransaction(v, ops, v.region.value);
    }
  }
}

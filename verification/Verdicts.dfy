/** What checkpoints, writes and matched statements report and record, as functions of what their context
    shows: the scope's name and counter, the region in force, and the accounts. */
module Verdicts {
  import opened Types
  import opened Governance
  import opened Attribution
  import opened Targets

  datatype View = Nowhere | Within(scope: string, open: int, region: Option<Decl>, gov: Gov) {
    function Accounts(): Gov {
      if Nowhere? then Gov(map[], 0, map[]) else gov
    }

    function With(g: Gov): View {
      if Nowhere? then this else this.(gov := g)
    }
  }

  /** The accounts afterwards, and the reports in order. */
  datatype Effect = Effect(gov: Gov, reports: seq<Report>)

  function NoEffect(v: View): Effect { Effect(v.Accounts(), []) }

  function Violations(v: Option<Violation>): seq<Report> {
    if v.Some? then [Violated(v.value)] else []
  }

  /** One in-transaction event. */
  function Event(v: View, op: Op, open: int, option: Option<Decl>): Effect
    requires v.Within?
  {
    Effect(GovAfter(v.gov, KeyOf(v.scope, op), option, v.region),
           Violations(ViolationOf(v.gov, v.scope, op, open, option, v.region)))
  }

  /** An exemption that had nothing to suppress. */
  function Stales(scope: string, op: Op, d: Option<Decl>): seq<Report> {
    if d.Some? then [Stale(StaleAllow(scope, op, d.value.reason, 0, []))] else []
  }

  /** A checkpoint. */
  function Check(v: View, reportUnscoped: bool, op: Op, option: Option<Decl>): Effect {
    match v
    case Nowhere => Effect(v.Accounts(), if reportUnscoped then [UnscopedCheck(op)] else [])
    case Within(scope, open, region, gov) =>
      if open <= 0 then Effect(gov, Stales(scope, op, option) + Stales(scope, op, region))
      else Event(v, op, open, option)
  }

  /** Whether a checkpoint without options could do anything. */
  predicate CheckNeeded(v: View, reportUnscoped: bool) {
    match v
    case Nowhere => reportUnscoped
    case Within(_, open, region, _) => open > 0 || region.Some?
  }

  /** The gate in front of an option-less checkpoint is exact: it is closed precisely when the checkpoint
      would report nothing and change nothing, so a gated request and an ungated one cannot be told apart. */
  lemma GateIsExact(v: View, reportUnscoped: bool, op: Op)
    ensures CheckNeeded(v, reportUnscoped) <==> Check(v, reportUnscoped, op, None) != NoEffect(v)
  {
    if v.Within? && v.open > 0 {
      EveryEventIsCountedOnce(v.gov, KeyOf(v.scope, op), None, v.region);
    }
  }

  /** The report of an in-code exemption that suppressed nothing. */
  function Unused(scope: string, op: Op, d: Option<Decl>): seq<Report> {
    match d
    case None => []
    case Some(Decl(reason, _)) => [Stale(StaleAllow(scope, op, reason, 0, []))]
  }

  /** What a checkpoint says. Without a scope, that it is unscoped, when that is to be said. With nothing
      open, one stale report for each in-code exemption present, the option's first, and no other trace.
      With something open, never a stale report, and one violation exactly when every tier present is
      counted and exceeded: it carries the number open, the call's number and the counts exceeded, in the
      order of the tiers. */
  lemma CheckpointSays(v: View, reportUnscoped: bool, op: Op, option: Option<Decl>)
    requires v.Within? ==> Sane(v.gov)
    ensures var e := Check(v, reportUnscoped, op, option);
      match v
      case Nowhere => e.reports == if reportUnscoped then [UnscopedCheck(op)] else []
      case Within(scope, open, region, gov) =>
        if open <= 0 then e.gov == gov && e.reports == Unused(scope, op, option) + Unused(scope, op, region)
        else EventSays(e, gov, scope, op, open, option, region)
  {
    if v.Within? {
      EventIs(v, op, v.open, option);
    }
  }

  predicate EventSays(e: Effect, gov: Gov, scope: string, op: Op, open: int, option: Option<Decl>,
                      region: Option<Decl>)
  {
    var key := ViolationKey(scope, op.kind, op.name);
    var k := CallsSoFar(gov.calls, key) + 1;
    && CallsSoFar(e.gov.calls, key) == k
    && e.reports ==
        if Exceeded(OptionTier(gov, key, option)) && Exceeded(RegionTier(gov, region)) && Exceeded(EntryTier(gov, key))
        then [Violated(Violation(op, scope, open, k,
                                 CountsOf(option) + CountsOf(region) + CountsOf(EntryDecl(gov.entries, key))))]
        else []
  }

  lemma EventIs(v: View, op: Op, open: int, option: Option<Decl>)
    requires v.Within? && Sane(v.gov)
    ensures EventSays(Event(v, op, open, option), v.gov, v.scope, op, open, option, v.region)
  {
    TierResolution(v.gov, v.scope, op, open, option, v.region);
    EveryEventIsCountedOnce(v.gov, KeyOf(v.scope, op), option, v.region);
  }

  /** A write on a session that is (`self`) or is not itself counted in the context's scope. */
  function Write(v: View, self: bool, query: string): Effect {
    if v.Nowhere? then NoEffect(v)
    else
      var op := Op("db", CrossConnOpName(query));
      match CrossConnVerdict(v.open, self, v.region.Some?)
      case Silent => NoEffect(v)
      case StaleRegion => Effect(v.gov, Stales(v.scope, op, v.region))
      case Consult(foreign) => Event(v, op, foreign, None)
  }

  lemma WriteCases(v: View, self: bool, query: string, foreign: int)
    requires v.Within? && foreign == v.open - if self then 1 else 0
    ensures var op := Op("db", CrossConnOpName(query));
      Write(v, self, query) ==
        if foreign > 0 then Event(v, op, foreign, None)
        else if v.open == 0 then Effect(v.gov, Stales(v.scope, op, v.region))
        else NoEffect(v)
  {
  }

  /** What a write says in a scope where `foreign` other transactions are open. With none, nothing, except that
      a region is stale when nothing at all is open. With some, one event under the target's name, or under
      "write" when there is no target, resolved against the region and the Allowlist and carrying `foreign`. */
  lemma WriteSays(v: View, self: bool, query: string, foreign: int)
    requires v.Within? && Sane(v.gov) && foreign == v.open - if self then 1 else 0
    ensures var e := Write(v, self, query);
      var op := Op("db", if WriteTarget(query) == "" then "write" else WriteTarget(query));
      if foreign > 0 then EventSays(e, v.gov, v.scope, op, foreign, None, v.region)
      else e.gov == v.gov && e.reports == if v.open == 0 then Unused(v.scope, op, v.region) else []
  {
    WriteCases(v, self, query, foreign);
    EventIs(v, Op("db", CrossConnOpName(query)), foreign, None);
  }

  /** One operation a statement was matched to. */
  function Matched(v: View, op: Op): Effect
    requires v.Within?
  {
    if v.open <= 0 then Effect(v.gov, Stales(v.scope, op, v.region)) else Event(v, op, v.open, None)
  }

  /** The operations a statement was matched to, reported in order. */
  function Operations(v: View, ops: seq<Op>): Effect {
    if v.Nowhere? || ops == [] then NoEffect(v)
    else
      var before := Operations(v, ops[..|ops| - 1]);
      var last := Matched(v.With(before.gov), ops[|ops| - 1]);
      Effect(last.gov, before.reports + last.reports)
  }

  /** With no transaction open and no region in force, matched operations leave no trace. */
  lemma {:induction false} NothingToSay(v: View, ops: seq<Op>)
    requires v.Within? ==> v.open <= 0 && v.region.None?
    ensures Operations(v, ops) == NoEffect(v)
  {
    if v.Within? && ops != [] {
      NothingToSay(v, ops[..|ops| - 1]);
    }
  }

  type Checker = string -> Option<Op>

  /** Running the checkers one by one on the statement, reporting each match as it is found. */
  function RunCheckers(v: View, checkers: seq<Checker>, query: string): Effect {
    if v.Nowhere? || checkers == [] then NoEffect(v)
    else
      var before := RunCheckers(v, checkers[..|checkers| - 1], query);
      match checkers[|checkers| - 1](query)
      case None => before
      case Some(op) =>
        var last := Matched(v.With(before.gov), op);
        Effect(last.gov, before.reports + last.reports)
  }

  /** The operations the checkers match a statement to. */
  function Matches(checkers: seq<Checker>, query: string): seq<Op> {
    if checkers == [] then []
    else
      var before := Matches(checkers[..|checkers| - 1], query);
      match checkers[|checkers| - 1](query)
      case None => before
      case Some(op) => before + [op]
  }

  /** Matching first and reporting later comes to the same as reporting while matching. */
  lemma {:induction false} MatchFirstReportLater(v: View, checkers: seq<Checker>, query: string)
    ensures RunCheckers(v, checkers, query) == Operations(v, Matches(checkers, query))
  {
    if checkers != [] {
      var before := Matches(checkers[..|checkers| - 1], query);
      MatchFirstReportLater(v, checkers[..|checkers| - 1], query);
      if op :| checkers[|checkers| - 1](query) == Some(op) {
        assert (before + [op])[..|before|] == before;
      }
    }
  }

  /** What observing one statement of a given kind does, short of the transaction bookkeeping: a textual
      BEGIN outside any scope may be reported, a write is checked against other connections, and then the
      checkers see the counter as the statement left it (`openAfter`). */
  function Kind(v: View, kind: StatementKind, inTx: bool, self: bool, reportUnscopedTx: bool, query: string): Effect {
    match kind
    case KindBegin => Effect(v.Accounts(), if v.Nowhere? && !inTx && reportUnscopedTx then [UnscopedTx] else [])
    case KindWrite => Write(v, self, query)
    case _ => NoEffect(v)
  }

  lemma WriteIsKind(v: View, inTx: bool, self: bool, reportUnscopedTx: bool, query: string, open: int, e: Effect)
    requires e == Write(v, self, query) && (v.Within? ==> v.open == open)
    ensures Kind(v, KindWrite, inTx, self, reportUnscopedTx, query) == e && Reopened(v, open, e.gov) == v.With(e.gov)
  {
  }

  function Reopened(v: View, openAfter: int, g: Gov): View {
    if v.Nowhere? then v else v.(open := openAfter, gov := g)
  }

  function Statement(v: View, kind: StatementKind, inTx: bool, self: bool, reportUnscopedTx: bool,
                     openAfter: int, checkers: seq<Checker>, query: string): Effect
  {
    var first := Kind(v, kind, inTx, self, reportUnscopedTx, query);
    var then_ := RunCheckers(Reopened(v, openAfter, first.gov), checkers, query);
    Effect(then_.gov, first.reports + then_.reports)
  }

  lemma StatementIs(v: View, kind: StatementKind, inTx: bool, self: bool, reportUnscopedTx: bool,
                    openAfter: int, checkers: seq<Checker>, query: string, first: Effect, second: Effect)
    requires first == Kind(v, kind, inTx, self, reportUnscopedTx, query)
    requires second == RunCheckers(Reopened(v, openAfter, first.gov), checkers, query)
    ensures Statement(v, kind, inTx, self, reportUnscopedTx, openAfter, checkers, query) ==
        Effect(second.gov, first.reports + second.reports)
    ensures Reopened(Reopened(v, openAfter, first.gov), openAfter, second.gov) == Reopened(v, openAfter, second.gov)
  {
  }
}

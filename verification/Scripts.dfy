/** Whole runs of a program: sessions, scopes, regions and reports together, with statements executed
    directly or through prepared statements. */
module Scripts {
  import opened Types
  import opened Contexts
  import opened Attribution
  import opened Governance
  import opened Interleaving
  import V = Verdicts
  import M = Matching
  import T = Targets

  datatype ScopeRecord = ScopeRecord(name: string, openTxs: int, calls: Calls)

  datatype RegionRecord = RegionRecord(decl: Decl, n: int)

  /** What a context resolves to, scopes and regions by number. */
  type Place = Resolved<nat, nat>

  datatype World = World(
    sessions: seq<SessionState<nat>>, scopes: seq<ScopeRecord>, regions: seq<RegionRecord>,
    entries: Entries, trace: seq<Report>)
  {
    predicate Has(p: Place) {
      p.Scoped? ==> p.scope < |scopes| && (p.mark.Some? ==> p.mark.value < |regions|)
    }

    function ViewAt(p: Place): V.View
      requires Has(p)
    {
      match p
      case Unscoped => V.Nowhere
      case Scoped(s, None) => V.Within(scopes[s].name, scopes[s].openTxs, None, Gov(scopes[s].calls, 0, entries))
      case Scoped(s, Some(m)) =>
        V.Within(scopes[s].name, scopes[s].openTxs, Some(regions[m].decl), Gov(scopes[s].calls, regions[m].n, entries))
    }

    /** Records what an event at `p` did. */
    function Put(p: Place, e: V.Effect): World
      requires Has(p)
    {
      match p
      case Unscoped => this.(trace := trace + e.reports)
      case Scoped(s, mark) =>
        this.(scopes := scopes[s := scopes[s].(calls := e.gov.calls)],
              regions := if mark.Some? then regions[mark.value := regions[mark.value].(n := e.gov.regionCalls)]
                         else regions,
              entries := e.gov.entries,
              trace := trace + e.reports)
    }

    /** Session `i` makes call `c`; the scopes' counters follow. */
    function Moved(i: nat, c: Call<nat>): World
      requires i < |sessions|
    {
      this.(sessions := sessions[i := Apply(sessions[i], c)],
            scopes := seq(|scopes|, s requires 0 <= s < |scopes| =>
              scopes[s].(openTxs := scopes[s].openTxs + Delta(sessions[i], c, s))))
    }

    /** The sessions attributed to scope `s`. */
    function OpenIn(s: nat): set<nat> {
      set i | 0 <= i < |sessions| && In(sessions[i], s)
    }

    predicate CountersExact() {
      forall s | 0 <= s < |scopes| :: scopes[s].openTxs == |OpenIn(s)|
    }
  }

  datatype Config = Config(
    classify: string -> StatementKind, checkers: seq<V.Checker>, reportUnscopedTx: bool, reportUnscopedCheck: bool)

  datatype Step =
    | Run(session: nat, place: Place, query: string)
    | Begin(session: nat, place: Place)
    | End(session: nat)
    | Checkpoint(place: Place, op: Op, option: Option<Decl>)

  function ScopeAt(p: Place): Option<nat> {
    if p.Scoped? then Some(p.scope) else None
  }

  predicate Fits(w: World, step: Step) {
    && (step.Checkpoint? || step.session < |w.sessions|)
    && (step.End? || w.Has(step.place))
  }

  predicate FitsAll(w: World, script: seq<Step>) {
    forall step | step in script :: Fits(w, step)
  }

  predicate SameShape(w: World, w': World) {
    |w'.sessions| == |w.sessions| && |w'.scopes| == |w.scopes| && |w'.regions| == |w.regions|
  }

  /** The lifecycle half of a statement of a known kind. */
  function Lifecycle(cfg: Config, w: World, i: nat, p: Place, query: string, kind: StatementKind): (r: World)
    requires i < |w.sessions| && w.Has(p)
    ensures SameShape(w, r)
  {
    var self := p.Scoped? && In(w.sessions[i], p.scope);
    w.Moved(i, Call.Observe(kind, ScopeAt(p)))
     .Put(p, V.Kind(w.ViewAt(p), kind, w.sessions[i].inTx, self, cfg.reportUnscopedTx, query))
  }

  /** A statement executed directly: classified, then matched against the checkers one by one. */
  function RunDirectly(cfg: Config, w: World, i: nat, p: Place, query: string): (r: World)
    requires i < |w.sessions| && w.Has(p)
    ensures SameShape(w, r)
  {
    var w1 := Lifecycle(cfg, w, i, p, query, cfg.classify(query));
    w1.Put(p, V.RunCheckers(w1.ViewAt(p), cfg.checkers, query))
  }

  /** A prepared statement: what was worked out when it was prepared. */
  datatype Prepared = Prepared(kind: StatementKind, ops: seq<Op>)

  function Prepare(cfg: Config, query: string): Prepared {
    Prepared(cfg.classify(query), V.Matches(cfg.checkers, query))
  }

  function RunPrepared(cfg: Config, w: World, i: nat, p: Place, query: string, stmt: Prepared): (r: World)
    requires i < |w.sessions| && w.Has(p)
    ensures SameShape(w, r)
  {
    var w1 := Lifecycle(cfg, w, i, p, query, stmt.kind);
    w1.Put(p, V.Operations(w1.ViewAt(p), stmt.ops))
  }

  /** A step that is not a statement. */
  function Other(cfg: Config, w: World, step: Step): (r: World)
    requires Fits(w, step) && !step.Run?
    ensures SameShape(w, r)
  {
    match step
    case Begin(i, p) =>
      var reports := if p.Unscoped? && cfg.reportUnscopedTx then [UnscopedTx] else [];
      var w1 := w.Moved(i, BeginTx(ScopeAt(p)));
      w1.(trace := w1.trace + reports)
    case End(i) => w.Moved(i, EndTx)
    case Checkpoint(p, op, option) => w.Put(p, V.Check(w.ViewAt(p), cfg.reportUnscopedCheck, op, option))
  }

  function After(cfg: Config, w: World, step: Step): (r: World)
    requires Fits(w, step)
    ensures SameShape(w, r)
  {
    if step.Run? then RunDirectly(cfg, w, step.session, step.place, step.query) else Other(cfg, w, step)
  }

  /** The whole script, every statement executed directly. */
  function Directly(cfg: Config, w: World, script: seq<Step>): (r: World)
    requires FitsAll(w, script)
    ensures SameShape(w, r)
  {
    if script == [] then w
    else
      var w1, step := Directly(cfg, w, script[..|script| - 1]), script[|script| - 1];
      assert Fits(w, step);
      After(cfg, w1, step)
  }

  type Cache = map<string, Prepared>

  predicate CacheAgrees(cfg: Config, cache: Cache) {
    forall q | q in cache :: cache[q] == Prepare(cfg, q)
  }

  /** The whole script, every statement prepared on first use and executed from then on as prepared. */
  function ThroughPrepared(cfg: Config, w: World, script: seq<Step>): (r: (World, Cache))
    requires FitsAll(w, script)
    ensures SameShape(w, r.0)
  {
    if script == [] then (w, map[])
    else
      var (w1, cache), step := ThroughPrepared(cfg, w, script[..|script| - 1]), script[|script| - 1];
      assert Fits(w, step);
      if step.Run? then
        var stmt := if step.query in cache then cache[step.query] else Prepare(cfg, step.query);
        (RunPrepared(cfg, w1, step.session, step.place, step.query, stmt), cache[step.query := stmt])
      else (Other(cfg, w1, step), cache)
  }

  lemma PreparedRunsAsDirect(cfg: Config, w: World, i: nat, p: Place, query: string)
    requires i < |w.sessions| && w.Has(p)
    ensures RunPrepared(cfg, w, i, p, query, Prepare(cfg, query)) == RunDirectly(cfg, w, i, p, query)
  {
    var w1 := Lifecycle(cfg, w, i, p, query, cfg.classify(query));
    V.MatchFirstReportLater(w1.ViewAt(p), cfg.checkers, query);
  }

  /** Over any script, on any sessions, with any contexts: executing through prepared statements ends in the
      same state with the same reports in the same order as executing directly. */
  lemma {:induction false} PreparedAndDirectAgree(cfg: Config, w: World, script: seq<Step>)
    requires FitsAll(w, script)
    ensures ThroughPrepared(cfg, w, script).0 == Directly(cfg, w, script)
    ensures CacheAgrees(cfg, ThroughPrepared(cfg, w, script).1)
  {
    if script != [] {
      var init, step := script[..|script| - 1], script[|script| - 1];
      PreparedAndDirectAgree(cfg, w, init);
      assert Fits(w, step);
      if step.Run? {
        PreparedRunsAsDirect(cfg, Directly(cfg, w, init), step.session, step.place, step.query);
      }
    }
  }

  // ---------- what a checkpoint says after a run ----------

  /** The call a step makes on session `i`, if it makes one. */
  function CallOf(cfg: Config, step: Step, i: nat): seq<Call<nat>> {
    match step
    case Run(j, p, q) => if i == j then [Call.Observe(cfg.classify(q), ScopeAt(p))] else []
    case Begin(j, p) => if i == j then [BeginTx(ScopeAt(p))] else []
    case End(j) => if i == j then [EndTx] else []
    case Checkpoint(_, _, _) => []
  }

  function CallsOf(cfg: Config, script: seq<Step>, i: nat): seq<Call<nat>> {
    if script == [] then []
    else CallsOf(cfg, script[..|script| - 1], i) + CallOf(cfg, script[|script| - 1], i)
  }

  lemma MovedKeepsCounter(w: World, i: nat, c: Call<nat>, s: nat)
    requires i < |w.sessions| && s < |w.scopes| && w.scopes[s].openTxs == |w.OpenIn(s)|
    ensures w.Moved(i, c).scopes[s].openTxs == |w.Moved(i, c).OpenIn(s)|
  {
    var x, open, open' := w.sessions[i], w.OpenIn(s), w.Moved(i, c).OpenIn(s);
    assert w.Moved(i, c).scopes[s].openTxs == |open| + Delta(x, c, s);
    if In(Apply(x, c), s) {
      assert open' == open + {i};
    } else {
      assert open' == open - {i};
    }
    assert i in open <==> In(x, s);
  }

  lemma MovedKeepsCounters(w: World, i: nat, c: Call<nat>)
    requires i < |w.sessions| && w.CountersExact()
    ensures w.Moved(i, c).CountersExact()
  {
    forall s | 0 <= s < |w.scopes| ensures w.Moved(i, c).scopes[s].openTxs == |w.Moved(i, c).OpenIn(s)| {
      MovedKeepsCounter(w, i, c, s);
    }
  }

  lemma PutKeepsCounters(w: World, p: Place, e: V.Effect)
    requires w.Has(p) && w.CountersExact()
    ensures w.Put(p, e).CountersExact() && w.Put(p, e).sessions == w.sessions
  {
    assert forall s: nat :: w.Put(p, e).OpenIn(s) == w.OpenIn(s);
  }

  lemma StepFollows(cfg: Config, w: World, step: Step, i: nat)
    requires Fits(w, step) && i < |w.sessions|
    ensures After(cfg, w, step).sessions[i] ==
      if CallOf(cfg, step, i) == [] then w.sessions[i] else Apply(w.sessions[i], CallOf(cfg, step, i)[0])
  {
  }

  lemma StepKeepsCounters(cfg: Config, w: World, step: Step)
    requires Fits(w, step) && w.CountersExact()
    ensures After(cfg, w, step).CountersExact()
  {
    match step
    case Run(j, p, q) =>
      var kind := cfg.classify(q);
      var moved, w1 := w.Moved(j, Call.Observe(kind, ScopeAt(p))), Lifecycle(cfg, w, j, p, q, kind);
      MovedKeepsCounters(w, j, Call.Observe(kind, ScopeAt(p)));
      var self := p.Scoped? && In(w.sessions[j], p.scope);
      PutKeepsCounters(moved, p, V.Kind(w.ViewAt(p), kind, w.sessions[j].inTx, self, cfg.reportUnscopedTx, q));
      PutKeepsCounters(w1, p, V.RunCheckers(w1.ViewAt(p), cfg.checkers, q));
    case Begin(j, p) =>
      MovedKeepsCounters(w, j, BeginTx(ScopeAt(p)));
      SameSessions(w.Moved(j, BeginTx(ScopeAt(p))), After(cfg, w, step));
    case End(j) => MovedKeepsCounters(w, j, EndTx);
    case Checkpoint(p, op, option) => PutKeepsCounters(w, p, V.Check(w.ViewAt(p), cfg.reportUnscopedCheck, op, option));
  }

  lemma SameSessions(w: World, w': World)
    requires w'.sessions == w.sessions && w'.scopes == w.scopes && w.CountersExact()
    ensures w'.CountersExact()
  {
    assert forall s: nat :: w'.OpenIn(s) == w.OpenIn(s);
  }

  /** A world nothing has run in. */
  predicate Fresh(w: World) {
    && (forall x | x in w.sessions :: x == Closed())
    && (forall s | s in w.scopes :: s.openTxs == 0)
  }

  /** After any script every counter is exact. */
  lemma {:induction false} ScriptKeepsCounters(cfg: Config, w: World, script: seq<Step>)
    requires FitsAll(w, script) && Fresh(w)
    ensures Directly(cfg, w, script).CountersExact()
  {
    if script == [] {
      forall s | 0 <= s < |w.scopes| ensures w.scopes[s].openTxs == |w.OpenIn(s)| {
        assert w.scopes[s] in w.scopes;
        forall j | 0 <= j < |w.sessions| ensures !In(w.sessions[j], s) { assert w.sessions[j] in w.sessions; }
        assert w.OpenIn(s) == {};
      }
    } else {
      var step := script[|script| - 1];
      ScriptKeepsCounters(cfg, w, script[..|script| - 1]);
      assert Fits(w, step);
      StepKeepsCounters(cfg, Directly(cfg, w, script[..|script| - 1]), step);
    }
  }

  /** After any script every session is where its own calls put it. */
  lemma {:induction false} ScriptFollows(cfg: Config, w: World, script: seq<Step>, i: nat)
    requires FitsAll(w, script) && Fresh(w) && i < |w.sessions|
    ensures Directly(cfg, w, script).sessions[i] == Replay(CallsOf(cfg, script, i))
  {
    if script == [] {
      assert w.sessions[i] in w.sessions;
    } else {
      var init, step := script[..|script| - 1], script[|script| - 1];
      ScriptFollows(cfg, w, init, i);
      assert Fits(w, step);
      StepFollows(cfg, Directly(cfg, w, init), step, i);
      var h := CallsOf(cfg, init, i);
      if CallOf(cfg, step, i) == [] {
        assert h + [] == h;
      } else {
        ReplaySnoc(h, CallOf(cfg, step, i)[0]);
      }
    }
  }

  /** Call `o` of session `i` opened, in scope `s`, the transaction the session has open after the script. */
  predicate LeftOpen(cfg: Config, script: seq<Step>, i: nat, o: int, s: nat) {
    var h := CallsOf(cfg, script, i);
    OpenSince(h, o) && h[o].scope == Some(s)
  }

  ghost predicate HasLeftOpen(cfg: Config, script: seq<Step>, i: nat, s: nat) {
    exists o :: LeftOpen(cfg, script, i, o, s)
  }

  ghost function SessionsLeftOpen(cfg: Config, script: seq<Step>, n: nat, s: nat): set<nat> {
    set i | 0 <= i < n && HasLeftOpen(cfg, script, i, s)
  }

  lemma AttributedIsLeftOpen(cfg: Config, w: World, script: seq<Step>, s: nat, i: nat)
    requires FitsAll(w, script) && Fresh(w) && i < |w.sessions|
    ensures In(Directly(cfg, w, script).sessions[i], s) <==> HasLeftOpen(cfg, script, i, s)
  {
    var h := CallsOf(cfg, script, i);
    ScriptFollows(cfg, w, script, i);
    FieldsFollowHistory(h);
    if In(Replay(h), s) {
      var o :| OpenSince(h, o);
      assert LeftOpen(cfg, script, i, o, s);
    }
  }

  lemma CounterIsSessionsLeftOpen(cfg: Config, w: World, script: seq<Step>, s: nat)
    requires FitsAll(w, script) && Fresh(w) && s < |w.scopes|
    ensures Directly(cfg, w, script).scopes[s].openTxs == |SessionsLeftOpen(cfg, script, |w.sessions|, s)|
  {
    var after := Directly(cfg, w, script);
    ScriptKeepsCounters(cfg, w, script);
    forall i | 0 <= i < |w.sessions| ensures In(after.sessions[i], s) <==> HasLeftOpen(cfg, script, i, s) {
      AttributedIsLeftOpen(cfg, w, script, s, i);
    }
    assert after.OpenIn(s) == SessionsLeftOpen(cfg, script, |w.sessions|, s);
  }

  /** What an uncovered checkpoint must report when `open` transactions are open in its scope. */
  function Uncovered(rec: ScopeRecord, op: Op, open: int): seq<Report> {
    M.PlainReports(rec.name, op, open, CallsSoFar(rec.calls, KeyOf(rec.name, op)) + 1)
  }

  /** A checkpoint nothing exempts. */
  lemma PlainCheckpoint(cfg: Config, w: World, s: nat, op: Op)
    requires s < |w.scopes| && EntryKey(w.entries, KeyOf(w.scopes[s].name, op)).None?
    ensures var rec := w.scopes[s];
      Other(cfg, w, Checkpoint(Scoped(s, None), op, None)).trace ==
        w.trace + Uncovered(rec, op, rec.openTxs)
  {
    var rec := w.scopes[s];
    var g := Gov(rec.calls, 0, w.entries);
    assert ViolationOf(g, rec.name, op, rec.openTxs, None, None).value.allowedCalls == [];
    var none: Option<Decl> := None;
    assert V.Stales(rec.name, op, none) + V.Stales(rec.name, op, none) == [];
  }

  /** After any script, a checkpoint no exemption covers reports a violation exactly when the script's calls
      left a transaction open in its scope, and says how many sessions have one. */
  lemma CheckpointAfterScript(cfg: Config, w: World, script: seq<Step>, s: nat, op: Op)
    requires FitsAll(w, script) && Fresh(w) && s < |w.scopes|
    requires EntryKey(Directly(cfg, w, script).entries, KeyOf(Directly(cfg, w, script).scopes[s].name, op)).None?
    ensures var before := Directly(cfg, w, script);
      Other(cfg, before, Checkpoint(Scoped(s, None), op, None)).trace ==
        before.trace + Uncovered(before.scopes[s], op, |SessionsLeftOpen(cfg, script, |w.sessions|, s)|)
  {
    CounterIsSessionsLeftOpen(cfg, w, script, s);
    PlainCheckpoint(cfg, Directly(cfg, w, script), s, op);
  }

  // ---------- what a statement says after a run ----------

  /** Running a statement in a script is observing it: the accounts its context shows, and the reports, are
      those of the statement. */
  lemma RunIsStatement(cfg: Config, w: World, i: nat, p: Place, query: string)
    requires i < |w.sessions| && w.Has(p)
    ensures var r, v := RunDirectly(cfg, w, i, p, query), w.ViewAt(p);
      var open := OpenAt(r, p);
      var e := V.Statement(v, cfg.classify(query), w.sessions[i].inTx, p.Scoped? && In(w.sessions[i], p.scope),
                           cfg.reportUnscopedTx, open, cfg.checkers, query);
      && r.ViewAt(p) == V.Reopened(v, open, e.gov)
      && r.trace == w.trace + e.reports
  {
    var kind, self := cfg.classify(query), p.Scoped? && In(w.sessions[i], p.scope);
    var w1 := Lifecycle(cfg, w, i, p, query, kind);
    var first := V.Kind(w.ViewAt(p), kind, w.sessions[i].inTx, self, cfg.reportUnscopedTx, query);
    var second := V.RunCheckers(w1.ViewAt(p), cfg.checkers, query);
    LifecycleShows(cfg, w, i, p, query, kind);
    CheckersShow(cfg, w1, p, query);
    V.StatementIs(w.ViewAt(p), kind, w.sessions[i].inTx, self, cfg.reportUnscopedTx, OpenAt(w1, p), cfg.checkers, query,
                  first, second);
    OneAfterTheOther(w, w1, RunDirectly(cfg, w, i, p, query), p, first, second);
  }

  lemma OneAfterTheOther(w: World, w1: World, w2: World, p: Place, first: V.Effect, second: V.Effect)
    requires w.Has(p) && w1.Has(p) && w2.Has(p) && OpenAt(w2, p) == OpenAt(w1, p)
    requires w1.ViewAt(p) == V.Reopened(w.ViewAt(p), OpenAt(w1, p), first.gov) && w1.trace == w.trace + first.reports
    requires w2.ViewAt(p) == w1.ViewAt(p).With(second.gov) && w2.trace == w1.trace + second.reports
    ensures w2.ViewAt(p) == V.Reopened(w.ViewAt(p), OpenAt(w2, p), second.gov)
    ensures w2.trace == w.trace + (first.reports + second.reports)
  {
    assert (w.trace + first.reports) + second.reports == w.trace + (first.reports + second.reports);
  }

  function OpenAt(w: World, p: Place): int
    requires w.Has(p)
  {
    if p.Scoped? then w.scopes[p.scope].openTxs else 0
  }

  lemma LifecycleShows(cfg: Config, w: World, i: nat, p: Place, query: string, kind: StatementKind)
    requires i < |w.sessions| && w.Has(p)
    ensures var self := p.Scoped? && In(w.sessions[i], p.scope);
      var first := V.Kind(w.ViewAt(p), kind, w.sessions[i].inTx, self, cfg.reportUnscopedTx, query);
      var w1 := Lifecycle(cfg, w, i, p, query, kind);
      w1.ViewAt(p) == V.Reopened(w.ViewAt(p), OpenAt(w1, p), first.gov) && w1.trace == w.trace + first.reports
  {
    var self := p.Scoped? && In(w.sessions[i], p.scope);
    PutShows(w.Moved(i, Call.Observe(kind, ScopeAt(p))), p,
             V.Kind(w.ViewAt(p), kind, w.sessions[i].inTx, self, cfg.reportUnscopedTx, query));
  }

  lemma CheckersShow(cfg: Config, w: World, p: Place, query: string)
    requires w.Has(p)
    ensures var e := V.RunCheckers(w.ViewAt(p), cfg.checkers, query);
      && w.Put(p, e).ViewAt(p) == w.ViewAt(p).With(e.gov) && OpenAt(w.Put(p, e), p) == OpenAt(w, p)
      && w.Put(p, e).trace == w.trace + e.reports
  {
    if p.Scoped? {
      M.CheckersReport(w.ViewAt(p), cfg.checkers, query);
    }
    PutShows(w, p, V.RunCheckers(w.ViewAt(p), cfg.checkers, query));
  }

  /** What a place shows after an effect that counted for a region only if there is one. */
  lemma PutShows(w: World, p: Place, e: V.Effect)
    requires w.Has(p) && (p.Scoped? && p.mark.None? ==> e.gov.regionCalls == 0)
    ensures w.Put(p, e).ViewAt(p) == w.ViewAt(p).With(e.gov)
    ensures w.Put(p, e).trace == w.trace + e.reports
  {
  }

  /** What a scope shows to an event no region covers, with `open` transactions open. */
  function Shown(w: World, s: nat, open: int): V.View
    requires s < |w.scopes|
  {
    V.Within(w.scopes[s].name, open, None, Gov(w.scopes[s].calls, 0, w.entries))
  }

  lemma ScriptWithOneMore(cfg: Config, w: World, script: seq<Step>, step: Step)
    requires FitsAll(w, script) && Fits(w, step)
    ensures FitsAll(w, script + [step])
    ensures Directly(cfg, w, script + [step]) == After(cfg, Directly(cfg, w, script), step)
  {
    assert (script + [step])[..|script|] == script;
  }

  /** After any script, a statement run in a scope reports, after what its own kind calls for, its matches:
      nothing when it leaves no transaction open in the scope, and otherwise what the matches come to with as
      many open as there are sessions the script and the statement leave inside one. Only a write's kind
      calls for anything. */
  lemma MatchedStatementAfterScript(cfg: Config, w: World, script: seq<Step>, i: nat, s: nat, query: string)
    requires FitsAll(w, script) && Fresh(w) && i < |w.sessions| && s < |w.scopes|
    ensures var before, step := Directly(cfg, w, script), Run(i, Scoped(s, None), query);
      var begun := Lifecycle(cfg, before, i, Scoped(s, None), query, cfg.classify(query));
      FitsAll(w, script + [step]) &&
      var open := |SessionsLeftOpen(cfg, script + [step], |w.sessions|, s)|;
      && (!cfg.classify(query).KindWrite? ==>
            begun.trace == before.trace && Shown(begun, s, open) == Shown(before, s, open))
      && Directly(cfg, w, script + [step]).trace == begun.trace +
          if open == 0 then [] else M.MatchReports(Shown(begun, s, open), V.Matches(cfg.checkers, query))
  {
    var before, step := Directly(cfg, w, script), Run(i, Scoped(s, None), query);
    ScriptWithOneMore(cfg, w, script, step);
    CounterIsSessionsLeftOpen(cfg, w, script + [step], s);
    MatchedStatement(cfg, before, i, s, query);
  }

  lemma MatchedStatement(cfg: Config, w: World, i: nat, s: nat, query: string)
    requires i < |w.sessions| && s < |w.scopes|
    ensures var begun := Lifecycle(cfg, w, i, Scoped(s, None), query, cfg.classify(query));
      var r := RunDirectly(cfg, w, i, Scoped(s, None), query);
      var open := r.scopes[s].openTxs;
      && (!cfg.classify(query).KindWrite? ==> begun.trace == w.trace && Shown(begun, s, open) == Shown(w, s, open))
      && r.trace == begun.trace +
          if open <= 0 then [] else M.MatchReports(Shown(begun, s, open), V.Matches(cfg.checkers, query))
  {
    var begun := Lifecycle(cfg, w, i, Scoped(s, None), query, cfg.classify(query));
    M.CheckersReport(begun.ViewAt(Scoped(s, None)), cfg.checkers, query);
    Nothing(w.trace);
  }

  /** After any script, a write run in a scope without exemptions reports a violation under its target exactly
      when another session has been left inside a transaction there, and says how many have. */
  lemma WriteAfterScript(cfg: Config, w: World, script: seq<Step>, i: nat, s: nat, query: string)
    requires FitsAll(w, script) && Fresh(w) && i < |w.sessions| && s < |w.scopes|
    requires cfg.classify(query) == KindWrite
    requires var before := Directly(cfg, w, script); M.Unexempted(before.ViewAt(Scoped(s, None)), [WriteOp(query)])
    ensures var before := Directly(cfg, w, script);
      var others := SessionsLeftOpen(cfg, script, |w.sessions|, s) - {i};
      Lifecycle(cfg, before, i, Scoped(s, None), query, KindWrite).trace ==
        before.trace + Uncovered(before.scopes[s], WriteOp(query), |others|)
  {
    var before := Directly(cfg, w, script);
    var open := SessionsLeftOpen(cfg, script, |w.sessions|, s);
    CounterIsSessionsLeftOpen(cfg, w, script, s);
    AttributedIsLeftOpen(cfg, w, script, s, i);
    WithoutOne(open, i);
    T.OpNameIsTarget(query);
    assert WriteOp(query) in [WriteOp(query)];
    WriteSeen(cfg, before, i, s, query, WriteOp(query), |open - {i}|);
  }

  /** The operation a write is reported under. */
  function WriteOp(query: string): Op {
    Op("db", if T.WriteTarget(query) == "" then "write" else T.WriteTarget(query))
  }

  lemma WriteSeen(cfg: Config, w: World, i: nat, s: nat, query: string, op: Op, foreign: nat)
    requires i < |w.sessions| && s < |w.scopes|
    requires op == Op("db", T.CrossConnOpName(query)) && M.Declared(w.ViewAt(Scoped(s, None)), op).None?
    requires w.scopes[s].openTxs == foreign + if In(w.sessions[i], s) then 1 else 0
    ensures Lifecycle(cfg, w, i, Scoped(s, None), query, KindWrite).trace ==
            w.trace + Uncovered(w.scopes[s], op, foreign)
  {
    WriteTrace(cfg, w, i, s, query);
    PlainWriteReports(w.ViewAt(Scoped(s, None)), w.scopes[s], In(w.sessions[i], s), query, op, foreign);
  }

  lemma WriteTrace(cfg: Config, w: World, i: nat, s: nat, query: string)
    requires i < |w.sessions| && s < |w.scopes|
    ensures Lifecycle(cfg, w, i, Scoped(s, None), query, KindWrite).trace ==
            w.trace + V.Write(w.ViewAt(Scoped(s, None)), In(w.sessions[i], s), query).reports
  {
  }

  lemma PlainWriteReports(v: V.View, rec: ScopeRecord, self: bool, query: string, op: Op, foreign: nat)
    requires v.Within? && v.scope == rec.name && v.open == rec.openTxs && v.region.None? && v.gov.calls == rec.calls
    requires op == Op("db", T.CrossConnOpName(query)) && M.Declared(v, op).None?
    requires rec.openTxs == foreign + if self then 1 else 0
    ensures V.Write(v, self, query).reports == Uncovered(rec, op, foreign)
  {
    M.PlainWrite(v, self, query, op, foreign);
    PlainIsUncovered(v, rec, op, foreign, V.Write(v, self, query).reports);
  }

  lemma PlainIsUncovered(v: V.View, rec: ScopeRecord, op: Op, open: int, reports: seq<Report>)
    requires v.Within? && v.scope == rec.name && v.gov.calls == rec.calls
    requires reports == M.PlainReports(v.scope, op, open, CallsSoFar(v.gov.calls, KeyOf(v.scope, op)) + 1)
    ensures reports == Uncovered(rec, op, open)
  {
  }

  /** A checkpoint under an uncounted region is suppressed and counted when transactions are open, and
      otherwise reports the region as stale. */
  predicate RegionAnswers(cfg: Config, w: World, s: nat, m: nat, op: Op, open: int)
    requires s < |w.scopes| && m < |w.regions|
  {
    var after, region := Other(cfg, w, Checkpoint(Scoped(s, Some(m)), op, None)), w.regions[m];
    if open <= 0 then
      && after.trace == w.trace + [Stale(StaleAllow(w.scopes[s].name, op, region.decl.reason, 0, []))]
      && after.regions == w.regions
    else after.trace == w.trace && after.regions == w.regions[m := region.(n := region.n + 1)]
  }

  /** So it is after any script, with as many open as there are sessions the script leaves inside one. */
  lemma RegionCheckpointAfterScript(cfg: Config, w: World, script: seq<Step>, s: nat, m: nat, op: Op)
    requires FitsAll(w, script) && Fresh(w) && s < |w.scopes| && m < |w.regions|
    requires Directly(cfg, w, script).regions[m].decl.counts == []
    ensures RegionAnswers(cfg, Directly(cfg, w, script), s, m, op, |SessionsLeftOpen(cfg, script, |w.sessions|, s)|)
  {
    CounterIsSessionsLeftOpen(cfg, w, script, s);
    RegionCheckpoint(cfg, Directly(cfg, w, script), s, m, op);
  }

  lemma RegionCheckpoint(cfg: Config, w: World, s: nat, m: nat, op: Op)
    requires s < |w.scopes| && m < |w.regions| && w.regions[m].decl.counts == []
    ensures RegionAnswers(cfg, w, s, m, op, w.scopes[s].openTxs)
  {
    Nothing(w.trace);
    Nothing(V.Stales(w.scopes[s].name, op, Some(w.regions[m].decl)));
  }
}

/** One session per connection: the object whose two fields and whose scope's counter follow its calls. */
module Sessions {
  import opened Types
  import opened Contexts
  import opened Attribution
  import opened Detectors
  import V = Verdicts
  import T = Targets

  class Session {
    const det: Detector
    var inTx: bool
    var txScope: Scope?

    constructor (det: Detector)
      ensures this.det == det && Valid() && State() == Closed()
    {
      this.det := det;
      inTx, txScope := false, null;
    }

    /** Outside a transaction a session is attributed to nothing. */
    ghost predicate Valid()
      reads this
    {
      !inTx ==> txScope == null
    }

    ghost function State(): SessionState<Scope>
      reads this
    {
      SessionState(inTx, if txScope == null then None else Some(txScope))
    }

    ghost function TxScopeSet(): set<Scope>
      reads this
    {
      if txScope == null then {} else {txScope}
    }

    /** Whether this session is itself counted in the context's scope. */
    ghost predicate Self(ctx: Ctx)
      reads this
    {
      ScopeOf(ctx).Some? && In(State(), ScopeOf(ctx).value)
    }

    ghost function OpenNow(ctx: Ctx): int
      reads ScopeSet(ctx)
    {
      match Resolve(ctx) case Unscoped => 0 case Scoped(s, _) => s.openTxs
    }

    /** The two counters this call can touch, that of the context's scope and that of the scope the session
        was attributed to (`held`), have moved by exactly what the call means for them. */
    twostate predicate CountersMoved(c: Call<Scope>, ctx: Ctx, held: Scope?)
      reads this, ScopeSet(ctx), held
    {
      && (ScopeOf(ctx).Some? ==> OpenNow(ctx) == old(OpenNow(ctx)) + Delta(old(State()), c, ScopeOf(ctx).value))
      && (held != null ==> held.openTxs == old(held.openTxs) + Delta(old(State()), c, held))
    }

    /** Nothing this context or this session can see has changed. */
    twostate predicate Untouched(ctx: Ctx, held: Scope?)
      reads this, held, ScopeSet(ctx), MarkSet(ctx), det.ListSet(), det`logs
    {
      && State() == old(State()) && det.ViewOf(ctx) == old(det.ViewOf(ctx)) && det.logs == old(det.logs)
      && (held != null ==> held.openTxs == old(held.openTxs))
    }

    method OpenTx(ctx: Ctx)
      requires det.Valid() && State() == Closed()
      modifies this, ScopeSet(ctx)`openTxs, det`logs
      ensures State() == SessionState(true, ScopeOf(ctx))
      ensures ScopeOf(ctx).Some? ==> OpenNow(ctx) == old(OpenNow(ctx)) + 1
      ensures det.ViewOf(ctx) == V.Reopened(old(det.ViewOf(ctx)), OpenNow(ctx), old(det.ViewOf(ctx)).Accounts())
      ensures Delivered(det.reporters, old(det.logs), det.logs,
                        if ScopeOf(ctx).None? && det.reportUnscoped then [UnscopedTx] else [])
    {
      ghost var (s, mark) := ScopeAndMarkFrom(ctx);
      inTx := true;
      txScope := ScopeAndMarkFrom(ctx).0;
      if txScope != null {
        txScope.openTxs := txScope.openTxs + 1;
      } else if det.reportUnscoped {
        det.Emit(UnscopedTx);
      }
    }

    method CloseTx(ghost ctx: Ctx)
      requires Valid()
      modifies this, TxScopeSet()`openTxs
      ensures State() == Closed()
      ensures CountersMoved(Call.EndTx, ctx, old(txScope))
      ensures det.ViewOf(ctx) == V.Reopened(old(det.ViewOf(ctx)), OpenNow(ctx), old(det.ViewOf(ctx)).Accounts())
    {
      ghost var (s, mark) := ScopeAndMarkFrom(ctx);
      ghost var held := txScope;
      assert s != null && !In(State(), s) ==> held != s;
      if !inTx {
        return;
      }
      inTx := false;
      if txScope != null {
        txScope.openTxs := txScope.openTxs - 1;
        txScope := null;
      }
    }

    /** A driver-level begin: whatever was open is closed first. */
    method BeginTx(ctx: Ctx)
      requires Valid() && det.Valid()
      modifies this, TxScopeSet()`openTxs, ScopeSet(ctx)`openTxs, det`logs
      ensures Valid() && State() == Apply(old(State()), Call.BeginTx(ScopeOf(ctx)))
      ensures CountersMoved(Call.BeginTx(ScopeOf(ctx)), ctx, old(txScope))
      ensures Delivered(det.reporters, old(det.logs), det.logs,
                        if ScopeOf(ctx).None? && det.reportUnscoped then [UnscopedTx] else [])
    {
      ghost var (s, mark) := ScopeAndMarkFrom(ctx);
      CloseTx(ctx);
      OpenTx(ctx);
    }

    method EndTx()
      requires Valid()
      modifies this, TxScopeSet()`openTxs
      ensures Valid() && State() == Apply(old(State()), Call.EndTx)
      ensures CountersMoved(Call.EndTx, Background, old(txScope))
    {
      CloseTx(Background);
    }

    /** The cross-connection verdict on a write. */
    method ReportIfCrossConn(ctx: Ctx, query: string)
      requires Valid() && det.Valid()
      modifies ScopeSet(ctx)`calls, MarkSet(ctx), det.ListSet(), det`logs
      ensures var e := V.Write(old(det.ViewOf(ctx)), Self(ctx), query);
              det.Shows(ctx, old(det.ViewOf(ctx)), e) && Delivered(det.reporters, old(det.logs), det.logs, e.reports)
      ensures inTx && txScope != null && ScopeOf(ctx) == Some(txScope) && txScope.openTxs == 1 ==>
              det.logs == old(det.logs) && det.ViewOf(ctx) == old(det.ViewOf(ctx))
    {
      var (sc, mark) := ScopeAndMarkFrom(ctx);
      if sc == null {
        return;
      }
      var total := sc.openTxs;
      var self := 0;
      if inTx && txScope == sc {
        self := 1;
      }
      var foreign := total - self;
      ghost var v := det.ViewOf(ctx);
      ghost var op := Op("db", T.CrossConnOpName(query));
      V.WriteCases(v, Self(ctx), query, foreign);
      if foreign <= 0 {
        if total == 0 && mark != null {
          EmitStaleWrite(ctx, sc, mark, Op("db", T.CrossConnOpName(query)));
        }
        return;
      }
      ReportForeign(ctx, sc, mark, Op("db", T.CrossConnOpName(query)), foreign);
    }

    method EmitStaleWrite(ghost ctx: Ctx, sc: Scope, mark: AllowMark, op: Op)
      requires det.Valid() && ScopeAndMarkFrom(ctx) == (sc, mark)
      modifies det`logs
      ensures Delivered(det.reporters, old(det.logs), det.logs, V.Stales(sc.name, op, Some(mark.decl)))
    {
      det.Emit(Stale(StaleAllow(sc.name, op, mark.decl.reason, 0, [])));
    }

    method ReportForeign(ghost ctx: Ctx, sc: Scope, mark: AllowMark?, op: Op, foreign: int)
      requires det.Valid() && ScopeAndMarkFrom(ctx) == (sc, mark)
      modifies sc`calls, mark, det.ListSet(), det`logs
      ensures var e := V.Event(old(det.ViewOf(ctx)), op, foreign, None);
              det.Shows(ctx, old(det.ViewOf(ctx)), e) && Delivered(det.reporters, old(det.logs), det.logs, e.reports)
    {
      det.DecideAndReport(sc, mark, op, foreign, None);
    }

    /** What a statement of each kind does to the session and to the counters: COMMIT and ROLLBACK close what
        is open and take one from its scope; BEGIN opens in the context's scope and adds one there when
        nothing is open; anything else, and a BEGIN inside a transaction, moves nothing. */
    twostate predicate MovedAsKind(kind: StatementKind, ctx: Ctx, held: Scope?)
      reads this, ScopeSet(ctx), held
    {
      match kind
      case KindCommit => ClosedFrom(held)
      case KindRollback => ClosedFrom(held)
      case KindBegin =>
        if old(inTx) then NotMoved(ctx, held)
        else inTx && txScope == ScopeAndMarkFrom(ctx).0 && (txScope != null ==> OpenNow(ctx) == old(OpenNow(ctx)) + 1)
      case _ => NotMoved(ctx, held)
    }

    twostate predicate ClosedFrom(held: Scope?)
      reads this, held
    {
      !inTx && txScope == null && (old(inTx) && held != null ==> held.openTxs == old(held.openTxs) - 1)
    }

    twostate predicate NotMoved(ctx: Ctx, held: Scope?)
      reads this, ScopeSet(ctx), held
    {
      && inTx == old(inTx) && txScope == old(txScope) && OpenNow(ctx) == old(OpenNow(ctx))
      && (held != null ==> held.openTxs == old(held.openTxs))
    }

    /** What one statement of a known kind must do, short of the statement checkers. */
    twostate predicate KindObserved(kind: StatementKind, ctx: Ctx, query: string, held: Scope?)
      reads this, held, ScopeSet(ctx), MarkSet(ctx), det.ListSet(), det`logs
    {
      var v := old(det.ViewOf(ctx));
      var e := V.Kind(v, kind, old(inTx), old(Self(ctx)), det.reportUnscoped, query);
      && Valid() && State() == Apply(old(State()), Call.Observe(kind, ScopeOf(ctx)))
      && CountersMoved(Call.Observe(kind, ScopeOf(ctx)), ctx, held) && MovedAsKind(kind, ctx, held)
      && det.ViewOf(ctx) == V.Reopened(v, OpenNow(ctx), e.gov)
      && Delivered(det.reporters, old(det.logs), det.logs, e.reports)
    }

    /** A textual BEGIN counts only outside a transaction. */
    method ObserveBegin(ctx: Ctx, ghost query: string)
      requires Valid() && det.Valid()
      modifies this, ScopeSet(ctx)`openTxs, det`logs
      ensures KindObserved(KindBegin, ctx, query, old(txScope))
    {
      ghost var (s, mark) := ScopeAndMarkFrom(ctx);
      if !inTx {
        OpenTx(ctx);
      }
    }

    method ObserveEnd(ghost ctx: Ctx, ghost query: string, kind: StatementKind)
      requires Valid() && det.Valid() && (kind.KindCommit? || kind.KindRollback?)
      modifies this, TxScopeSet()`openTxs
      ensures KindObserved(kind, ctx, query, old(txScope))
    {
      ghost var (s, mark) := ScopeAndMarkFrom(ctx);
      CloseTx(ctx);
    }

    method ObserveWrite(ctx: Ctx, query: string)
      requires Valid() && det.Valid()
      modifies ScopeSet(ctx)`calls, MarkSet(ctx), det.ListSet(), det`logs
      ensures KindObserved(KindWrite, ctx, query, old(txScope))
    {
      ghost var (s, mark) := ScopeAndMarkFrom(ctx);
      ghost var e := V.Write(det.ViewOf(ctx), Self(ctx), query);
      V.WriteIsKind(det.ViewOf(ctx), inTx, Self(ctx), det.reportUnscoped, query, OpenNow(ctx), e);
      ReportIfCrossConn(ctx, query);
      assert NotMoved(ctx, txScope);
    }

    /** One statement of a known kind, short of the statement checkers. */
    method ObserveKind(ctx: Ctx, query: string, kind: StatementKind)
      requires Valid() && det.Valid()
      modifies this, TxScopeSet()`openTxs, ScopeSet(ctx)`openTxs, ScopeSet(ctx)`calls, MarkSet(ctx), det.ListSet(),
          det`logs
      ensures KindObserved(kind, ctx, query, old(txScope))
    {
      ghost var (s, mark) := ScopeAndMarkFrom(ctx);
      match kind {
        case KindBegin =>
          ObserveBegin(ctx, query);
        case KindCommit =>
          ObserveEnd(ctx, query, kind);
        case KindRollback =>
          ObserveEnd(ctx, query, kind);
        case KindWrite =>
          ObserveWrite(ctx, query);
        case _ =>
      }
    }

    /** What observing one statement must do: the fields and the counters follow the call, and the accounts
        and the reports are those of the statement, with the checkers reading the counter it leaves. */
    twostate predicate Observed(ctx: Ctx, query: string, held: Scope?)
      requires old(Valid())
      reads this, held, ScopeSet(ctx), MarkSet(ctx), det.ListSet(), det`logs
    {
      var c := Call.Observe(det.classify(query), ScopeOf(ctx));
      var v := old(det.ViewOf(ctx));
      var e := V.Statement(v, det.classify(query), old(inTx), old(Self(ctx)), det.reportUnscoped, OpenNow(ctx),
          det.checkers, query);
      && Valid() && State() == Apply(old(State()), c)
      && CountersMoved(c, ctx, held) && MovedAsKind(det.classify(query), ctx, held)
      && det.ViewOf(ctx) == V.Reopened(v, OpenNow(ctx), e.gov)
      && Delivered(det.reporters, old(det.logs), det.logs, e.reports)
    }

    method RunAnyCheckers(ctx: Ctx, query: string)
      requires det.Valid()
      modifies ScopeSet(ctx)`calls, MarkSet(ctx), det.ListSet(), det`logs
      ensures OpenNow(ctx) == old(OpenNow(ctx))
      ensures var v := old(det.ViewOf(ctx));
        var e := V.RunCheckers(v, det.checkers, query);
        && det.ViewOf(ctx) == V.Reopened(v, OpenNow(ctx), e.gov)
        && Delivered(det.reporters, old(det.logs), det.logs, e.reports)
    {
      ghost var (s, mark) := ScopeAndMarkFrom(ctx);
      ghost var v := det.ViewOf(ctx);
      if |det.checkers| != 0 {
        det.RunStatementCheckers(ctx, query);
      } else {
        assert V.RunCheckers(v, det.checkers, query) == V.NoEffect(v);
      }
    }

    method Observe(ctx: Ctx, query: string)
      requires Valid() && det.Valid()
      modifies this, TxScopeSet()`openTxs, ScopeSet(ctx)`openTxs, ScopeSet(ctx)`calls, MarkSet(ctx), det.ListSet(),
          det`logs
      ensures Observed(ctx, query, old(txScope))
    {
      var kind := det.classify(query);
      ObserveKind(ctx, query, kind);
      label classified:
      ghost var v := old(det.ViewOf(ctx));
      ghost var first := V.Kind(v, kind, old(inTx), old(Self(ctx)), det.reportUnscoped, query);
      ghost var second := V.RunCheckers(V.Reopened(v, OpenNow(ctx), first.gov), det.checkers, query);
      RunAnyCheckers(ctx, query);
      V.StatementIs(v, kind, old(inTx), old(Self(ctx)), det.reportUnscoped, OpenNow(ctx), det.checkers, query, first,
          second);
      DeliveredTwice(det.reporters, old(det.logs), old@classified(det.logs), det.logs, first.reports, second.reports);
    }
  }
}

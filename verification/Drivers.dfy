/** The database/sql wrappers: a connection drives the session it owns, a prepared statement keeps what was
    worked out when it was prepared. What the wrapped driver answers is a parameter. */
module Drivers {
  import opened Types
  import opened Contexts
  import opened Attribution
  import opened Detectors
  import opened Sessions
  import V = Verdicts

  datatype DriverError = NoError | ErrSkip | ErrBadConn | OtherError

  class WrappedConn {
    const det: Detector
    const session: Session
    /** The one transaction object of the connection, overwritten by every begin. */
    const wtx: WrappedTx

    constructor (det: Detector)
      requires det.Valid()
      ensures Valid() && fresh(session) && fresh(wtx) && this.det == det && session.State() == Closed()
    {
      this.det := det;
      session := new Session(det);
      wtx := new WrappedTx();
    }

    ghost predicate Valid()
      reads session, det`logs
    {
      session.det == det && session.Valid() && det.Valid()
    }

    /** Prepares a statement: classified and matched once. */
    method WrapStmt(query: string) returns (s: WrappedStmt)
      ensures fresh(s) && s.conn == this && s.query == query && s.Prepared()
    {
      var ops := [];
      for i := 0 to |det.checkers|
        invariant ops == V.Matches(det.checkers[..i], query)
      {
        assert det.checkers[..i + 1][..i] == det.checkers[..i];
        var op := det.checkers[i](query);
        if op.Some? {
          ops := ops + [op.value];
        }
      }
      assert det.checkers[..|det.checkers|] == det.checkers;
      s := new WrappedStmt(this, query, det.classify(query), ops);
    }

    /** A driver-level begin. When the driver refuses, or options are asked of a driver that knows none,
        nothing happens; otherwise whatever was open on the connection is replaced. */
    method BeginTx(ctx: Ctx, takesOptions: bool, defaultOptions: bool, answer: DriverError, handle: int)
        returns (tx: WrappedTx?, err: DriverError)
      requires Valid()
      modifies session, session.TxScopeSet()`openTxs, ScopeSet(ctx)`openTxs, det`logs, wtx
      ensures Valid()
      ensures err == (if takesOptions || defaultOptions then answer else OtherError)
      ensures err != NoError ==> tx == null && session.Untouched(ctx, old(session.txScope)) && unchanged(wtx)
      ensures err == NoError ==>
        && tx == wtx && wtx.conn == this && wtx.handle == handle
        && session.State() == Apply(old(session.State()), Call.BeginTx(ScopeOf(ctx)))
        && session.CountersMoved(Call.BeginTx(ScopeOf(ctx)), ctx, old(session.txScope))
        && Delivered(det.reporters, old(det.logs), det.logs,
                     if ScopeOf(ctx).None? && det.reportUnscoped then [UnscopedTx] else [])
    {
      if !takesOptions && !defaultOptions {
        return null, OtherError;
      }
      if answer != NoError {
        return null, answer;
      }
      session.BeginTx(ctx);
      wtx.conn, wtx.handle := this, handle;
      return wtx, NoError;
    }

    /** One attempt to execute (or query) a statement directly. It is observed when the driver executed it, be it
        with an error of its own; not when it was skipped, which comes back on the prepared path, nor on a
        dead connection, which is tried again elsewhere. */
    method ExecContext(ctx: Ctx, query: string, answer: DriverError) returns (err: DriverError)
      requires Valid()
      modifies session, session.TxScopeSet()`openTxs, ScopeSet(ctx)`openTxs, ScopeSet(ctx)`calls, MarkSet(ctx),
          det.ListSet(), det`logs
      ensures err == answer && Valid()
      ensures answer == ErrSkip || answer == ErrBadConn ==> session.Untouched(ctx, old(session.txScope))
      ensures answer == NoError || answer == OtherError ==> session.Observed(ctx, query, old(session.txScope))
    {
      if answer == ErrSkip {
        return ErrSkip;
      }
      if answer == ErrBadConn {
        return answer;
      }
      session.Observe(ctx, query);
      return answer;
    }
  }

  class WrappedTx {
    var conn: WrappedConn?
    var handle: int

    constructor ()
    {
      conn, handle := null, 0;
    }

    /** Commit and rollback alike end the transaction, whatever the driver answers. */
    method Finish(answer: DriverError) returns (err: DriverError)
      requires conn != null && conn.Valid()
      modifies conn.session, conn.session.TxScopeSet()`openTxs
      ensures err == answer
      ensures conn.Valid() && conn.session.State() == Closed()
      ensures conn.session.CountersMoved(Call.EndTx, Background, old(conn.session.txScope))
    {
      conn.session.EndTx();
      return answer;
    }
  }

  class WrappedStmt {
    const conn: WrappedConn
    const query: string
    const kind: StatementKind
    const stmtOps: seq<Op>

    constructor (conn: WrappedConn, query: string, kind: StatementKind, stmtOps: seq<Op>)
      ensures this.conn == conn && this.query == query && this.kind == kind && this.stmtOps == stmtOps
    {
      this.conn, this.query, this.kind, this.stmtOps := conn, query, kind, stmtOps;
    }

    /** What was worked out at prepare time is what the connection's detector makes of the query. */
    ghost predicate Prepared() {
      kind == conn.det.classify(query) && stmtOps == V.Matches(conn.det.checkers, query)
    }

    method ReportOps(ctx: Ctx)
      requires conn.det.Valid() && Prepared()
      modifies ScopeSet(ctx)`calls, MarkSet(ctx), conn.det.ListSet(), conn.det`logs
      ensures conn.session.OpenNow(ctx) == old(conn.session.OpenNow(ctx))
      ensures var det, v := conn.det, old(conn.det.ViewOf(ctx));
        var e := V.RunCheckers(v, det.checkers, query);
        && det.ViewOf(ctx) == V.Reopened(v, conn.session.OpenNow(ctx), e.gov)
        && Delivered(det.reporters, old(det.logs), det.logs, e.reports)
    {
      ghost var (s, mark) := ScopeAndMarkFrom(ctx);
      ghost var v := conn.det.ViewOf(ctx);
      V.MatchFirstReportLater(v, conn.det.checkers, query);
      if |stmtOps| != 0 {
        conn.det.ReportStatementOps(ctx, stmtOps);
      } else {
        assert V.Operations(v, stmtOps) == V.NoEffect(v);
      }
    }

    /** One execution of a prepared statement is exactly the direct observation of its query. */
    method Observe(ctx: Ctx)
      requires conn.Valid() && Prepared()
      modifies conn.session, conn.session.TxScopeSet()`openTxs, ScopeSet(ctx)`openTxs, ScopeSet(ctx)`calls,
               MarkSet(ctx), conn.det.ListSet(), conn.det`logs
      ensures conn.Valid() && conn.session.Observed(ctx, query, old(conn.session.txScope))
    {
      var det, session := conn.det, conn.session;
      session.ObserveKind(ctx, query, kind);
      label classified:
      ghost var v := old(det.ViewOf(ctx));
      ghost var first := V.Kind(v, kind, old(session.inTx), old(session.Self(ctx)), det.reportUnscoped, query);
      ghost var second := V.RunCheckers(V.Reopened(v, session.OpenNow(ctx), first.gov), det.checkers, query);
      ReportOps(ctx);
      V.StatementIs(v, kind, old(session.inTx), old(session.Self(ctx)), det.reportUnscoped, session.OpenNow(ctx),
                    det.checkers, query, first, second);
      DeliveredTwice(det.reporters, old(det.logs), old@classified(det.logs), det.logs, first.reports, second.reports);
    }

    /** One attempt to execute a prepared statement. */
    method ExecContext(ctx: Ctx, answer: DriverError) returns (err: DriverError)
      requires conn.Valid() && Prepared()
      modifies conn.session, conn.session.TxScopeSet()`openTxs, ScopeSet(ctx)`openTxs, ScopeSet(ctx)`calls,
               MarkSet(ctx), conn.det.ListSet(), conn.det`logs
      ensures err == answer && conn.Valid()
      ensures answer == ErrBadConn ==> conn.session.Untouched(ctx, old(conn.session.txScope))
      ensures answer != ErrBadConn ==> conn.session.Observed(ctx, query, old(conn.session.txScope))
    {
      if answer == ErrBadConn {
        return answer;
      }
      Observe(ctx);
      return answer;
    }
  }
}

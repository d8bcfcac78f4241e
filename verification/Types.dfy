/** The values the detector passes around: operations, identities, exemptions and reports.
    A Go string is a `string` here, one `char` per byte. */
module Types {

  datatype Option<+T> = None | Some(value: T)

  /** An instrumented side effect. */
  datatype Op = Op(kind: string, name: string)

  /** The identity (scope, op) that keys every counter, exemption and baseline entry. */
  datatype ViolationKey = ViolationKey(scope: string, kind: string, name: string)

  function KeyOf(scope: string, op: Op): ViolationKey {
    ViolationKey(scope, op.kind, op.name)
  }

  /** An exemption as declared: a reason and the exact call counts it pins (none: any number). */
  datatype Decl = Decl(reason: string, counts: seq<int>)

  datatype Violation = Violation(op: Op, scope: string, openTxs: int, call: int, allowedCalls: seq<int>) {
    function Key(): ViolationKey {
      KeyOf(scope, op)
    }
  }

  datatype StaleAllow = StaleAllow(scope: string, op: Op, reason: string, calls: int, allowedCalls: seq<int>)

  /** Everything a detector can hand to a reporter. */
  datatype Report =
    | Violated(violation: Violation)
    | Stale(stale: StaleAllow)
    | UnscopedTx
    | UnscopedCheck(op: Op)
    | NestedScope(outer: string, inner: string)
    | LeakedTx(scope: string, openTxs: int)

  /** What a classifier returns; `KindUnknown` stands for the integers outside the declared constants. */
  datatype StatementKind = KindOther | KindBegin | KindCommit | KindRollback | KindWrite | KindUnknown(code: int)

  lemma Nothing<T>(a: seq<T>)
    ensures a + [] == a && [] + a == a
  {
  }

  lemma ConcatSnoc<T>(a: seq<T>, b: seq<T>)
    requires b != []
    ensures a + b != [] && (a + b)[..|a + b| - 1] == a + b[..|b| - 1] && (a + b)[|a + b| - 1] == b[|b| - 1]
  {
  }
}

/** Many session objects used one call at a time: every call keeps every scope's counter exact, and ending
    every session's transaction brings them all back to zero. */
module Fleets {
  import opened Types
  import opened Contexts
  import opened Attribution
  import opened Detectors
  import opened Sessions

  datatype Action = Statement(ctx: Ctx, query: string) | Begin(ctx: Ctx) | End

  function ContextOf(a: Action): Ctx {
    if a.End? then Background else a.ctx
  }

  /** The call an action makes on its session. */
  function CallOf(det: Detector, a: Action): Call<Scope> {
    match a
    case Statement(ctx, q) => Call.Observe(det.classify(q), ScopeOf(ctx))
    case Begin(ctx) => Call.BeginTx(ScopeOf(ctx))
    case End => Call.EndTx
  }

  /** The positions of the sessions attributed to `s`. */
  function Attributed(states: seq<SessionState<Scope>>, s: Scope): set<nat> {
    set i | 0 <= i < |states| && In(states[i], s)
  }

  lemma OneReplaced(before: seq<SessionState<Scope>>, i: nat, y: SessionState<Scope>, s: Scope)
    requires i < |before|
    ensures var a, b := Attributed(before, s), Attributed(before[i := y], s);
      && (i in a <==> In(before[i], s))
      && b == if In(y, s) then a + {i} else a - {i}
  {
  }

  lemma OneMoved(before: seq<SessionState<Scope>>, i: nat, c: Call<Scope>, s: Scope)
    requires i < |before|
    ensures |Attributed(before[i := Apply(before[i], c)], s)| == |Attributed(before, s)| + Delta(before[i], c, s)
  {
    OneReplaced(before, i, Apply(before[i], c), s);
  }

  ghost function States(sessions: seq<Session>): (states: seq<SessionState<Scope>>)
    reads sessions
    ensures |states| == |sessions| && forall i | 0 <= i < |sessions| :: states[i] == sessions[i].State()
  {
    if sessions == [] then [] else States(sessions[..|sessions| - 1]) + [sessions[|sessions| - 1].State()]
  }

  /** Different sessions of one detector, their transactions attributed to scopes of `scopes`. */
  ghost predicate Together(sessions: seq<Session>, det: Detector, scopes: set<Scope>)
    reads sessions, det`logs
  {
    && det.Valid()
    && (forall i, j | 0 <= i < j < |sessions| :: sessions[i] != sessions[j])
    && (forall x | x in sessions :: x.det == det && x.Valid() && x.TxScopeSet() <= scopes)
  }

  ghost predicate CountersExact(sessions: seq<Session>, scopes: set<Scope>)
    reads sessions, scopes`openTxs
  {
    forall s | s in scopes :: s.openTxs == |Attributed(States(sessions), s)|
  }

  /** Every scope's counter moved as the call of session `x` means. */
  method Act(x: Session, a: Action, ghost scopes: set<Scope>, ghost marks: set<AllowMark>)
    requires x.Valid() && x.det.Valid() && x.TxScopeSet() <= scopes
    requires ScopeSet(ContextOf(a)) <= scopes && MarkSet(ContextOf(a)) <= marks
    modifies x, scopes`openTxs, scopes`calls, marks, x.det.ListSet(), x.det`logs
    ensures x.Valid() && x.det.Valid() && x.TxScopeSet() <= scopes
    ensures x.State() == Apply(old(x.State()), CallOf(x.det, a))
    ensures forall s | s in scopes :: s.openTxs == old(s.openTxs) + Delta(old(x.State()), CallOf(x.det, a), s)
  {
    ghost var held := x.txScope;
    match a {
      case Statement(ctx, query) => x.Observe(ctx, query);
      case Begin(ctx) => x.BeginTx(ctx);
      case End => x.EndTx();
    }
    assert x.CountersMoved(CallOf(x.det, a), ContextOf(a), held);
  }

  /** One action of one session of the fleet. */
  method Step(sessions: seq<Session>, i: nat, a: Action, ghost det: Detector, ghost scopes: set<Scope>,
      ghost marks: set<AllowMark>)
    requires Together(sessions, det, scopes) && CountersExact(sessions, scopes) && i < |sessions|
    requires ScopeSet(ContextOf(a)) <= scopes && MarkSet(ContextOf(a)) <= marks
    modifies sessions[i], scopes`openTxs, scopes`calls, marks, det.ListSet(), det`logs
    ensures Together(sessions, det, scopes) && CountersExact(sessions, scopes)
    ensures States(sessions) == old(States(sessions))[i := Apply(old(States(sessions))[i], CallOf(det, a))]
  {
    ghost var before := States(sessions);
    assert sessions[i] in sessions;
    Act(sessions[i], a, scopes, marks);
    ghost var after := before[i := Apply(before[i], CallOf(det, a))];
    assert forall j | 0 <= j < |sessions| :: sessions[j].State() == after[j];
    assert States(sessions) == after;
    forall s | s in scopes ensures s.openTxs == |Attributed(after, s)| {
      OneMoved(before, i, CallOf(det, a), s);
    }
  }

  datatype Turn = Turn(session: nat, action: Action)

  /** The calls session `i` makes in a script. */
  function CallsBy(det: Detector, script: seq<Turn>, i: nat): seq<Call<Scope>> {
    if script == [] then []
    else
      var last := script[|script| - 1];
      CallsBy(det, script[..|script| - 1], i) + if last.session == i then [CallOf(det, last.action)] else []
  }

  /** The script's sessions and contexts are among those given. */
  ghost predicate Within(script: seq<Turn>, n: nat, scopes: set<Scope>, marks: set<AllowMark>) {
    forall t | t in script :: t.session < n && ScopeSet(ContextOf(t.action)) <= scopes &&
        MarkSet(ContextOf(t.action)) <= marks
  }

  /** Any script on fresh sessions: afterwards every session is where its own calls put it, and every
      counter is the number of sessions attributed to its scope. */
  method Run(sessions: seq<Session>, script: seq<Turn>, ghost det: Detector, ghost scopes: set<Scope>,
      ghost marks: set<AllowMark>)
    requires Together(sessions, det, scopes) && Within(script, |sessions|, scopes, marks)
    requires (forall x | x in sessions :: x.State() == Closed()) && (forall s | s in scopes :: s.openTxs == 0)
    modifies sessions, scopes`openTxs, scopes`calls, marks, det.ListSet(), det`logs
    ensures Together(sessions, det, scopes) && CountersExact(sessions, scopes)
    ensures forall i | 0 <= i < |sessions| :: sessions[i].State() == Replay(CallsBy(det, script, i))
  {
    assert forall i | 0 <= i < |sessions| :: sessions[i] in sessions;
    forall s | s in scopes ensures Attributed(States(sessions), s) == {} { }
    for k := 0 to |script|
      invariant Together(sessions, det, scopes) && CountersExact(sessions, scopes)
      invariant Follow(States(sessions), det, script[..k])
    {
      ghost var before := States(sessions);
      assert script[k] in script;
      Step(sessions, script[k].session, script[k].action, det, scopes, marks);
      FollowStep(before, det, script, k);
    }
    assert script[..|script|] == script;
  }

  ghost predicate Follow(states: seq<SessionState<Scope>>, det: Detector, script: seq<Turn>) {
    forall i | 0 <= i < |states| :: states[i] == Replay(CallsBy(det, script, i))
  }

  lemma FollowStep(before: seq<SessionState<Scope>>, det: Detector, script: seq<Turn>, k: nat)
    requires k < |script| && script[k].session < |before| && Follow(before, det, script[..k])
    ensures var i := script[k].session;
      Follow(before[i := Apply(before[i], CallOf(det, script[k].action))], det, script[..k + 1])
  {
    var i, c := script[k].session, CallOf(det, script[k].action);
    assert script[..k + 1][..k] == script[..k];
    forall j | 0 <= j < |before|
      ensures Replay(CallsBy(det, script[..k + 1], j)) == if j == i then Apply(before[i], c) else before[j]
    {
      var h := CallsBy(det, script[..k], j);
      assert h + [] == h && (h + [c])[..|h|] == h;
    }
  }

  /** Whatever the sessions did before, ending every one's transaction, twice over if one likes, leaves
      every counter at zero. */
  method Drain(sessions: seq<Session>, ghost det: Detector, ghost scopes: set<Scope>)
    requires Together(sessions, det, scopes) && CountersExact(sessions, scopes)
    modifies sessions, scopes`openTxs, scopes`calls, det.ListSet(), det`logs
    ensures Together(sessions, det, scopes) && CountersExact(sessions, scopes)
    ensures forall s | s in scopes :: s.openTxs == 0
  {
    for i := 0 to |sessions|
      invariant Together(sessions, det, scopes) && CountersExact(sessions, scopes)
      invariant forall j | 0 <= j < i :: States(sessions)[j] == Closed()
    {
      Step(sessions, i, End, det, scopes, {});
      Step(sessions, i, End, det, scopes, {});
    }
    forall s | s in scopes ensures Attributed(States(sessions), s) == {} { }
  }
}

/** Many sessions sharing many scope counters, one goroutine each. The atomic add on a counter is a step
    of its own, so every other session can run between a session's update of its own fields and its add. */
module Interleaving {
  import opened Types
  import opened Attribution

  type ScopeId = nat

  /** What a session still has to do to finish the call it is in. */
  datatype Pending =
    | Idle
    | AddOpen(opening: Call<ScopeId>)
    | AddClose(ending: Call<ScopeId>)
    | AddCloseThenOpen(scope: Option<ScopeId>)

  /** A session's fields, its program point, and two records of its calls that nothing reads: `issued` in
      program order, and `effective` in the order they took effect, where a driver-level begin that had a
      transaction to replace shows as the end of that one followed by the begin. */
  datatype Sess = Sess(
    inTx: bool, txScope: Option<ScopeId>, pending: Pending,
    issued: seq<Call<ScopeId>>, effective: seq<Call<ScopeId>>)
  {
    function Fields(): SessionState<ScopeId> {
      SessionState(inTx, txScope)
    }

    /** The part of `openTx` before its add, or all of it when there is no scope. */
    function Opening(c: Call<ScopeId>): Sess
      requires !c.EndTx?
    {
      var x := this.(inTx := true, txScope := c.scope);
      if c.scope.Some? then x.(pending := AddOpen(c)) else x.(effective := effective + [c])
    }

    /** The part of call `c` up to its first add, or all of it when it adds nothing. */
    function Issue(c: Call<ScopeId>): Sess {
      var x := this.(issued := issued + [c]);
      if Ends(c) then
        if inTx && txScope.Some? then x.(inTx := false, pending := AddClose(c))
        else x.(inTx := false, effective := effective + [c])
      else if c.BeginTx? then
        if inTx && txScope.Some? then x.(inTx := false, pending := AddCloseThenOpen(c.scope))
        else if inTx then x.(inTx := false, effective := effective + [EndTx]).Opening(c)
        else x.Opening(c)
      else if Starts(c) && !inTx then x.Opening(c)
      else x.(effective := effective + [c])
    }

    /** A call that added one has taken effect. */
    function Counted(c: Call<ScopeId>): Sess {
      this.(pending := Idle, effective := effective + [c])
    }

    /** A call that took one away, likewise; the scope is forgotten. */
    function Uncounted(c: Call<ScopeId>): Sess {
      this.(txScope := None, pending := Idle, effective := effective + [c])
    }

    /** The part of the call after the add. */
    function Resume(): Sess {
      match pending
      case Idle => this
      case AddOpen(c) => Counted(c)
      case AddClose(c) => Uncounted(c)
      case AddCloseThenOpen(sc) => Uncounted(EndTx).Opening(BeginTx(sc))
    }

    /** Whether the calls that have taken effect leave a transaction open in `sc`. */
    predicate OpenInScope(sc: ScopeId) {
      In(Replay(effective), sc)
    }

    /** The fields, the program point and the two records agree. */
    predicate Consistent() {
      match pending
      case Idle => Fields() == Replay(effective) == Replay(issued)
      case AddOpen(c) =>
        && (c.BeginTx? || Starts(c)) && c.scope.Some? && inTx && txScope == c.scope
        && Replay(effective) == Closed() && Replay(issued) == Fields()
      case AddClose(c) =>
        && Ends(c) && !inTx && txScope.Some?
        && Replay(effective) == SessionState(true, txScope) && Replay(issued) == Closed()
      case AddCloseThenOpen(sc) =>
        && !inTx && txScope.Some?
        && Replay(effective) == SessionState(true, txScope) && Replay(issued) == SessionState(true, sc)
    }
  }

  datatype State = State(sessions: seq<Sess>, openTxs: map<ScopeId, int>) {
    /** The counter of a scope; a fresh one is 0. */
    function Counter(sc: ScopeId): int {
      if sc in openTxs then openTxs[sc] else 0
    }

    /** The sessions whose calls that have taken effect leave a transaction open in `sc`. */
    function OpenIn(sc: ScopeId): set<nat> {
      set i | 0 <= i < |sessions| && sessions[i].OpenInScope(sc)
    }

    ghost predicate Inv() {
      && (forall i | 0 <= i < |sessions| :: sessions[i].Consistent())
      && (forall sc: ScopeId :: Counter(sc) == |OpenIn(sc)|)
    }
  }

  datatype Step = Issue(session: nat, call: Call<ScopeId>) | Add(session: nat)

  /** One step. A session issues a call only when idle; a step that is not possible does nothing. */
  function Next(s: State, step: Step): State {
    if |s.sessions| <= step.session then s
    else
      var x := s.sessions[step.session];
      match step
      case Issue(i, c) => if x.pending.Idle? then s.(sessions := s.sessions[i := x.Issue(c)]) else s
      case Add(i) =>
        if x.pending.Idle? || x.txScope.None? then s
        else
          var sc := x.txScope.value;
          State(s.sessions[i := x.Resume()],
                s.openTxs[sc := s.Counter(sc) + if x.pending.AddOpen? then 1 else -1])
  }

  /** `n` fresh sessions after any sequence of steps: every interleaving is one such sequence. */
  function Exec(n: nat, steps: seq<Step>): State {
    if steps == [] then State(seq(n, i => Sess(false, None, Idle, [], [])), map[])
    else Next(Exec(n, steps[..|steps| - 1]), steps[|steps| - 1])
  }

  lemma ReplayOpening<S>(h: seq<Call<S>>, c: Call<S>)
    requires Replay(h) == Closed() && (c.BeginTx? || Starts(c))
    ensures Replay(h + [c]) == SessionState(true, c.scope)
  {
    ReplaySnoc(h, c);
  }

  lemma ReplayEnding<S>(h: seq<Call<S>>, c: Call<S>)
    requires Ends(c)
    ensures Replay(h + [c]) == Closed()
  {
    ReplaySnoc(h, c);
  }

  lemma ClosedHasNoScope<S>(h: seq<Call<S>>)
    ensures Replay(h).inTx || Replay(h) == Closed()
  {
    FieldsFollowHistory(h);
  }

  lemma OpeningIsConsistent(x: Sess, c: Call<ScopeId>)
    requires c.BeginTx? || Starts(c)
    requires x.pending.Idle? && Replay(x.effective) == Closed() && Replay(x.issued) == SessionState(true, c.scope)
    ensures x.Opening(c).Consistent()
    ensures forall sc: ScopeId :: !x.Opening(c).OpenInScope(sc)
  {
    ReplayOpening(x.effective, c);
  }

  lemma BeginIsConsistent(x: Sess, c: Call<ScopeId>)
    requires x.Consistent() && x.pending.Idle? && c.BeginTx?
    ensures x.Issue(c).Consistent()
    ensures forall sc: ScopeId :: x.Issue(c).OpenInScope(sc) <==> x.OpenInScope(sc)
  {
    var y := x.(issued := x.issued + [c]);
    ReplaySnoc(x.issued, c);
    ClosedHasNoScope(x.effective);
    if x.inTx && x.txScope.None? {
      ReplaySnoc(x.effective, EndTx);
      OpeningIsConsistent(y.(inTx := false, effective := x.effective + [EndTx]), c);
    } else if !x.inTx {
      OpeningIsConsistent(y, c);
    }
  }

  lemma OtherIssueIsConsistent(x: Sess, c: Call<ScopeId>)
    requires x.Consistent() && x.pending.Idle? && !c.BeginTx? && !(Starts(c) && !x.inTx)
    ensures x.Issue(c).Consistent()
    ensures forall sc: ScopeId :: x.Issue(c).OpenInScope(sc) <==> x.OpenInScope(sc)
  {
    ReplaySnoc(x.issued, c);
    ReplaySnoc(x.effective, c);
    ClosedHasNoScope(x.effective);
  }

  lemma IssueIsConsistent(x: Sess, c: Call<ScopeId>)
    requires x.Consistent() && x.pending.Idle?
    ensures x.Issue(c).Consistent()
    ensures forall sc: ScopeId :: x.Issue(c).OpenInScope(sc) <==> x.OpenInScope(sc)
  {
    if c.BeginTx? {
      BeginIsConsistent(x, c);
    } else if Starts(c) && !x.inTx {
      ReplaySnoc(x.issued, c);
      ClosedHasNoScope(x.effective);
      OpeningIsConsistent(x.(issued := x.issued + [c]), c);
    } else {
      OtherIssueIsConsistent(x, c);
    }
  }

  lemma OpenedConsistently(x: Sess, c: Call<ScopeId>)
    requires x.Consistent() && x.pending == AddOpen(c)
    ensures x.Counted(c).Consistent()
  {
    ReplayOpening(x.effective, c);
  }

  lemma EndedConsistently(x: Sess, c: Call<ScopeId>)
    requires x.Consistent() && x.pending == AddClose(c)
    ensures x.Uncounted(c).Consistent()
  {
    ReplayEnding(x.effective, c);
  }

  lemma EndedThenOpening(x: Sess, sc: Option<ScopeId>)
    requires x.Consistent() && x.pending == AddCloseThenOpen(sc)
    ensures x.Uncounted(EndTx).Opening(BeginTx(sc)).Consistent()
    ensures forall s: ScopeId :: !x.Uncounted(EndTx).Opening(BeginTx(sc)).OpenInScope(s)
  {
    ReplayEnding(x.effective, EndTx);
    OpeningIsConsistent(x.Uncounted(EndTx), BeginTx(sc));
  }

  lemma ResumeIsConsistent(x: Sess)
    requires x.Consistent() && !x.pending.Idle?
    ensures x.txScope.Some? && x.Resume().Consistent()
    ensures forall sc: ScopeId :: x.Resume().OpenInScope(sc) <==> x.pending.AddOpen? && x.txScope == Some(sc)
    ensures forall sc: ScopeId :: x.OpenInScope(sc) <==> !x.pending.AddOpen? && x.txScope == Some(sc)
  {
    match x.pending
    case AddOpen(c) => OpenedConsistently(x, c);
    case AddClose(c) => EndedConsistently(x, c);
    case AddCloseThenOpen(sc) => EndedThenOpening(x, sc);
  }

  /** Changing one session moves only that session in or out of a scope's open set. */
  lemma OneSessionChanged(s: State, i: nat, y: Sess, m: map<ScopeId, int>, sc: ScopeId)
    requires i < |s.sessions|
    ensures State(s.sessions[i := y], m).OpenIn(sc) ==
            if y.OpenInScope(sc) then s.OpenIn(sc) + {i} else s.OpenIn(sc) - {i}
    ensures i in s.OpenIn(sc) <==> s.sessions[i].OpenInScope(sc)
  {
  }

  lemma IssueKeepsInv(s: State, i: nat, c: Call<ScopeId>)
    requires s.Inv() && i < |s.sessions| && s.sessions[i].pending.Idle?
    ensures Next(s, Issue(i, c)).Inv()
  {
    var y, s' := s.sessions[i].Issue(c), Next(s, Issue(i, c));
    IssueIsConsistent(s.sessions[i], c);
    forall sc: ScopeId ensures s'.Counter(sc) == |s'.OpenIn(sc)| {
      OneSessionChanged(s, i, y, s.openTxs, sc);
      assert s.Counter(sc) == |s.OpenIn(sc)|;
    }
  }

  lemma AddKeepsInv(s: State, i: nat)
    requires s.Inv() && i < |s.sessions| && !s.sessions[i].pending.Idle?
    ensures Next(s, Add(i)).Inv()
  {
    ResumeIsConsistent(s.sessions[i]);
    forall sc: ScopeId ensures Next(s, Add(i)).Counter(sc) == |Next(s, Add(i)).OpenIn(sc)| {
      assert s.Counter(sc) == |s.OpenIn(sc)|;
      AddKeepsCounter(s, i, sc);
    }
  }

  lemma AddKeepsCounter(s: State, i: nat, sc: ScopeId)
    requires i < |s.sessions| && !s.sessions[i].pending.Idle? && s.sessions[i].txScope.Some?
    requires s.Counter(sc) == |s.OpenIn(sc)|
    requires var x := s.sessions[i];
      && (x.Resume().OpenInScope(sc) <==> x.pending.AddOpen? && x.txScope == Some(sc))
      && (x.OpenInScope(sc) <==> !x.pending.AddOpen? && x.txScope == Some(sc))
    ensures Next(s, Add(i)).Counter(sc) == |Next(s, Add(i)).OpenIn(sc)|
  {
    var y, m := s.sessions[i].Resume(), Next(s, Add(i)).openTxs;
    OneSessionChanged(s, i, y, m, sc);
    AddMovesCounter(s, i, sc);
    InOrOut(s.OpenIn(sc), i, y.OpenInScope(sc));
    assert Next(s, Add(i)) == State(s.sessions[i := y], m);
  }

  /** The add moves the counter of the session's scope by one, and no other. */
  lemma AddMovesCounter(s: State, i: nat, sc: ScopeId)
    requires i < |s.sessions| && !s.sessions[i].pending.Idle? && s.sessions[i].txScope.Some?
    ensures Next(s, Add(i)).Counter(sc) == s.Counter(sc) +
            if s.sessions[i].txScope != Some(sc) then 0 else if s.sessions[i].pending.AddOpen? then 1 else -1
  {
  }

  lemma InOrOut(open: set<nat>, i: nat, stays: bool)
    ensures |if stays then open + {i} else open - {i}| ==
            |open| + (if stays then 1 else 0) - (if i in open then 1 else 0)
  {
    assert i in open ==> open + {i} == open;
    assert i !in open ==> open - {i} == open;
  }

  lemma NextKeepsInv(s: State, step: Step)
    requires s.Inv()
    ensures Next(s, step).Inv() && |Next(s, step).sessions| == |s.sessions|
  {
    if step.session < |s.sessions| {
      if step.Issue? && s.sessions[step.session].pending.Idle? {
        IssueKeepsInv(s, step.session, step.call);
      } else if step.Add? && !s.sessions[step.session].pending.Idle? {
        AddKeepsInv(s, step.session);
      }
    }
  }

  /** In every state any interleaving reaches, every counter is exactly the number of sessions whose calls
      that have taken effect leave a transaction open in that scope. */
  lemma {:induction false} CountersAreExact(n: nat, steps: seq<Step>)
    ensures |Exec(n, steps).sessions| == n && Exec(n, steps).Inv()
  {
    if steps == [] {
      var s := Exec(n, steps);
      forall sc: ScopeId ensures s.OpenIn(sc) == {} { }
    } else {
      CountersAreExact(n, steps[..|steps| - 1]);
      NextKeepsInv(Exec(n, steps[..|steps| - 1]), steps[|steps| - 1]);
    }
  }

  lemma AtMost(s: set<nat>, n: nat)
    requires forall i | i in s :: i < n
    ensures |s| <= n
  {
    if n == 0 {
      assert s == {};
    } else {
      AtMost(s - {n - 1}, n - 1);
      assert s <= (s - {n - 1}) + {n - 1};
    }
  }

  /** A counter is never negative and never above the number of sessions. */
  lemma CountersStayInRange(n: nat, steps: seq<Step>, sc: ScopeId)
    ensures 0 <= Exec(n, steps).Counter(sc) <= n
  {
    CountersAreExact(n, steps);
    AtMost(Exec(n, steps).OpenIn(sc), n);
  }

  /** Whatever ran before, once every session is idle and the last thing each did was end its transaction,
      every counter is back to 0. */
  lemma CountersDrain(n: nat, steps: seq<Step>, sc: ScopeId)
    requires var s := Exec(n, steps);
             forall i | 0 <= i < |s.sessions| ::
               && s.sessions[i].pending.Idle?
               && s.sessions[i].issued != [] && Ends(s.sessions[i].issued[|s.sessions[i].issued| - 1])
    ensures Exec(n, steps).Counter(sc) == 0
  {
    CountersAreExact(n, steps);
    assert Exec(n, steps).OpenIn(sc) == {};
  }

  /** The sessions whose own calls, in program order, leave a transaction open in `sc`. */
  function OpenByCalls(s: State, sc: ScopeId): set<nat> {
    set i | 0 <= i < |s.sessions| && In(Replay(s.sessions[i].issued), sc)
  }

  /** Whenever no session is in the middle of a call, the counters say just what the calls made so far,
      read session by session, say. */
  lemma QuietCountersFollowCalls(n: nat, steps: seq<Step>, sc: ScopeId)
    requires forall x | x in Exec(n, steps).sessions :: x.pending.Idle?
    ensures Exec(n, steps).Counter(sc) == |OpenByCalls(Exec(n, steps), sc)|
  {
    CountersAreExact(n, steps);
    var s := Exec(n, steps);
    forall i | 0 <= i < |s.sessions| ensures In(Replay(s.sessions[i].issued), sc) <==> i in s.OpenIn(sc) {
      assert s.sessions[i] in s.sessions;
    }
    assert s.OpenIn(sc) == OpenByCalls(s, sc);
  }

  /** A session between calls is inside a transaction exactly when the calls it made opened one that is
      still open, in the scope of the call that opened it. */
  lemma IdleSessionFollowsItsCalls(n: nat, steps: seq<Step>, i: nat)
    requires i < n == |Exec(n, steps).sessions| && Exec(n, steps).sessions[i].pending.Idle?
    ensures Follows(Exec(n, steps).sessions[i].Fields(), Exec(n, steps).sessions[i].issued)
  {
    CountersAreExact(n, steps);
    FieldsFollowHistory(Exec(n, steps).sessions[i].issued);
  }

  /** Call `o` of session `i` opened, in scope `sc`, the transaction the session still has open. */
  predicate OpenedIn(s: State, i: nat, o: int, sc: ScopeId) {
    && i < |s.sessions|
    && OpenSince(s.sessions[i].effective, o)
    && s.sessions[i].effective[o].scope == Some(sc)
  }

  ghost predicate HasOpened(s: State, i: nat, sc: ScopeId) {
    exists o :: OpenedIn(s, i, o, sc)
  }

  ghost function SessionsOpen(s: State, sc: ScopeId): set<nat> {
    set i | 0 <= i < |s.sessions| && HasOpened(s, i, sc)
  }

  /** A checkpoint sees an open transaction exactly when some session's calls that have taken effect opened
      one in its scope that is still open, and the number it reports is how many do. */
  lemma CheckpointSeesOpenTransactions(n: nat, steps: seq<Step>, sc: ScopeId)
    ensures Exec(n, steps).Counter(sc) == |SessionsOpen(Exec(n, steps), sc)|
    ensures 0 < Exec(n, steps).Counter(sc) <==> exists i: nat :: HasOpened(Exec(n, steps), i, sc)
  {
    CountersAreExact(n, steps);
    var s := Exec(n, steps);
    forall i | 0 <= i < n ensures i in s.OpenIn(sc) <==> HasOpened(s, i, sc) {
      var h := s.sessions[i].effective;
      FieldsFollowHistory(h);
      if i in s.OpenIn(sc) {
        var o :| OpenSince(h, o);
        assert OpenedIn(s, i, o, sc);
      }
    }
    assert s.OpenIn(sc) == SessionsOpen(s, sc);
    if s.Counter(sc) > 0 {
      var i :| i in s.OpenIn(sc);
      assert HasOpened(s, i, sc);
    }
    if i: nat :| HasOpened(s, i, sc) {
      assert i in s.OpenIn(sc);
    }
  }

  /** A write on session `i` that loads the counter at any moment of any interleaving computes how many
      other sessions are open in its context's scope. It consults the exemptions exactly when there is
      one, and calls its region stale exactly when nothing at all is open there. */
  lemma WriteSeesOtherSessions(n: nat, steps: seq<Step>, i: nat, sc: ScopeId, marked: bool)
    requires i < n == |Exec(n, steps).sessions| && Exec(n, steps).sessions[i].pending.Idle?
    ensures var s := Exec(n, steps);
      var others := s.OpenIn(sc) - {i};
      var verdict := CrossConnVerdict(s.Counter(sc), In(s.sessions[i].Fields(), sc), marked);
      && (verdict.Consult? <==> others != {})
      && (verdict.Consult? ==> verdict.foreign == |others|)
      && (verdict.StaleRegion? <==> marked && s.OpenIn(sc) == {})
  {
    CountersAreExact(n, steps);
    OthersAreCounted(Exec(n, steps), i, sc);
  }

  lemma OthersAreCounted(s: State, i: nat, sc: ScopeId)
    requires s.Inv() && i < |s.sessions| && s.sessions[i].pending.Idle?
    ensures var others := s.OpenIn(sc) - {i};
      && (others != {} <==> |others| > 0)
      && s.Counter(sc) == |others| + (if In(s.sessions[i].Fields(), sc) then 1 else 0)
      && (s.Counter(sc) == 0 <==> s.OpenIn(sc) == {})
  {
    assert s.Counter(sc) == |s.OpenIn(sc)|;
    IdleIsCounted(s.sessions[i], sc);
    assert i in s.OpenIn(sc) <==> s.sessions[i].OpenInScope(sc);
    WithoutOne(s.OpenIn(sc), i);
  }

  lemma WithoutOne(open: set<nat>, i: nat)
    ensures |open| == |open - {i}| + if i in open then 1 else 0
    ensures |open| == 0 <==> open == {}
    ensures |open - {i}| > 0 <==> open - {i} != {}
  {
    assert open == if i in open then (open - {i}) + {i} else open - {i};
  }

  lemma IdleIsCounted(x: Sess, sc: ScopeId)
    requires x.Consistent() && x.pending.Idle?
    ensures x.OpenInScope(sc) <==> In(x.Fields(), sc)
  {
  }
}

/** Which connections are inside a transaction, and which scope each transaction belongs to: what one
    session's calls mean, and what any interleaving of many sessions does to the shared counters. */
module Attribution {
  import opened Types

  // ---------- one session ----------

  /** The two fields of a session. `S` identifies scopes. */
  datatype SessionState<+S> = SessionState(inTx: bool, txScope: Option<S>)

  /** A call on a session; the scope is the one its context carries, if any. */
  datatype Call<+S> =
    | Observe(kind: StatementKind, scope: Option<S>)
    | BeginTx(scope: Option<S>)
    | EndTx

  function Closed<S>(): SessionState<S> { SessionState(false, None) }

  predicate Ends<S>(c: Call<S>) {
    c.EndTx? || (c.Observe? && (c.kind.KindCommit? || c.kind.KindRollback?))
  }

  predicate Starts<S>(c: Call<S>) {
    c.Observe? && c.kind.KindBegin?
  }

  /** The session after one call. */
  function Apply<S>(st: SessionState<S>, c: Call<S>): SessionState<S> {
    if Ends(c) then Closed()
    else if c.BeginTx? || (Starts(c) && !st.inTx) then SessionState(true, c.scope)
    else st
  }

  function Replay<S>(h: seq<Call<S>>): SessionState<S> {
    if h == [] then Closed() else Apply(Replay(h[..|h| - 1]), h[|h| - 1])
  }

  /** Whether the session is counted in scope `sc`. */
  predicate In<S(==)>(st: SessionState<S>, sc: S) {
    st.inTx && st.txScope == Some(sc)
  }

  /** What a call adds to the counter of scope `sc`. */
  function Delta<S(==)>(st: SessionState<S>, c: Call<S>, sc: S): int {
    (if In(Apply(st, c), sc) then 1 else 0) - (if In(st, sc) then 1 else 0)
  }

  lemma ReplaySnoc<S>(h: seq<Call<S>>, c: Call<S>)
    ensures Replay(h + [c]) == Apply(Replay(h), c)
  {
    assert (h + [c])[..|h|] == h;
  }

  /** What each kind of call does, after any history: a textual COMMIT, a textual ROLLBACK and the end of a
      transaction close whatever is open; a textual BEGIN opens exactly when nothing is; a driver-level begin
      always opens; writes, other statements and kinds outside the declared constants change nothing. */
  lemma CallsByKind<S>(h: seq<Call<S>>, sc: Option<S>, code: int)
    ensures Replay(h + [Observe(KindCommit, sc)]) == SessionState(false, None)
    ensures Replay(h + [Observe(KindRollback, sc)]) == SessionState(false, None)
    ensures Replay(h + [EndTx]) == SessionState(false, None)
    ensures Replay(h + [Observe(KindBegin, sc)]) == if Replay(h).inTx then Replay(h) else SessionState(true, sc)
    ensures Replay(h + [BeginTx(sc)]) == SessionState(true, sc)
    ensures Replay(h + [Observe(KindWrite, sc)]) == Replay(h)
    ensures Replay(h + [Observe(KindOther, sc)]) == Replay(h)
    ensures Replay(h + [Observe(KindUnknown(code), sc)]) == Replay(h)
  {
    ReplaySnoc(h, Observe(KindCommit, sc));
    ReplaySnoc(h, Observe(KindRollback, sc));
    ReplaySnoc(h, EndTx);
    ReplaySnoc(h, Observe(KindBegin, sc));
    ReplaySnoc(h, BeginTx(sc));
    ReplaySnoc(h, Observe(KindWrite, sc));
    ReplaySnoc(h, Observe(KindOther, sc));
    ReplaySnoc(h, Observe(KindUnknown(code), sc));
  }

  // ---------- what a history means ----------

  /** No call at or after `i` ends a transaction or begins one at driver level. */
  predicate Undisturbed<S>(h: seq<Call<S>>, i: int) {
    forall j | 0 <= i <= j < |h| :: !Ends(h[j]) && !h[j].BeginTx?
  }

  /** Call `i` opened the transaction that is still open after `h`. Either it is a driver-level begin that
      nothing has ended or replaced, or it is the first textual BEGIN after the last end (or after the
      start), with no driver-level begin since. No reference to the session's fields. */
  predicate OpenSince<S>(h: seq<Call<S>>, i: int) {
    && 0 <= i < |h|
    && Undisturbed(h, i + 1)
    && (h[i].BeginTx? || (Starts(h[i]) && FirstSinceEnd(h, i)))
  }

  predicate FirstSinceEnd<S>(h: seq<Call<S>>, i: int) {
    0 <= i < |h| && forall j | 0 <= j < i && (Starts(h[j]) || h[j].BeginTx?) :: EndedBetween(h, j, i)
  }

  predicate EndedBetween<S>(h: seq<Call<S>>, j: int, i: int) {
    exists m | 0 <= j < m < i < |h| :: Ends(h[m])
  }

  lemma SameOpening<S>(g: seq<Call<S>>, c: Call<S>, i: int)
    requires 0 <= i < |g| && !Ends(c) && !c.BeginTx?
    ensures OpenSince(g, i) <==> OpenSince(g + [c], i)
  {
    var h := g + [c];
    assert forall j | 0 <= j < |g| :: h[j] == g[j];
    assert Undisturbed(g, i + 1) <==> Undisturbed(h, i + 1);
    forall j | 0 <= j < i ensures EndedBetween(g, j, i) <==> EndedBetween(h, j, i) {
      if EndedBetween(g, j, i) {
        var m :| 0 <= j < m < i < |g| && Ends(g[m]);
        assert Ends(h[m]);
      }
      if EndedBetween(h, j, i) {
        var m :| 0 <= j < m < i < |h| && Ends(h[m]);
        assert Ends(g[m]);
      }
    }
  }

  lemma {:induction false} OpenUntilEnded<S>(g: seq<Call<S>>, j: int)
    requires 0 <= j < |g| && (Starts(g[j]) || g[j].BeginTx?)
    requires forall m | j < m < |g| :: !Ends(g[m])
    ensures Replay(g).inTx
  {
    if j < |g| - 1 {
      OpenUntilEnded(g[..|g| - 1], j);
    }
  }

  /** A textual BEGIN opens a transaction exactly when none is open yet. */
  lemma RepeatedStart<S>(g: seq<Call<S>>, c: Call<S>)
    requires Starts(c)
    requires Replay(g).inTx <==> exists i :: OpenSince(g, i)
    ensures OpenSince(g + [c], |g|) <==> !Replay(g).inTx
  {
    var h, n := g + [c], |g|;
    if i :| OpenSince(g, i) {
      assert forall m | i < m < n :: h[m] == g[m];
      assert !EndedBetween(h, i, n);
      assert Starts(h[i]) || h[i].BeginTx?;
    }
    if !FirstSinceEnd(h, n) {
      var j :| 0 <= j < n && (Starts(h[j]) || h[j].BeginTx?) && !EndedBetween(h, j, n);
      assert g[j] == h[j];
      forall m | j < m < |g| ensures !Ends(g[m]) { assert h[m] == g[m]; }
      OpenUntilEnded(g, j);
    }
    assert Undisturbed(h, n + 1);
  }

  /** What the fields must be after `h`: inside a transaction exactly when some call opened one that is
      still open, attributed to the scope of that call. */
  ghost predicate Follows<S>(st: SessionState<S>, h: seq<Call<S>>) {
    && (st.inTx <==> exists i :: OpenSince(h, i))
    && (forall i :: OpenSince(h, i) ==> st.txScope == h[i].scope)
    && (!st.inTx ==> st.txScope == None)
  }

  /** The two fields say exactly what the history says. */
  lemma {:induction false} FieldsFollowHistory<S>(h: seq<Call<S>>)
    ensures Follows(Replay(h), h)
  {
    if h != [] {
      var g, c := h[..|h| - 1], h[|h| - 1];
      FieldsFollowHistory(g);
      assert h == g + [c];
      if Ends(c) || c.BeginTx? {
        BoundaryDecides(g, c);
      } else {
        OtherwiseKept(g, c);
      }
    }
  }

  lemma BoundaryDecides<S>(g: seq<Call<S>>, c: Call<S>)
    requires Ends(c) || c.BeginTx?
    ensures Follows(Apply(Replay(g), c), g + [c])
  {
    var h, n := g + [c], |g|;
    assert h[n] == c;
    assert forall i :: OpenSince(h, i) ==> i == n && c.BeginTx?;
    assert c.BeginTx? ==> OpenSince(h, n);
  }

  lemma OtherwiseKept<S>(g: seq<Call<S>>, c: Call<S>)
    requires !Ends(c) && !c.BeginTx? && Follows(Replay(g), g)
    ensures Follows(Apply(Replay(g), c), g + [c])
  {
    var h, n, st := g + [c], |g|, Replay(g);
    forall i | 0 <= i < n ensures (OpenSince(g, i) <==> OpenSince(h, i)) && h[i] == g[i] { SameOpening(g, c, i); }
    if Starts(c) {
      RepeatedStart(g, c);
    }
    if st.inTx {
      var i :| OpenSince(g, i);
      assert OpenSince(h, i);
    }
    assert forall i :: OpenSince(h, i) ==> i == n || OpenSince(g, i);
  }

  // ---------- the verdict on a write ----------

  datatype CrossVerdict = Silent | StaleRegion | Consult(foreign: int)

  /** What a write does, from the counter of its context's scope, whether the writing session is itself
      counted there, and whether the context carries an exemption region. */
  function CrossConnVerdict(total: int, self: bool, marked: bool): CrossVerdict {
    var foreign := total - (if self then 1 else 0);
    if foreign > 0 then Consult(foreign)
    else if total == 0 && marked then StaleRegion
    else Silent
  }
}

/** Concurrent events of one scope execution. Each event is a thread whose steps on the shared accounts are
    atomic one by one, as the locks and atomics make them, and interleave freely with those of others. */
module Schedule {
  import opened Types
  import opened Counts
  import opened Governance
  import opened Executions
  import E = Executions

  /** Where a thread stands; `NoteEntry` remembers the entry it was answered with and the answer. */
  datatype Stage =
    | Start
    | NoteOption
    | AskRegion
    | AskEntry
    | NoteEntry(entry: Decl, covered: bool)
    | Emit
    | Done(reported: bool)

  /** `k` is the call number the identity's account handed out, `mk` the region's; 0 before that. `asked`
      is the Allowlist declaration that declined. */
  datatype Thread = Thread(event: Event, stage: Stage, k: int, mk: int, asked: Option<Decl>)

  datatype Logged = Logged(thread: nat, violation: Violation)

  /** What the threads share: the accounts, the regions' counters, the Allowlist and the reports so far. */
  datatype Shared = Shared(calls: Calls, regions: seq<Region>, entries: Entries, log: seq<Logged>)

  datatype State = State(shared: Shared, threads: seq<Thread>) {
    predicate Valid() {
      forall i | 0 <= i < |threads| :: Admits(shared, threads[i])
    }
  }

  predicate Admits(h: Shared, t: Thread) {
    t.event.region.Some? ==> t.event.region.value < |h.regions|
  }

  /** One atomic step of thread `i`, standing at `t`; a thread that is done does not move. */
  function Advance(scope: string, h: Shared, i: nat, t: Thread): (Shared, Thread)
    requires Admits(h, t)
  {
    var e := t.event;
    var key := KeyOf(scope, e.op);
    match t.stage
    case Start =>
      var next := if e.option.Some? then NoteOption else AskRegion;
      (h.(calls := Bumped(h.calls, key)), t.(k := CallsSoFar(h.calls, key) + 1, stage := next))
    case NoteOption =>
      var next := if Covers(CountsOf(e.option), t.k) then Done(false) else AskRegion;
      (h.(calls := NotedIf(h.calls, key, e.option)), t.(stage := next))
    case AskRegion =>
      if e.region.None? then (h, t.(stage := AskEntry))
      else
        var r := h.regions[e.region.value];
        var mk := r.calls + 1;
        var next := if Covers(r.decl.counts, mk) then Done(false) else AskEntry;
        (h.(regions := h.regions[e.region.value := r.(calls := mk)]), t.(mk := mk, stage := next))
    case AskEntry =>
      (match EntryKey(h.entries, key)
       case None => (h, t.(stage := Emit))
       case Some(ek) =>
         var x := h.entries[ek];
         var d := Decl(x.reason, x.counts);
         if Covers(x.counts, t.k) then
           (h.(entries := h.entries[ek := x.(used := true)]), t.(stage := NoteEntry(d, true)))
         else
           (h, t.(asked := Some(d), stage := NoteEntry(d, false))))
    case NoteEntry(d, covered) =>
      (h.(calls := Noted(h.calls, key, d)), t.(stage := if covered then Done(false) else Emit))
    case Emit =>
      var region := if e.region.Some? then Some(h.regions[e.region.value].decl) else None;
      var v := Violation(e.op, scope, e.open, t.k, CountsOf(e.option) + CountsOf(region) + CountsOf(t.asked));
      (h.(log := h.log + [Logged(i, v)]), t.(stage := Done(true)))
    case Done(_) => (h, t)
  }

  function Step(scope: string, s: State, i: nat): State
    requires s.Valid() && i < |s.threads|
  {
    var (h, t) := Advance(scope, s.shared, i, s.threads[i]);
    State(h, s.threads[i := t])
  }

  /** What a step can do to the accounts and the regions, and to the thread's own numbers. */
  lemma AdvanceCounts(scope: string, h: Shared, i: nat, t: Thread, key: ViolationKey)
    requires Admits(h, t)
    ensures var (h', t') := Advance(scope, h, i, t);
      var counted := t.stage.Start? && KeyOf(scope, t.event.op) == key;
      && t'.event == t.event && !t'.stage.Start?
      && CallsSoFar(h'.calls, key) == CallsSoFar(h.calls, key) + (if counted then 1 else 0)
      && (counted ==> t'.k == CallsSoFar(h'.calls, key))
      && (!t.stage.Start? ==> t'.k == t.k)
  {
    NotedKeepsCounts(h.calls, KeyOf(scope, t.event.op), t.event.option, key);
    if t.stage.NoteEntry? {
      NotedKeepsCounts(h.calls, KeyOf(scope, t.event.op), Some(t.stage.entry), key);
    }
  }

  lemma AdvanceRegions(scope: string, h: Shared, i: nat, t: Thread)
    requires Admits(h, t)
    ensures var (h', t') := Advance(scope, h, i, t);
      && |h'.regions| == |h.regions|
      && (forall r | 0 <= r < |h.regions| ::
            var asked := t.stage.AskRegion? && t.event.region == Some(r);
            && h'.regions[r].decl == h.regions[r].decl
            && h'.regions[r].calls == h.regions[r].calls + (if asked then 1 else 0)
            && (asked ==> t'.mk == h'.regions[r].calls))
      && (!(t.stage.AskRegion? && t.event.region.Some?) ==> t'.mk == t.mk)
      && (NumberedInOrder(t) && (forall r | 0 <= r < |h.regions| :: 0 <= h.regions[r].calls) ==> NumberedInOrder(t'))
  {
  }

  lemma StepKeepsValid(scope: string, s: State, i: nat)
    requires s.Valid() && i < |s.threads|
    ensures var s' := Step(scope, s, i);
      && s'.Valid() && |s'.threads| == |s.threads| && |s'.shared.regions| == |s.shared.regions|
      && (forall j | 0 <= j < |s.threads| :: s'.threads[j].event == s.threads[j].event)
      && (forall j | 0 <= j < |s.shared.regions| :: s'.shared.regions[j].decl == s.shared.regions[j].decl)
  {
    AdvanceRegions(scope, s.shared, i, s.threads[i]);
    AdvanceCounts(scope, s.shared, i, s.threads[i], KeyOf(scope, s.threads[i].event.op));
  }

  /** The state after a schedule: which thread steps when. Every interleaving is one schedule. */
  function Run(scope: string, s: State, schedule: seq<nat>): (s': State)
    requires s.Valid() && forall k | 0 <= k < |schedule| :: schedule[k] < |s.threads|
    ensures s'.Valid() && |s'.threads| == |s.threads| && |s'.shared.regions| == |s.shared.regions|
    ensures forall j | 0 <= j < |s.threads| :: s'.threads[j].event == s.threads[j].event
    ensures forall j | 0 <= j < |s.shared.regions| :: s'.shared.regions[j].decl == s.shared.regions[j].decl
  {
    if schedule == [] then s
    else
      var i := schedule[|schedule| - 1];
      var p := Run(scope, s, schedule[..|schedule| - 1]);
      StepKeepsValid(scope, p, i);
      Step(scope, p, i)
  }

  /** Fresh accounts, with one thread for each event. */
  predicate IsInitial(s: State) {
    && s.Valid() && s.shared.calls == map[] && s.shared.log == []
    && (forall r | 0 <= r < |s.shared.regions| :: s.shared.regions[r].calls == 0)
    && (forall i | 0 <= i < |s.threads| :: s.threads[i] == Thread(s.threads[i].event, Start, 0, 0, None))
  }

  // ---------- call numbers ----------

  ghost predicate Holds(held: map<nat, int>, v: int) {
    exists i :: i in held && held[i] == v
  }

  /** `held` hands out the numbers 1..n, each to exactly one holder. */
  ghost predicate Dispensed(held: map<nat, int>, n: int) {
    && 0 <= n
    && (forall i | i in held :: 1 <= held[i] <= n)
    && (forall i, j | i in held && j in held && i != j :: held[i] != held[j])
    && (forall v | 1 <= v <= n :: Holds(held, v))
  }

  lemma DispenseNext(held: map<nat, int>, n: int, i: nat)
    requires Dispensed(held, n) && i !in held
    ensures Dispensed(held[i := n + 1], n + 1)
  {
    var more := held[i := n + 1];
    forall v | 1 <= v <= n + 1 ensures Holds(more, v) {
      if v == n + 1 {
        assert more[i] == v;
      } else {
        assert Holds(held, v);
        var j :| j in held && held[j] == v;
        assert more[j] == v;
      }
    }
  }

  /** The holders of the numbers past `m`. */
  function Past(held: map<nat, int>, m: int): set<nat> {
    set i | i in held && m < held[i]
  }

  /** Of `n` numbers handed out, exactly `max(0, n - m)` are past `m`. */
  lemma {:induction false} HoldersPast(held: map<nat, int>, n: int, m: int)
    requires Dispensed(held, n) && 0 <= m
    ensures |Past(held, m)| == if m < n then n - m else 0
    decreases n
  {
    if n <= m {
      assert Past(held, m) == {};
    } else {
      assert Holds(held, n);
      var last :| last in held && held[last] == n;
      var fewer := held - {last};
      forall v | 1 <= v <= n - 1 ensures Holds(fewer, v) {
        assert Holds(held, v);
        var j :| j in held && held[j] == v;
        assert j in fewer && fewer[j] == v;
      }
      HoldersPast(fewer, n - 1, m);
      assert Past(held, m) == Past(fewer, m) + {last};
    }
  }

  predicate CountedFor(scope: string, t: Thread, key: ViolationKey) {
    !t.stage.Start? && KeyOf(scope, t.event.op) == key
  }

  predicate CountedIn(t: Thread, r: nat) {
    t.mk > 0 && t.event.region == Some(r)
  }

  /** The call numbers of the threads counted so far for `key`. */
  function IdentityNumbers(scope: string, s: State, key: ViolationKey): map<nat, int> {
    map i | 0 <= i < |s.threads| && CountedFor(scope, s.threads[i], key) :: s.threads[i].k
  }

  /** The call numbers of the threads counted so far in region `r`. */
  function RegionNumbers(s: State, r: nat): map<nat, int> {
    map i | 0 <= i < |s.threads| && CountedIn(s.threads[i], r) :: s.threads[i].mk
  }

  /** A thread has no region number until it has been through its region. */
  predicate NumberedInOrder(t: Thread) {
    0 <= t.mk && (t.stage.Start? || t.stage.NoteOption? || t.stage.AskRegion? ==> t.mk == 0)
  }

  /** Every account has handed out its call numbers, each to one thread, with none missing. */
  ghost predicate Fair(scope: string, s: State) {
    && s.Valid()
    && (forall i | 0 <= i < |s.threads| :: NumberedInOrder(s.threads[i]))
    && (forall key :: Dispensed(IdentityNumbers(scope, s, key), CallsSoFar(s.shared.calls, key)))
    && (forall r | 0 <= r < |s.shared.regions| :: Dispensed(RegionNumbers(s, r), s.shared.regions[r].calls))
  }

  lemma StepIdentityNumbers(scope: string, s: State, i: nat, key: ViolationKey)
    requires s.Valid() && i < |s.threads|
    requires Dispensed(IdentityNumbers(scope, s, key), CallsSoFar(s.shared.calls, key))
    ensures var s' := Step(scope, s, i);
            Dispensed(IdentityNumbers(scope, s', key), CallsSoFar(s'.shared.calls, key))
  {
    var s', t := Step(scope, s, i), s.threads[i];
    AdvanceCounts(scope, s.shared, i, t, key);
    var held, n := IdentityNumbers(scope, s, key), CallsSoFar(s.shared.calls, key);
    if t.stage.Start? && KeyOf(scope, t.event.op) == key {
      DispenseNext(held, n, i);
      assert IdentityNumbers(scope, s', key) == held[i := n + 1];
    } else {
      assert IdentityNumbers(scope, s', key) == held;
    }
  }

  lemma StepRegionNumbers(scope: string, s: State, i: nat, r: nat)
    requires s.Valid() && i < |s.threads| && r < |s.shared.regions| && NumberedInOrder(s.threads[i])
    requires Dispensed(RegionNumbers(s, r), s.shared.regions[r].calls)
    ensures var s' := Step(scope, s, i);
            && |s'.shared.regions| == |s.shared.regions|
            && Dispensed(RegionNumbers(s', r), s'.shared.regions[r].calls)
  {
    var s', t := Step(scope, s, i), s.threads[i];
    AdvanceRegions(scope, s.shared, i, t);
    AdvanceCounts(scope, s.shared, i, t, KeyOf(scope, t.event.op));
    var held, n := RegionNumbers(s, r), s.shared.regions[r].calls;
    if t.stage.AskRegion? && t.event.region == Some(r) {
      DispenseNext(held, n, i);
      assert RegionNumbers(s', r) == held[i := n + 1];
    } else {
      assert RegionNumbers(s', r) == held;
    }
  }

  lemma StepKeepsFair(scope: string, s: State, i: nat)
    requires Fair(scope, s) && i < |s.threads|
    ensures Fair(scope, Step(scope, s, i))
  {
    var s', t := Step(scope, s, i), s.threads[i];
    StepKeepsValid(scope, s, i);
    AdvanceRegions(scope, s.shared, i, t);
    assert forall r | 0 <= r < |s.shared.regions| :: 0 <= s.shared.regions[r].calls by {
      forall r | 0 <= r < |s.shared.regions| ensures 0 <= s.shared.regions[r].calls {
        assert Dispensed(RegionNumbers(s, r), s.shared.regions[r].calls);
      }
    }
    forall key ensures Dispensed(IdentityNumbers(scope, s', key), CallsSoFar(s'.shared.calls, key)) {
      StepIdentityNumbers(scope, s, i, key);
    }
    forall r | 0 <= r < |s.shared.regions| ensures Dispensed(RegionNumbers(s', r), s'.shared.regions[r].calls) {
      StepRegionNumbers(scope, s, i, r);
    }
  }

  /** In any interleaving of any mix of events, every identity's account and every region's counter hands
      each number from 1 up to exactly one thread. */
  lemma {:induction false} NumbersAreHandedOutOnce(scope: string, s: State, schedule: seq<nat>)
    requires IsInitial(s) && forall k | 0 <= k < |schedule| :: schedule[k] < |s.threads|
    ensures Fair(scope, Run(scope, s, schedule))
  {
    if schedule == [] {
      forall key ensures IdentityNumbers(scope, s, key) == map[] { }
      forall r: nat ensures RegionNumbers(s, r) == map[] { }
    } else {
      var n := |schedule| - 1;
      NumbersAreHandedOutOnce(scope, s, schedule[..n]);
      StepKeepsFair(scope, Run(scope, s, schedule[..n]), schedule[n]);
    }
  }

  // ---------- one declaration, any schedule ----------

  /** The events under study: those of one identity, decided by their option or by the Allowlist, or those
      of one region. */
  datatype Form = AsOption(key: ViolationKey) | AsEntry(key: ViolationKey) | AsRegion(region: nat)

  predicate Concerns(scope: string, f: Form, e: Event) {
    match f
    case AsRegion(r) => e.region == Some(r)
    case _ => KeyOf(scope, e.op) == f.key
  }

  /** `e` consults the declaration `d`, in the tier `f` names, and no other. */
  predicate ConsultsOnly(scope: string, f: Form, h: Shared, d: Decl, e: Event) {
    var entry := EntryDecl(h.entries, KeyOf(scope, e.op));
    match f
    case AsOption(_) => e.option == Some(d) && e.region.None? && entry.None?
    case AsEntry(_) => e.option.None? && e.region.None? && entry == Some(d)
    case AsRegion(r) => e.option.None? && entry.None? && r < |h.regions| && h.regions[r].decl == d
  }

  /** The number the declaration is compared with. */
  function Number(f: Form, t: Thread): int {
    if f.AsRegion? then t.mk else t.k
  }

  /** Where a concerned thread can stand, and what it has been told: past the decision, it goes on to
      report exactly when its number exceeds the maximum of `d`. */
  predicate Follows(f: Form, d: Decl, t: Thread) {
    var exceeds := Largest(d.counts) < Number(f, t);
    && t.asked == (if f.AsEntry? && (t.stage == NoteEntry(d, false) || t.stage.Emit? || t.stage == Done(true))
        then Some(d) else None)
    && (f.AsRegion? && t.stage.Done? ==> 0 < t.mk)
    && match t.stage
       case Start => true
       case NoteOption => f.AsOption?
       case AskRegion => f.AsOption? ==> exceeds
       case AskEntry => f.AsEntry? || exceeds
       case NoteEntry(e, covered) => f.AsEntry? && e == d && (covered <==> !exceeds)
       case Emit => exceeds
       case Done(reported) => reported <==> exceeds
  }

  /** The report of a concerned thread. */
  function ReportOf(scope: string, d: Decl, t: Thread): Violation {
    Violation(t.event.op, scope, t.event.open, t.k, d.counts)
  }

  predicate HasNoted(f: Form, t: Thread) {
    match f
    case AsOption(_) => !t.stage.Start? && !t.stage.NoteOption?
    case AsEntry(_) => t.stage.Emit? || t.stage.Done?
    case AsRegion(_) => false
  }

  /** The account of the identity carries `d`. */
  predicate Carries(calls: Calls, key: ViolationKey, d: Decl) {
    key in calls && calls[key].declared == d.counts && calls[key].reason == d.reason
  }

  lemma EntriesKeepDecl(entries: Entries, ek: ViolationKey, key: ViolationKey)
    requires ek in entries
    ensures EntryDecl(entries[ek := entries[ek].(used := true)], key) == EntryDecl(entries, key)
  {
  }

  lemma AdvanceKeepsConsulted(scope: string, f: Form, h: Shared, i: nat, t: Thread, d: Decl, e: Event)
    requires Admits(h, t) && ConsultsOnly(scope, f, h, d, e)
    ensures ConsultsOnly(scope, f, Advance(scope, h, i, t).0, d, e)
  {
    AdvanceRegions(scope, h, i, t);
    if EntryKey(h.entries, KeyOf(scope, t.event.op)).Some? {
      EntriesKeepDecl(h.entries, EntryKey(h.entries, KeyOf(scope, t.event.op)).value, KeyOf(scope, e.op));
    }
  }

  lemma AdvanceFollows(scope: string, f: Form, h: Shared, i: nat, t: Thread, d: Decl)
    requires Admits(h, t) && Concerns(scope, f, t.event) && d.counts != []
    requires ConsultsOnly(scope, f, h, d, t.event) && Follows(f, d, t)
    requires f.AsRegion? ==> 0 <= h.regions[f.region].calls
    ensures var (h', t') := Advance(scope, h, i, t);
      && Follows(f, d, t')
      && h'.log == h.log + (if t.stage.Emit? then [Logged(i, ReportOf(scope, d, t))] else [])
  {
    var none: seq<int> := [];
    Nothing(none);
    Nothing(d.counts);
    assert h.log + [] == h.log;
  }

  lemma AdvanceNotes(scope: string, f: Form, h: Shared, i: nat, t: Thread, d: Decl)
    requires !f.AsRegion? && Admits(h, t) && d.counts != []
    requires KeyOf(scope, t.event.op) == f.key ==> ConsultsOnly(scope, f, h, d, t.event) && Follows(f, d, t)
    requires KeyOf(scope, t.event.op) == f.key && !t.stage.Start? ==> f.key in h.calls
    ensures var (h', t') := Advance(scope, h, i, t);
      && (Carries(h.calls, f.key, d) ==> Carries(h'.calls, f.key, d))
      && (KeyOf(scope, t.event.op) == f.key && HasNoted(f, t') && !HasNoted(f, t) ==> Carries(h'.calls, f.key, d))
  {
  }

  /** The concerned threads that have reported. */
  function Reporters(scope: string, f: Form, s: State): set<nat> {
    set i | 0 <= i < |s.threads| && Concerns(scope, f, s.threads[i].event) && s.threads[i].stage == Done(true)
  }

  predicate ByConcerned(scope: string, f: Form, s: State, j: int) {
    0 <= j < |s.shared.log| && s.shared.log[j].thread < |s.threads| &&
        Concerns(scope, f, s.threads[s.shared.log[j].thread].event)
  }

  /** The reports of concerned threads, as positions in the log. */
  function Reports(scope: string, f: Form, s: State): set<nat> {
    set j | 0 <= j < |s.shared.log| && ByConcerned(scope, f, s, j)
  }

  /** Concerned threads follow the declaration they consult. */
  predicate AllFollow(scope: string, f: Form, d: Decl, s: State) {
    forall i | 0 <= i < |s.threads| && Concerns(scope, f, s.threads[i].event) ::
      Follows(f, d, s.threads[i]) && ConsultsOnly(scope, f, s.shared, d, s.threads[i].event)
  }

  /** A report in the log is the one its thread should make. */
  predicate EntryIsSound(scope: string, d: Decl, s: State, j: nat)
    requires j < |s.shared.log|
  {
    var i := s.shared.log[j].thread;
    i < |s.threads| && s.shared.log[j].violation == ReportOf(scope, d, s.threads[i]) && !s.threads[i].stage.Start?
  }

  /** Every report of a concerned thread is the one it should make, and each reporter made just one. */
  predicate LogIsSound(scope: string, f: Form, d: Decl, s: State) {
    && (forall j | 0 <= j < |s.shared.log| && ByConcerned(scope, f, s, j) :: EntryIsSound(scope, d, s, j))
    && |Reports(scope, f, s)| == |Reporters(scope, f, s)|
  }

  ghost predicate InLog(s: State, i: nat) {
    exists j :: 0 <= j < |s.shared.log| && s.shared.log[j].thread == i
  }

  /** The log holds one report of every thread that is done with reporting, and no other: its positions are
      different threads', each of them done, and none that is done is missing. */
  ghost predicate OnceEach(s: State) {
    && (forall j | 0 <= j < |s.shared.log| :: ReportedBy(s, j))
    && (forall j, k | 0 <= j < k < |s.shared.log| :: s.shared.log[j].thread != s.shared.log[k].thread)
    && (forall i | 0 <= i < |s.threads| && s.threads[i].stage == Done(true) :: InLog(s, i))
  }

  predicate ReportedBy(s: State, j: nat)
    requires j < |s.shared.log|
  {
    s.shared.log[j].thread < |s.threads| && s.threads[s.shared.log[j].thread].stage == Done(true)
  }

  lemma StepKeepsOnceEach(scope: string, s: State, i: nat)
    requires s.Valid() && i < |s.threads| && OnceEach(s)
    ensures OnceEach(Step(scope, s, i))
  {
    var s', log := Step(scope, s, i), s.shared.log;
    AdvanceLogs(scope, s.shared, i, s.threads[i]);
    assert forall j | 0 <= j < |log| :: s'.shared.log[j] == s'.shared.log[..|log|][j] == log[j];
    forall j | 0 <= j < |s'.shared.log| ensures ReportedBy(s', j) {
      if j < |log| { assert ReportedBy(s, j); }
    }
    forall k | 0 <= k < |s'.threads| && s'.threads[k].stage == Done(true) ensures InLog(s', k) {
      if s.threads[k].stage == Done(true) {
        assert InLog(s, k);
        var j :| 0 <= j < |log| && log[j].thread == k;
        assert s'.shared.log[j].thread == k;
      } else {
        assert s'.shared.log[|log|].thread == k;
      }
    }
    forall j | 0 <= j < |log| && s.threads[i].stage.Emit? ensures log[j].thread != i { assert ReportedBy(s, j); }
  }

  /** In any interleaving of any mix of events, whatever they consult, the threads that reported are in the
      log once each. */
  lemma {:induction false} EachReportsOnce(scope: string, s: State, schedule: seq<nat>)
    requires IsInitial(s) && forall k | 0 <= k < |schedule| :: schedule[k] < |s.threads|
    ensures OnceEach(Run(scope, s, schedule))
  {
    if schedule != [] {
      var n := |schedule| - 1;
      EachReportsOnce(scope, s, schedule[..n]);
      StepKeepsOnceEach(scope, Run(scope, s, schedule[..n]), schedule[n]);
    }
  }

  /** Once a concerned thread has noted its declaration, the account carries it. */
  predicate AccountCarries(scope: string, f: Form, d: Decl, s: State) {
    f.AsRegion? ||
    forall i | 0 <= i < |s.threads| && Concerns(scope, f, s.threads[i].event) && HasNoted(f, s.threads[i]) ::
      Carries(s.shared.calls, f.key, d)
  }

  lemma AdvanceLogs(scope: string, h: Shared, i: nat, t: Thread)
    requires Admits(h, t)
    ensures var (h', t') := Advance(scope, h, i, t);
      && (t'.stage == Done(true) <==> t.stage == Done(true) || t.stage.Emit?)
      && (!t.stage.Emit? ==> h'.log == h.log)
      && (t.stage.Emit? ==> |h'.log| == |h.log| + 1 && h'.log[..|h.log|] == h.log && h'.log[|h.log|].thread == i)
  {
  }

  /** No region has counted backwards. */
  predicate RegionsCountUp(s: State) {
    forall r | 0 <= r < |s.shared.regions| :: 0 <= s.shared.regions[r].calls
  }

  lemma FairRegionsCountUp(scope: string, s: State)
    requires Fair(scope, s)
    ensures RegionsCountUp(s)
  {
    forall r | 0 <= r < |s.shared.regions| ensures 0 <= s.shared.regions[r].calls {
      assert Dispensed(RegionNumbers(s, r), s.shared.regions[r].calls);
    }
  }

  lemma StepKeepsAllFollow(scope: string, f: Form, d: Decl, s: State, i: nat)
    requires s.Valid() && RegionsCountUp(s) && i < |s.threads| && d.counts != [] && AllFollow(scope, f, d, s)
    ensures AllFollow(scope, f, d, Step(scope, s, i))
  {
    var s', t := Step(scope, s, i), s.threads[i];
    StepKeepsValid(scope, s, i);
    forall j | 0 <= j < |s.threads| && Concerns(scope, f, s'.threads[j].event)
      ensures Follows(f, d, s'.threads[j]) && ConsultsOnly(scope, f, s'.shared, d, s'.threads[j].event)
    {
      AdvanceKeepsConsulted(scope, f, s.shared, i, t, d, s.threads[j].event);
      if j == i { AdvanceFollows(scope, f, s.shared, i, t, d); }
    }
  }

  /** A step that reports nothing new for the concerned threads leaves their reports as they were; one
      that does adds one report and one reporter. */
  lemma StepReports(scope: string, f: Form, s: State, i: nat)
    requires s.Valid() && i < |s.threads|
    ensures var s' := Step(scope, s, i);
      var reports := Concerns(scope, f, s.threads[i].event) && s.threads[i].stage.Emit?;
      && (forall j | 0 <= j < |s.shared.log| :: j < |s'.shared.log| && s'.shared.log[j] == s.shared.log[j])
      && Reports(scope, f, s') == (if reports then Reports(scope, f, s) + {|s.shared.log|} else Reports(scope, f, s))
      && Reporters(scope, f, s') == (if reports then Reporters(scope, f, s) + {i} else Reporters(scope, f, s))
  {
    var s', t := Step(scope, s, i), s.threads[i];
    var n := |s.shared.log|;
    StepKeepsValid(scope, s, i);
    AdvanceLogs(scope, s.shared, i, t);
    assert forall j | 0 <= j < n :: s'.shared.log[j] == s'.shared.log[..n][j];
    forall j | 0 <= j < n ensures ByConcerned(scope, f, s', j) <==> ByConcerned(scope, f, s, j) { }
  }

  lemma EarlierEntryStaysSound(scope: string, f: Form, d: Decl, s: State, i: nat, j: nat)
    requires s.Valid() && i < |s.threads| && j < |s.shared.log| && ByConcerned(scope, f, s, j) &&
        EntryIsSound(scope, d, s, j)
    ensures j < |Step(scope, s, i).shared.log| && EntryIsSound(scope, d, Step(scope, s, i), j)
  {
    var t := s.threads[i];
    AdvanceLogs(scope, s.shared, i, t);
    AdvanceCounts(scope, s.shared, i, t, KeyOf(scope, t.event.op));
    var log := Step(scope, s, i).shared.log;
    assert |s.shared.log| <= |log| && log[..|s.shared.log|][j] == s.shared.log[j];
  }

  lemma NewEntryIsSound(scope: string, f: Form, d: Decl, s: State, i: nat)
    requires s.Valid() && RegionsCountUp(s) && i < |s.threads| && d.counts != [] && AllFollow(scope, f, d, s)
    requires Concerns(scope, f, s.threads[i].event) && s.threads[i].stage.Emit?
    ensures |Step(scope, s, i).shared.log| == |s.shared.log| + 1 &&
        EntryIsSound(scope, d, Step(scope, s, i), |s.shared.log|)
  {
    var t := s.threads[i];
    AdvanceFollows(scope, f, s.shared, i, t, d);
    AdvanceCounts(scope, s.shared, i, t, KeyOf(scope, t.event.op));
  }

  lemma StepKeepsBalance(scope: string, f: Form, s: State, i: nat)
    requires s.Valid() && i < |s.threads| && |Reports(scope, f, s)| == |Reporters(scope, f, s)|
    ensures |Reports(scope, f, Step(scope, s, i))| == |Reporters(scope, f, Step(scope, s, i))|
  {
    StepReports(scope, f, s, i);
  }

  lemma StepKeepsLogSound(scope: string, f: Form, d: Decl, s: State, i: nat)
    requires s.Valid() && RegionsCountUp(s) && i < |s.threads| && d.counts != []
    requires AllFollow(scope, f, d, s) && LogIsSound(scope, f, d, s)
    ensures LogIsSound(scope, f, d, Step(scope, s, i))
  {
    var s' := Step(scope, s, i);
    StepKeepsBalance(scope, f, s, i);
    forall j | 0 <= j < |s'.shared.log| && ByConcerned(scope, f, s', j) ensures EntryIsSound(scope, d, s', j) {
      StepKeepsEntrySound(scope, f, d, s, i, j);
    }
  }

  lemma StepKeepsEntrySound(scope: string, f: Form, d: Decl, s: State, i: nat, j: nat)
    requires s.Valid() && RegionsCountUp(s) && i < |s.threads| && d.counts != []
    requires AllFollow(scope, f, d, s) && LogIsSound(scope, f, d, s)
    requires j in Reports(scope, f, Step(scope, s, i))
    ensures EntryIsSound(scope, d, Step(scope, s, i), j)
  {
    StepReports(scope, f, s, i);
    if j in Reports(scope, f, s) {
      EarlierEntryStaysSound(scope, f, d, s, i, j);
    } else {
      NewEntryIsSound(scope, f, d, s, i);
    }
  }

  lemma StepKeepsAccount(scope: string, f: Form, d: Decl, s: State, i: nat)
    requires Fair(scope, s) && i < |s.threads| && d.counts != [] && AllFollow(scope, f, d, s) &&
        AccountCarries(scope, f, d, s)
    ensures AccountCarries(scope, f, d, Step(scope, s, i))
  {
    if !f.AsRegion? {
      var t := s.threads[i];
      StepKeepsValid(scope, s, i);
      assert Dispensed(IdentityNumbers(scope, s, f.key), CallsSoFar(s.shared.calls, f.key));
      assert CountedFor(scope, t, f.key) ==> i in IdentityNumbers(scope, s, f.key);
      AdvanceNotes(scope, f, s.shared, i, t, d);
    }
  }

  /** All the concerned events consult the counted declaration `d` alone, whatever the other events do. */
  predicate Uniform(scope: string, f: Form, d: Decl, s: State) {
    && d.counts != []
    && forall i | 0 <= i < |s.threads| && Concerns(scope, f, s.threads[i].event) ::
        ConsultsOnly(scope, f, s.shared, d, s.threads[i].event)
  }

  lemma {:induction false} SchedulesAreGoverned(scope: string, f: Form, d: Decl, s: State, schedule: seq<nat>)
    requires IsInitial(s) && (forall k | 0 <= k < |schedule| :: schedule[k] < |s.threads|) && Uniform(scope, f, d, s)
    ensures var r := Run(scope, s, schedule);
            Fair(scope, r) && AllFollow(scope, f, d, r) && LogIsSound(scope, f, d, r) && AccountCarries(scope, f, d, r)
  {
    NumbersAreHandedOutOnce(scope, s, schedule);
    if schedule == [] {
      assert Reports(scope, f, s) == {} == Reporters(scope, f, s);
    } else {
      var n := |schedule| - 1;
      var p := Run(scope, s, schedule[..n]);
      SchedulesAreGoverned(scope, f, d, s, schedule[..n]);
      FairRegionsCountUp(scope, p);
      StepKeepsAllFollow(scope, f, d, p, schedule[n]);
      StepKeepsLogSound(scope, f, d, p, schedule[n]);
      StepKeepsAccount(scope, f, d, p, schedule[n]);
    }
  }

  /** How many events are concerned. */
  function Concerned(scope: string, f: Form, s: State): set<nat> {
    set i | 0 <= i < |s.threads| && Concerns(scope, f, s.threads[i].event)
  }

  /** The numbers the concerned threads were given. */
  function Numbers(scope: string, f: Form, s: State): map<nat, int> {
    match f
    case AsRegion(r) => RegionNumbers(s, r)
    case _ => IdentityNumbers(scope, s, f.key)
  }

  predicate AllDone(s: State) {
    forall i | 0 <= i < |s.threads| :: s.threads[i].stage.Done?
  }

  /** The total the account of the form holds. */
  function Total(f: Form, s: State): int
    requires f.AsRegion? ==> f.region < |s.shared.regions|
  {
    match f
    case AsRegion(r) => s.shared.regions[r].calls
    case _ => CallsSoFar(s.shared.calls, f.key)
  }

  lemma DoneMeansNumbered(scope: string, f: Form, d: Decl, s: State)
    requires Fair(scope, s) && AllFollow(scope, f, d, s) && AllDone(s)
    requires f.AsRegion? ==> f.region < |s.shared.regions|
    ensures Numbers(scope, f, s).Keys == Concerned(scope, f, s)
    ensures Dispensed(Numbers(scope, f, s), Total(f, s)) && Total(f, s) == |Concerned(scope, f, s)|
  {
    var held := Numbers(scope, f, s);
    forall i | i in Concerned(scope, f, s) ensures i in held {
      assert Follows(f, d, s.threads[i]);
    }
    assert held.Keys == Concerned(scope, f, s);
    HoldersPast(held, Total(f, s), 0);
    assert Past(held, 0) == held.Keys;
  }

  lemma DoneMeansDecided(scope: string, f: Form, d: Decl, s: State)
    requires AllFollow(scope, f, d, s) && AllDone(s)
    requires Numbers(scope, f, s).Keys == Concerned(scope, f, s)
    ensures Reporters(scope, f, s) == Past(Numbers(scope, f, s), Largest(d.counts))
  {
    forall i | i in Concerned(scope, f, s)
      ensures i in Reporters(scope, f, s) <==> Largest(d.counts) < Numbers(scope, f, s)[i]
    {
      assert Follows(f, d, s.threads[i]);
    }
  }

  /** The concerned threads whose reports are in the log. */
  function LoggedThreads(scope: string, f: Form, s: State): set<nat> {
    set j | j in Reports(scope, f, s) :: s.shared.log[j].thread
  }

  /** The call numbers the concerned reports carry. */
  function LoggedCalls(scope: string, f: Form, s: State): set<int> {
    set j | j in Reports(scope, f, s) :: s.shared.log[j].violation.call
  }

  lemma LoggedAreReporters(scope: string, f: Form, s: State)
    requires OnceEach(s)
    ensures LoggedThreads(scope, f, s) == Reporters(scope, f, s)
  {
    forall i | i in Reporters(scope, f, s) ensures i in LoggedThreads(scope, f, s) {
      assert InLog(s, i);
      var j :| 0 <= j < |s.shared.log| && s.shared.log[j].thread == i;
      assert j in Reports(scope, f, s);
    }
    forall j | j in Reports(scope, f, s) ensures s.shared.log[j].thread in Reporters(scope, f, s) {
      assert ReportedBy(s, j);
    }
  }

  /** For an identity, the calls reported are exactly the numbers past the maximum. */
  lemma LoggedCallsArePast(scope: string, f: Form, d: Decl, s: State, n: nat)
    requires !f.AsRegion? && LogIsSound(scope, f, d, s) && Dispensed(Numbers(scope, f, s), n)
    requires LoggedThreads(scope, f, s) == Past(Numbers(scope, f, s), Largest(d.counts))
    ensures forall k :: k in LoggedCalls(scope, f, s) <==> Largest(d.counts) < k <= n
  {
    var held, max := Numbers(scope, f, s), Largest(d.counts);
    forall j | j in Reports(scope, f, s) ensures max < s.shared.log[j].violation.call <= n {
      var i := s.shared.log[j].thread;
      assert EntryIsSound(scope, d, s, j) && i in LoggedThreads(scope, f, s);
      assert s.shared.log[j].violation.call == held[i];
    }
    forall k | max < k <= n ensures k in LoggedCalls(scope, f, s) {
      assert Holds(held, k);
      var i :| i in held && held[i] == k;
      assert i in LoggedThreads(scope, f, s);
      var j :| j in Reports(scope, f, s) && s.shared.log[j].thread == i;
      assert EntryIsSound(scope, d, s, j);
    }
  }

  /** Schedule independence. Let any mix of events run in any interleaving, and let the `n` of one identity
      (or of one region) all consult the same counted declaration and nothing else. When all are done, the
      numbers 1..n have gone to one event each, exactly those given a number past the maximum have
      reported, once each, so `max(0, n - maximum)` in all, and for an identity the calls reported are
      just maximum + 1 to n; and the account holds the total and the declaration, so the finish depends on
      `n` alone too. */
  lemma ScheduleIndependence(scope: string, f: Form, d: Decl, s: State, schedule: seq<nat>)
    requires IsInitial(s) && (forall k | 0 <= k < |schedule| :: schedule[k] < |s.threads|) && Uniform(scope, f, d, s)
    requires f.AsRegion? ==> f.region < |s.shared.regions|
    requires AllDone(Run(scope, s, schedule))
    ensures var r := Run(scope, s, schedule);
      var n, max := |Concerned(scope, f, s)|, Largest(d.counts);
      && Numbers(scope, f, r).Keys == Concerned(scope, f, s) && Dispensed(Numbers(scope, f, r), n)
      && LoggedThreads(scope, f, r) == Past(Numbers(scope, f, r), max)
      && |Reports(scope, f, r)| == (if max < n then n - max else 0)
      && (!f.AsRegion? ==> forall k :: k in LoggedCalls(scope, f, r) <==> max < k <= n)
      && OnceEach(r) && LogIsSound(scope, f, d, r)
      && Total(f, r) == n
      && (!f.AsRegion? && 0 < n ==> Carries(r.shared.calls, f.key, d))
  {
    var r := Run(scope, s, schedule);
    SchedulesAreGoverned(scope, f, d, s, schedule);
    EachReportsOnce(scope, s, schedule);
    assert Concerned(scope, f, r) == Concerned(scope, f, s);
    DoneMeansNumbered(scope, f, d, r);
    DoneMeansDecided(scope, f, d, r);
    HoldersPast(Numbers(scope, f, r), Total(f, r), Largest(d.counts));
    LoggedAreReporters(scope, f, r);
    if !f.AsRegion? {
      LoggedCallsArePast(scope, f, d, r, Total(f, r));
    }
    if !f.AsRegion? && Concerned(scope, f, r) != {} {
      DoneMeansNoted(scope, f, d, r);
    }
  }

  lemma DoneMeansNoted(scope: string, f: Form, d: Decl, s: State)
    requires !f.AsRegion? && AllDone(s) && AccountCarries(scope, f, d, s) && Concerned(scope, f, s) != {}
    ensures Carries(s.shared.calls, f.key, d)
  {
    var i :| i in Concerned(scope, f, s);
    assert HasNoted(f, s.threads[i]);
  }

  // ---------- one thread alone ----------

  /** `n` steps of one thread with nobody else running. */
  function Alone(scope: string, h: Shared, i: nat, t: Thread, n: nat): (Shared, Thread)
    requires Admits(h, t)
    decreases n
  {
    if n == 0 then (h, t)
    else
      var (h', t') := Advance(scope, h, i, t);
      AdvanceRegions(scope, h, i, t);
      AdvanceCounts(scope, h, i, t, KeyOf(scope, t.event.op));
      Alone(scope, h', i, t', n - 1)
  }

  /** The shared state as a sequential execution sees it. */
  function Seen(h: Shared): E.Run {
    E.Run(h.calls, h.regions, h.entries, [])
  }

  lemma AloneWhenDone(scope: string, h: Shared, i: nat, t: Thread, n: nat)
    requires Admits(h, t) && t.stage.Done?
    ensures Alone(scope, h, i, t, n) == (h, t)
  {
  }

  /** What is left to do from the Allowlist on, for call number `k`. */
  function FromEntry(scope: string, h: Shared, i: nat, e: Event, k: int): (Shared, bool)
    requires Seen(h).Admits(e)
  {
    var key := KeyOf(scope, e.op);
    var ek, d := EntryKey(h.entries, key), EntryDecl(h.entries, key);
    var calls := NotedIf(h.calls, key, d);
    if ek.Some? && Covers(h.entries[ek.value].counts, k) then
      (Shared(calls, h.regions, h.entries[ek.value := h.entries[ek.value].(used := true)], h.log), false)
    else
      var v := Violation(e.op, scope, e.open, k, CountsOf(e.option) + CountsOf(Seen(h).RegionDecl(e)) + CountsOf(d));
      (Shared(calls, h.regions, h.entries, h.log + [Logged(i, v)]), true)
  }

  /** What is left to do from the region on. */
  function FromRegion(scope: string, h: Shared, i: nat, e: Event, k: int): (Shared, bool)
    requires Seen(h).Admits(e)
  {
    if e.region.None? then FromEntry(scope, h, i, e, k)
    else
      var r := h.regions[e.region.value];
      var h1 := h.(regions := h.regions[e.region.value := r.(calls := r.calls + 1)]);
      if Covers(r.decl.counts, r.calls + 1) then (h1, false) else FromEntry(scope, h1, i, e, k)
  }

  lemma AloneFromEntry(scope: string, h: Shared, i: nat, t: Thread, n: nat)
    requires Admits(h, t) && t.stage.AskEntry? && t.asked == None && 3 <= n
    ensures var (h', t') := Alone(scope, h, i, t, n);
            h' == FromEntry(scope, h, i, t.event, t.k).0 && t'.stage == Done(FromEntry(scope, h, i, t.event, t.k).1)
  {
    var (h1, t1) := Advance(scope, h, i, t);
    var (h2, t2) := Advance(scope, h1, i, t1);
    assert Alone(scope, h, i, t, n) == Alone(scope, h1, i, t1, n - 1) == Alone(scope, h2, i, t2, n - 2);
    if t2.stage.Done? {
      AloneWhenDone(scope, h2, i, t2, n - 2);
    } else {
      var (h3, t3) := Advance(scope, h2, i, t2);
      AloneWhenDone(scope, h3, i, t3, n - 3);
    }
  }

  lemma AloneFromRegion(scope: string, h: Shared, i: nat, t: Thread, n: nat)
    requires Admits(h, t) && t.stage.AskRegion? && t.asked == None && 4 <= n
    ensures var (h', t') := Alone(scope, h, i, t, n);
            h' == FromRegion(scope, h, i, t.event, t.k).0 && t'.stage == Done(FromRegion(scope, h, i, t.event, t.k).1)
  {
    var (h1, t1) := Advance(scope, h, i, t);
    if t1.stage.Done? {
      AloneWhenDone(scope, h1, i, t1, n - 1);
    } else {
      AloneFromEntry(scope, h1, i, t1, n - 1);
    }
  }

  /** What a whole event does: the option is noted and asked, then the rest follows. */
  function FromStart(scope: string, h: Shared, i: nat, e: Event): (Shared, bool)
    requires Seen(h).Admits(e)
  {
    var key := KeyOf(scope, e.op);
    var k := CallsSoFar(h.calls, key) + 1;
    var h1 := h.(calls := NotedIf(Bumped(h.calls, key), key, e.option));
    if e.option.Some? && Covers(e.option.value.counts, k) then (h1, false) else FromRegion(scope, h1, i, e, k)
  }

  lemma AloneFromStart(scope: string, h: Shared, i: nat, t: Thread)
    requires Admits(h, t) && t == Thread(t.event, Start, 0, 0, None)
    ensures var (h', t') := Alone(scope, h, i, t, 6);
            h' == FromStart(scope, h, i, t.event).0 && t'.stage == Done(FromStart(scope, h, i, t.event).1)
  {
    var (h1, t1) := Advance(scope, h, i, t);
    if t.event.option.None? {
      AloneFromRegion(scope, h1, i, t1, 5);
    } else {
      var (h2, t2) := Advance(scope, h1, i, t1);
      if t2.stage.Done? {
        AloneWhenDone(scope, h2, i, t2, 4);
      } else {
        AloneFromRegion(scope, h2, i, t2, 4);
      }
    }
  }

  /** The rule of a whole event, read off the sequential one. */
  function Sequentially(scope: string, h: Shared, i: nat, e: Event): (Shared, bool)
    requires Seen(h).Admits(e)
  {
    var after, v := Seen(h).After(scope, e), Seen(h).ViolationBy(scope, e);
    (Shared(after.calls, after.regions, after.entries, h.log + if v.Some? then [Logged(i, v.value)] else []), v.Some?)
  }

  lemma StartIsSequential(scope: string, h: Shared, i: nat, e: Event)
    requires Seen(h).Admits(e)
    ensures FromStart(scope, h, i, e) == Sequentially(scope, h, i, e)
  {
    assert h.log + [] == h.log;
    if e.region.Some? {
      var r := h.regions[e.region.value];
      assert h.regions[e.region.value := r.(calls := r.calls)] == h.regions;
    }
  }

  /** An event that runs with no other in between does exactly what the sequential rule says. */
  lemma AloneIsSequential(scope: string, h: Shared, i: nat, t: Thread)
    requires Admits(h, t) && t == Thread(t.event, Start, 0, 0, None)
    ensures var (h', t') := Alone(scope, h, i, t, 6);
            h' == Sequentially(scope, h, i, t.event).0 && t'.stage == Done(Sequentially(scope, h, i, t.event).1)
  {
    AloneFromStart(scope, h, i, t);
    StartIsSequential(scope, h, i, t.event);
  }
}

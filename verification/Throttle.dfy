/** The throttling reporter: per key at most one report per interval reaches the wrapped reporter, and the
    rest are counted. Clock readings are inputs. */
module Throttle {
  import opened Types
  import opened Detectors
  import opened ThrottleKeys

  // ---------- one window map ----------

  /** When a report of the key was last forwarded, and how many have been suppressed. */
  datatype Window = Window(last: int, suppressed: int)

  type Windows = map<string, Window>

  datatype Arrival = Arrival(key: string, at: int)

  predicate Admits(m: Windows, a: Arrival, interval: int) {
    a.key in m ==> a.at - m[a.key].last >= interval
  }

  /** The windows after a report; with `cap` positive, a key is not tracked once `cap` others are. */
  function After(m: Windows, a: Arrival, interval: int, cap: int): Windows {
    if a.key !in m then
      if 0 < cap <= |m| then m else m[a.key := Window(a.at, 0)]
    else if Admits(m, a, interval) then m[a.key := m[a.key].(last := a.at)]
    else m[a.key := m[a.key].(suppressed := m[a.key].suppressed + 1)]
  }

  function WindowsAfter(trace: seq<Arrival>, interval: int, cap: int): Windows {
    if trace == [] then map[]
    else After(WindowsAfter(trace[..|trace| - 1], interval, cap), trace[|trace| - 1], interval, cap)
  }

  // ---------- what one key sees ----------

  /** The clock readings of the reports for `key`. */
  function TimesOf(trace: seq<Arrival>, key: string): seq<int> {
    if trace == [] then []
    else
      var last := trace[|trace| - 1];
      TimesOf(trace[..|trace| - 1], key) + if last.key == key then [last.at] else []
  }

  /** Which of the reports for `key`, by their position among those, the run let through. */
  function LetThrough(trace: seq<Arrival>, key: string, interval: int, cap: int): seq<nat> {
    if trace == [] then []
    else
      var init, last := trace[..|trace| - 1], trace[|trace| - 1];
      LetThrough(init, key, interval, cap)
      + if last.key == key && Admits(WindowsAfter(init, interval, cap), last, interval) then [|TimesOf(init, key)|]
        else []
  }

  /** The limiter for a single stream: the first report passes, and then every report at least `interval`
      after the last one that passed. No windows, no other keys. */
  function Limited(times: seq<int>, interval: int): (passed: seq<nat>)
    ensures forall i | 0 <= i < |passed| :: passed[i] < |times|
    ensures times != [] ==> passed != []
  {
    if times == [] then []
    else
      var n := |times| - 1;
      var before := Limited(times[..n], interval);
      if before == [] || times[n] - times[before[|before| - 1]] >= interval then before + [n] else before
  }

  function Everything(n: nat): seq<nat> { seq(n, i => i) }

  /** The keys of a run in order of first appearance. */
  function DistinctKeys(trace: seq<Arrival>): (keys: seq<string>)
    ensures forall i, j | 0 <= i < j < |keys| :: keys[i] != keys[j]
    ensures forall k :: k in keys <==> exists a :: a in trace && a.key == k
  {
    if trace == [] then []
    else
      var before, last := DistinctKeys(trace[..|trace| - 1]), trace[|trace| - 1];
      assert trace == trace[..|trace| - 1] + [last];
      if last.key in before then before else before + [last.key]
  }

  /** The keys tracked under a cap: the first `cap` to appear, or all of them without a cap. */
  function Tracked(trace: seq<Arrival>, cap: int): seq<string> {
    var keys := DistinctKeys(trace);
    if 0 < cap < |keys| then keys[..cap] else keys
  }

  /** How a tracked key's window reads off its own stream: the last report that passed, and the number that
      did not. */
  function WindowOf(times: seq<int>, interval: int): Window
    requires times != []
  {
    var passed := Limited(times, interval);
    Window(times[passed[|passed| - 1]], |times| - |passed|)
  }

  // ---------- every key is limited as if it were alone ----------

  lemma TrackedStep(init: seq<Arrival>, last: Arrival, cap: int)
    ensures var t := Tracked(init, cap);
      Tracked(init + [last], cap) == if last.key in t || 0 < cap <= |t| then t else t + [last.key]
  {
    assert (init + [last])[..|init|] == init;
    var before := DistinctKeys(init);
    if last.key !in before && 0 < cap <= |before| {
      assert (before + [last.key])[..cap] == before[..cap];
    }
  }

  lemma {:induction false} TimesNeedAppearance(trace: seq<Arrival>, key: string)
    ensures TimesOf(trace, key) != [] <==> key in DistinctKeys(trace)
  {
    if trace != [] {
      TimesNeedAppearance(trace[..|trace| - 1], key);
    }
  }

  /** The map and the verdicts for one key are those of the key's own stream. */
  ghost predicate Alone(m: Windows, trace: seq<Arrival>, key: string, interval: int, cap: int) {
    var times := TimesOf(trace, key);
    if key in Tracked(trace, cap) then
      && times != [] && key in m && m[key] == WindowOf(times, interval)
      && LetThrough(trace, key, interval, cap) == Limited(times, interval)
    else
      key !in m && LetThrough(trace, key, interval, cap) == Everything(|times|)
  }

  ghost predicate Holds(m: Windows, keys: seq<string>) {
    |m| == |keys| && forall k :: k in m <==> k in keys
  }

  lemma HoldsStep(m: Windows, keys: seq<string>, a: Arrival, interval: int, cap: int)
    requires Holds(m, keys)
    ensures Holds(After(m, a, interval, cap), if a.key in keys || 0 < cap <= |keys| then keys else keys + [a.key])
  {
  }

  /** The map tracks exactly the first `cap` keys to appear (every key, without a cap), and never more. */
  lemma {:induction false} MapHoldsTracked(trace: seq<Arrival>, interval: int, cap: int)
    ensures Holds(WindowsAfter(trace, interval, cap), Tracked(trace, cap))
    ensures 0 < cap ==> |WindowsAfter(trace, interval, cap)| <= cap
  {
    if trace != [] {
      var init, last := trace[..|trace| - 1], trace[|trace| - 1];
      assert trace == init + [last];
      MapHoldsTracked(init, interval, cap);
      TrackedStep(init, last, cap);
      HoldsStep(WindowsAfter(init, interval, cap), Tracked(init, cap), last, interval, cap);
    }
  }

  lemma LimitedStep(times: seq<int>, t: int, interval: int)
    requires times != []
    ensures var w := WindowOf(times, interval);
      && Limited(times + [t], interval) == Limited(times, interval) + (if t - w.last >= interval then [|times|] else [])
      && WindowOf(times + [t], interval) ==
          if t - w.last >= interval then Window(t, w.suppressed) else Window(w.last, w.suppressed + 1)
  {
    assert (times + [t])[..|times|] == times;
  }

  lemma OtherKeyPasses(init: seq<Arrival>, last: Arrival, key: string, interval: int, cap: int)
    requires last.key != key
    ensures TimesOf(init + [last], key) == TimesOf(init, key)
    ensures LetThrough(init + [last], key, interval, cap) == LetThrough(init, key, interval, cap)
  {
    assert (init + [last])[..|init|] == init;
    Nothing(TimesOf(init, key));
    Nothing(LetThrough(init, key, interval, cap));
  }

  lemma OtherKeyArrives(m: Windows, init: seq<Arrival>, last: Arrival, key: string, interval: int, cap: int)
    requires Alone(m, init, key, interval, cap) && last.key != key
    ensures Alone(After(m, last, interval, cap), init + [last], key, interval, cap)
  {
    TrackedStep(init, last, cap);
    OtherKeyPasses(init, last, key, interval, cap);
  }

  lemma TrackedKeyArrives(m: Windows, init: seq<Arrival>, last: Arrival, key: string, interval: int, cap: int)
    requires m == WindowsAfter(init, interval, cap) && Alone(m, init, key, interval, cap)
    requires last.key == key && key in Tracked(init, cap)
    ensures Alone(After(m, last, interval, cap), init + [last], key, interval, cap)
  {
    assert (init + [last])[..|init|] == init;
    TrackedStep(init, last, cap);
    LimitedStep(TimesOf(init, key), last.at, interval);
  }

  lemma BeyondTheCap(m: Windows, init: seq<Arrival>, last: Arrival, key: string, interval: int, cap: int)
    requires m == WindowsAfter(init, interval, cap) && Alone(m, init, key, interval, cap) && |m| == |Tracked(init, cap)|
    requires last.key == key && key !in Tracked(init, cap) && 0 < cap <= |m|
    ensures Alone(After(m, last, interval, cap), init + [last], key, interval, cap)
  {
    assert (init + [last])[..|init|] == init;
    TrackedStep(init, last, cap);
    var n := |TimesOf(init, key)|;
    assert Everything(n) + [n] == Everything(n + 1);
  }

  lemma FirstIsLimited(t: int, interval: int)
    ensures Limited([t], interval) == [0] && WindowOf([t], interval) == Window(t, 0)
  {
    assert [t][..0] == [];
  }

  lemma FirstOfAKey(m: Windows, init: seq<Arrival>, last: Arrival, key: string, interval: int, cap: int)
    requires m == WindowsAfter(init, interval, cap) && Alone(m, init, key, interval, cap) && |m| == |Tracked(init, cap)|
    requires last.key == key && key !in Tracked(init, cap) && !(0 < cap <= |m|)
    ensures Alone(After(m, last, interval, cap), init + [last], key, interval, cap)
  {
    var trace := init + [last];
    FirstThrough(init, last, key, interval, cap);
    TrackedStep(init, last, cap);
    FirstIsLimited(last.at, interval);
  }

  lemma FirstThrough(init: seq<Arrival>, last: Arrival, key: string, interval: int, cap: int)
    requires Alone(WindowsAfter(init, interval, cap), init, key, interval, cap)
    requires last.key == key && key !in Tracked(init, cap) && !(0 < cap <= |Tracked(init, cap)|)
    ensures TimesOf(init + [last], key) == [last.at] && LetThrough(init + [last], key, interval, cap) == [0]
  {
    assert (init + [last])[..|init|] == init;
    AppearsWhenTracked(init, cap, key);
    assert LetThrough(init, key, interval, cap) == [];
  }

  /** A key that appeared and is not tracked finds the map full. */
  lemma AppearsWhenTracked(trace: seq<Arrival>, cap: int, key: string)
    requires key !in Tracked(trace, cap) && !(0 < cap <= |Tracked(trace, cap)|)
    ensures TimesOf(trace, key) == []
  {
    TimesNeedAppearance(trace, key);
  }

  /** However many keys report in whatever order, a tracked key is let through, and its suppressions are
      counted, exactly as if its reports were the only ones; a key beyond the cap is always let through. */
  lemma {:induction false} EveryKeyIsAlone(trace: seq<Arrival>, key: string, interval: int, cap: int)
    ensures Alone(WindowsAfter(trace, interval, cap), trace, key, interval, cap)
  {
    if trace != [] {
      var init, last := trace[..|trace| - 1], trace[|trace| - 1];
      assert trace == init + [last];
      EveryKeyIsAlone(init, key, interval, cap);
      MapHoldsTracked(init, interval, cap);
      var m := WindowsAfter(init, interval, cap);
      if last.key != key {
        OtherKeyArrives(m, init, last, key, interval, cap);
      } else if key in Tracked(init, cap) {
        TrackedKeyArrives(m, init, last, key, interval, cap);
      } else if 0 < cap <= |m| {
        BeyondTheCap(m, init, last, key, interval, cap);
      } else {
        FirstOfAKey(m, init, last, key, interval, cap);
      }
    }
  }

  /** The reports for `key` alone. */
  function Only(trace: seq<Arrival>, key: string): seq<Arrival> {
    if trace == [] then []
    else Only(trace[..|trace| - 1], key) + if trace[|trace| - 1].key == key then [trace[|trace| - 1]] else []
  }

  lemma {:induction false} OnlyKeepsTimes(trace: seq<Arrival>, key: string)
    ensures TimesOf(Only(trace, key), key) == TimesOf(trace, key)
  {
    if trace != [] {
      var init, last := Only(trace[..|trace| - 1], key), trace[|trace| - 1];
      OnlyKeepsTimes(trace[..|trace| - 1], key);
      assert last.key == key ==> (init + [last])[..|init|] == init;
      assert init + [] == init;
    }
  }

  /** Without a cap, dropping every other key's reports changes neither which reports of `key` pass nor how
      many are counted as suppressed. */
  lemma KeysAreIndependent(trace: seq<Arrival>, key: string, interval: int)
    ensures LetThrough(Only(trace, key), key, interval, 0) == LetThrough(trace, key, interval, 0)
    ensures var m, m' := WindowsAfter(trace, interval, 0), WindowsAfter(Only(trace, key), interval, 0);
      if key in m then key in m' && m'[key] == m[key] else key !in m'
  {
    EveryKeyIsAlone(trace, key, interval, 0);
    EveryKeyIsAlone(Only(trace, key), key, interval, 0);
    OnlyKeepsTimes(trace, key);
    TimesNeedAppearance(trace, key);
    TimesNeedAppearance(Only(trace, key), key);
  }

  // ---------- how much gets through ----------

  /** Reports that pass come in order, each at least `interval` after the one before. */
  ghost predicate Spaced(times: seq<int>, passed: seq<nat>, interval: int) {
    && (forall i | 0 <= i < |passed| :: passed[i] < |times|)
    && (forall i | 0 < i < |passed| :: passed[i - 1] < passed[i] && times[passed[i]] - times[passed[i - 1]] >= interval)
  }

  lemma {:induction false} PassedAreSpaced(times: seq<int>, interval: int)
    ensures Spaced(times, Limited(times, interval), interval)
  {
    if times != [] {
      PassedAreSpaced(times[..|times| - 1], interval);
    }
  }

  /** Position `p` is the last to pass before `n`. */
  predicate LastBefore(passed: seq<nat>, p: nat, n: nat) {
    p in passed && p < n && forall q | q in passed :: q <= p || n <= q
  }

  /** Nothing is held back without need: a report that does not pass comes within `interval` of the last one
      that did. */
  lemma {:induction false} HeldBackIsTooSoon(times: seq<int>, interval: int, n: nat)
    requires n < |times| && n !in Limited(times, interval)
    ensures exists p: nat :: p < n && LastBefore(Limited(times, interval), p, n) && times[n] - times[p] < interval
  {
    var init := times[..|times| - 1];
    var before, passed := Limited(init, interval), Limited(times, interval);
    PassedAreSpaced(times, interval);
    if n < |times| - 1 {
      HeldBackIsTooSoon(init, interval, n);
      var p: nat :| p < n && LastBefore(before, p, n) && init[n] - init[p] < interval;
      assert LastBefore(passed, p, n);
    } else {
      Ascending(times, passed, interval);
      assert LastBefore(passed, passed[|passed| - 1], n);
    }
  }

  lemma {:induction false} Ascending(times: seq<int>, passed: seq<nat>, interval: int)
    requires Spaced(times, passed, interval)
    ensures forall i, j | 0 <= i < j < |passed| :: passed[i] < passed[j]
  {
    if passed != [] {
      var n := |passed| - 1;
      Ascending(times, passed[..n], interval);
      assert n > 0 ==> passed[n - 1] < passed[n];
    }
  }

  lemma {:induction false} SpreadOut(times: seq<int>, passed: seq<nat>, interval: int, i: nat, j: nat)
    requires Spaced(times, passed, interval) && i <= j < |passed|
    ensures times[passed[j]] - times[passed[i]] >= (j - i) * interval
  {
    if i < j {
      SpreadOut(times, passed, interval, i, j - 1);
      assert (j - i) * interval == (j - 1 - i) * interval + interval;
    }
  }

  /** Those of the reports that pass whose clock reading lies in `from .. from + span`. */
  function PassedWithin(times: seq<int>, interval: int, from: int, span: nat): set<nat> {
    var passed := Limited(times, interval);
    set i | 0 <= i < |passed| && from <= times[passed[i]] <= from + span
  }

  lemma {:induction false} FewIndices(s: set<nat>, lo: int, hi: int)
    requires lo <= hi + 1 && forall i | i in s :: lo <= i <= hi
    ensures |s| <= hi - lo + 1
    decreases hi + 1 - lo
  {
    if lo <= hi {
      FewIndices(s - {hi}, lo, hi - 1);
      assert s <= (s - {hi}) + {hi};
    } else {
      assert s == {};
    }
  }

  /** With a positive interval no span of length `span` sees more than `span / interval + 1` reports pass,
      wherever it starts and whatever the clock does. */
  lemma RateIsBounded(times: seq<int>, interval: int, from: int, span: nat)
    requires interval > 0
    ensures |PassedWithin(times, interval, from, span)| <= span / interval + 1
  {
    var q := span / interval;
    QuotientBound(0, span, interval);
    AtMostQuotient(times, interval, from, span, q);
  }

  lemma AtMostQuotient(times: seq<int>, interval: int, from: int, span: nat, q: int)
    requires interval > 0 && q == span / interval && 0 <= q
    ensures |PassedWithin(times, interval, from, span)| <= q + 1
  {
    var s, passed := PassedWithin(times, interval, from, span), Limited(times, interval);
    PassedAreSpaced(times, interval);
    var lo := FirstFrom(times, passed, from, 0);
    forall j | j in s ensures lo <= j <= lo + q {
      NotFarApart(times, passed, interval, span, q, lo, j);
    }
    FewIndices(s, lo, lo + q);
  }

  lemma NotFarApart(times: seq<int>, passed: seq<nat>, interval: int, span: nat, q: int, i: nat, j: nat)
    requires Spaced(times, passed, interval) && i <= j < |passed| && times[passed[j]] - times[passed[i]] <= span
    requires interval > 0 && q == span / interval
    ensures j <= i + q
  {
    SpreadOut(times, passed, interval, i, j);
    QuotientBound(j - i, span, interval);
  }

  function FirstFrom(times: seq<int>, passed: seq<nat>, from: int, k: nat): (lo: nat)
    requires k <= |passed| && forall i | 0 <= i < |passed| :: passed[i] < |times|
    ensures k <= lo <= |passed| && (lo < |passed| ==> times[passed[lo]] >= from)
    ensures forall i | k <= i < lo :: times[passed[i]] < from
    decreases |passed| - k
  {
    if k == |passed| || times[passed[k]] >= from then k else FirstFrom(times, passed, from, k + 1)
  }

  lemma QuotientBound(d: nat, span: nat, interval: int)
    requires interval > 0 && d * interval <= span
    ensures d <= span / interval
  {
    var q := span / interval;
    assert span < (q + 1) * interval;
    if d >= q + 1 {
      Scales(q + 1, d, interval);
    }
  }

  lemma Scales(a: int, b: int, c: int)
    requires a <= b && 0 <= c
    ensures a * c <= b * c
  {
    assert 0 <= (b - a) * c;
  }

  // ---------- what the suppression counters say ----------

  /** The non-zero suppression counts. */
  function Suppressed(m: Windows): map<string, int> {
    map k | k in m && m[k].suppressed > 0 :: m[k].suppressed
  }

  /** The counters recover the true volume: for every key, what passed and what is reported as suppressed
      add up to what was received, and a key is left out exactly when nothing of it was suppressed. */
  lemma NothingIsLost(trace: seq<Arrival>, key: string, interval: int, cap: int)
    ensures var counts := Suppressed(WindowsAfter(trace, interval, cap));
      var received, passed := |TimesOf(trace, key)|, |LetThrough(trace, key, interval, cap)|;
      && passed + (if key in counts then counts[key] else 0) == received
      && (key in counts <==> passed < received)
  {
    EveryKeyIsAlone(trace, key, interval, cap);
    PassedAtMostReceived(TimesOf(trace, key), interval);
  }

  lemma {:induction false} PassedAtMostReceived(times: seq<int>, interval: int)
    ensures |Limited(times, interval)| <= |times|
  {
    if times != [] {
      PassedAtMostReceived(times[..|times| - 1], interval);
    }
  }

  // ---------- the reporter ----------

  const MAX_UNSCOPED_TX_KEYS := 1024

  /** What a map is for. */
  datatype Purpose = Violations | Unscoped | UnscopedChecks | StaleAllows | Nested | Leaked

  function CapFor(p: Purpose): int {
    if p.Unscoped? then MAX_UNSCOPED_TX_KEYS else 0
  }

  lemma OneMore(trace: seq<Arrival>, a: Arrival, interval: int, cap: int)
    ensures WindowsAfter(trace + [a], interval, cap) == After(WindowsAfter(trace, interval, cap), a, interval, cap)
    ensures LetThrough(trace + [a], a.key, interval, cap) == LetThrough(trace, a.key, interval, cap)
            + if Admits(WindowsAfter(trace, interval, cap), a, interval) then [|TimesOf(trace, a.key)|] else []
  {
    assert (trace + [a])[..|trace|] == trace;
  }

  lemma UnseenIsUntracked(trace: seq<Arrival>, key: string, interval: int, cap: int)
    ensures (forall a | a in trace :: a.key != key) ==> key !in WindowsAfter(trace, interval, cap)
  {
    MapHoldsTracked(trace, interval, cap);
    assert key in Tracked(trace, cap) ==> key in DistinctKeys(trace);
  }

  function PurposeOf(x: Report): Purpose {
    match x
    case Violated(_) => Violations
    case Stale(_) => StaleAllows
    case UnscopedTx => Unscoped
    case UnscopedCheck(_) => UnscopedChecks
    case NestedScope(_, _) => Nested
    case LeakedTx(_, _) => Leaked
  }

  /** The reports of a history are all of one kind, and its arrivals have their keys. */
  predicate AllKeyed(from: seq<Report>, trace: seq<Arrival>, p: Purpose) {
    && |from| == |trace|
    && (from == [] ||
        var n := |from| - 1;
        && AllKeyed(from[..n], trace[..n], p) && PurposeOf(from[n]) == p
        && trace[n].key == ReportKey(from[n], trace[n].key))
  }

  lemma OneMoreKeyed(from: seq<Report>, trace: seq<Arrival>, x: Report, a: Arrival, p: Purpose)
    requires AllKeyed(from, trace, p) && PurposeOf(x) == p && a.key == ReportKey(x, a.key)
    ensures AllKeyed(from + [x], trace + [a], p)
  {
    assert (from + [x])[..|from|] == from && (trace + [a])[..|trace|] == trace;
  }

  lemma {:induction false} KeyedEach(from: seq<Report>, trace: seq<Arrival>, p: Purpose)
    requires AllKeyed(from, trace, p)
    ensures forall i | 0 <= i < |from| :: PurposeOf(from[i]) == p && trace[i].key == ReportKey(from[i], trace[i].key)
  {
    if from != [] {
      KeyedEach(from[..|from| - 1], trace[..|from| - 1], p);
    }
  }

  /** One of the reporter's maps, with the history of the reports it was asked about. */
  class WindowMap {
    const interval: int
    const purpose: Purpose
    var m: Windows
    ghost var trace: seq<Arrival>
    /** The reports of the history. */
    ghost var from: seq<Report>

    constructor (interval: int, purpose: Purpose)
      ensures Unused() && Serves(purpose, interval)
    {
      this.interval, this.purpose, m, trace, from := interval, purpose, map[], [], [];
    }

    ghost predicate Unused()
      reads this
    {
      m == map[] && trace == [] && from == []
    }

    lemma UnusedIsValid()
      requires Unused()
      ensures Valid()
    {
    }

    ghost predicate Serves(p: Purpose, interval: int) {
      purpose == p && this.interval == interval
    }

    /** Which of the reports for `key` have been let through. */
    ghost function Through(key: string): seq<nat>
      reads this
    {
      LetThrough(trace, key, interval, CapFor(purpose))
    }

    ghost predicate Valid()
      reads this
    {
      m == WindowsAfter(trace, interval, CapFor(purpose)) && AllKeyed(from, trace, purpose)
    }

    ghost predicate Ready(p: Purpose, interval: int)
      reads this
    {
      Serves(p, interval) && Valid()
    }

    /** The map of call sites never tracks more than 1024; the others track every key they were asked about. */
    lemma Bounded()
      requires Valid()
      ensures purpose.Unscoped? ==> |m| <= 1024
      ensures !purpose.Unscoped? ==> forall a | a in trace :: a.key in m
    {
      MapHoldsTracked(trace, interval, CapFor(purpose));
    }

    /** Whether a report is let through now; the first under its key always is. */
    method Admit(key: string, maxKeys: int, now: int, ghost x: Report) returns (ok: bool)
      requires Valid() && maxKeys == CapFor(purpose) && PurposeOf(x) == purpose && key == ReportKey(x, key)
      modifies this
      ensures Valid() && trace == old(trace) + [Arrival(key, now)] && from == old(from) + [x]
      ensures (forall a | a in old(trace) :: a.key != key) ==> ok
      ensures Through(key) == old(Through(key)) + if ok then [|TimesOf(old(trace), key)|] else []
    {
      ghost var a := Arrival(key, now);
      OneMore(trace, a, interval, CapFor(purpose));
      UnseenIsUntracked(trace, key, interval, CapFor(purpose));
      OneMoreKeyed(from, trace, x, a, purpose);
      trace, from := trace + [a], from + [x];
      if key !in m {
        if maxKeys > 0 && |m| >= maxKeys {
          return true;
        }
        m := m[key := Window(now, 0)];
        return true;
      }
      if now - m[key].last >= interval {
        m := m[key := m[key].(last := now)];
        return true;
      }
      m := m[key := m[key].(suppressed := m[key].suppressed + 1)];
      return false;
    }

    method Snapshot() returns (out: map<string, int>)
      ensures out == Suppressed(m)
    {
      out := map[];
      var rest := m.Keys;
      while rest != {}
        invariant rest <= m.Keys
        invariant out == map k | k in m && k !in rest && m[k].suppressed > 0 :: m[k].suppressed
        decreases rest
      {
        var k :| k in rest;
        rest := rest - {k};
        if m[k].suppressed > 0 {
          out := out[k := m[k].suppressed];
        }
      }
    }
  }

  /** No report before was about the same: none with the same subject, or for an unscoped transaction none from
      the same call site. */
  ghost predicate FirstOfItsSubject(x: Report, site: string, from: seq<Report>, trace: seq<Arrival>) {
    && NulFreeReport(x)
    && (!x.UnscopedTx? ==> forall y | y in from :: !SameSubject(x, y))
    && (x.UnscopedTx? ==> forall a | a in trace :: a.key != site)
  }

  lemma FirstHasNewKey(x: Report, site: string, from: seq<Report>, trace: seq<Arrival>)
    requires AllKeyed(from, trace, PurposeOf(x)) && FirstOfItsSubject(x, site, from, trace)
    ensures forall a | a in trace :: a.key != ReportKey(x, site)
  {
    KeyedEach(from, trace, PurposeOf(x));
    forall a | a in trace ensures a.key != ReportKey(x, site) {
      var i :| 0 <= i < |trace| && trace[i] == a;
      assert from[i] in from && SameKind(x, from[i]);
      KeysTellApart(x, from[i], site, a.key);
    }
  }

  class ThrottlingReporter {
    /** What the wrapped reporter takes, and what it has received. */
    const next: Reporter
    var forwarded: seq<Report>
    const interval: int
    const violations: WindowMap
    const unscoped: WindowMap
    const unscopedChecks: WindowMap
    const staleAllows: WindowMap
    const nested: WindowMap
    const leaked: WindowMap

    constructor (next: Reporter, interval: int)
      ensures Valid() && forwarded == [] && this.next == next && this.interval == interval
      ensures fresh(violations) && fresh(unscoped) && fresh(unscopedChecks)
      ensures fresh(staleAllows) && fresh(nested) && fresh(leaked) && AllUnused()
    {
      this.next, this.interval, forwarded := next, interval, [];
      violations := new WindowMap(interval, Violations);
      unscoped := new WindowMap(interval, Unscoped);
      unscopedChecks := new WindowMap(interval, UnscopedChecks);
      staleAllows := new WindowMap(interval, StaleAllows);
      nested := new WindowMap(interval, Nested);
      leaked := new WindowMap(interval, Leaked);
      new;
      UnusedAreReady();
    }

    ghost predicate AllUnused()
      reads violations, unscoped, unscopedChecks, staleAllows, nested, leaked
    {
      && violations.Unused() && unscoped.Unused() && unscopedChecks.Unused()
      && staleAllows.Unused() && nested.Unused() && leaked.Unused()
    }

    lemma UnusedAreReady()
      requires violations.Serves(Violations, interval) && unscoped.Serves(Unscoped, interval)
      requires unscopedChecks.Serves(UnscopedChecks, interval) && staleAllows.Serves(StaleAllows, interval)
      requires nested.Serves(Nested, interval) && leaked.Serves(Leaked, interval)
      requires AllUnused()
      ensures Valid()
    {
      violations.UnusedIsValid();
      unscoped.UnusedIsValid();
      unscopedChecks.UnusedIsValid();
      staleAllows.UnusedIsValid();
      nested.UnusedIsValid();
      leaked.UnusedIsValid();
    }

    /** Each map has its own purpose, so the six are six different objects. */
    ghost predicate Valid()
      reads violations, unscoped, unscopedChecks, staleAllows, nested, leaked
    {
      && violations.Ready(Violations, interval) && unscoped.Ready(Unscoped, interval)
      && unscopedChecks.Ready(UnscopedChecks, interval) && staleAllows.Ready(StaleAllows, interval)
      && nested.Ready(Nested, interval) && leaked.Ready(Leaked, interval)
    }

    function MapOf(p: Purpose): WindowMap {
      match p
      case Violations => violations
      case Unscoped => unscoped
      case UnscopedChecks => unscopedChecks
      case StaleAllows => staleAllows
      case Nested => nested
      case Leaked => leaked
    }

    function MapFor(x: Report): WindowMap {
      MapOf(PurposeOf(x))
    }

    /** One report. A report the wrapped reporter does not take leaves no trace; without a positive interval
        everything is forwarded and nothing is tracked; otherwise the report's own map decides, and the
        other five stay as they are. */
    method Receive(x: Report, site: string, now: int)
      requires Valid()
      modifies this`forwarded, MapFor(x)
      ensures Valid()
      ensures !Accepts(next, x) ==> forwarded == old(forwarded) && unchanged(MapFor(x))
      ensures Accepts(next, x) && interval <= 0 ==> forwarded == old(forwarded) + [x] && unchanged(MapFor(x))
      ensures Accepts(next, x) && interval > 0 ==> Decided(x, ReportKey(x, site), now)
      ensures Accepts(next, x) && FirstOfItsSubject(x, site, old(MapFor(x).from), old(MapFor(x).trace)) ==>
        forwarded == old(forwarded) + [x]
      ensures OnlyItsMapChanged(x)
    {
      if !Accepts(next, x) {
        return;
      }
      if interval <= 0 {
        forwarded := forwarded + [x];
        return;
      }
      AskAndForward(x, ReportKey(x, site), now);
      if old(FirstOfItsSubject(x, site, MapFor(x).from, MapFor(x).trace)) {
        FirstHasNewKey(x, site, old(MapFor(x).from), old(MapFor(x).trace));
      }
    }

    method AskAndForward(x: Report, key: string, now: int)
      requires Valid() && key == ReportKey(x, key)
      modifies this`forwarded, MapFor(x)
      ensures Valid() && Decided(x, key, now)
      ensures (forall a | a in old(MapFor(x).trace) :: a.key != key) ==> forwarded == old(forwarded) + [x]
    {
      Nothing(MapFor(x).Through(key));
      var ok := Ask(x, key, now);
      if ok {
        forwarded := forwarded + [x];
      }
    }

    /** The report's map took it into its history and let it through, or held it back. */
    twostate predicate Decided(x: Report, key: string, now: int)
      reads this`forwarded, MapFor(x)
    {
      var w := MapFor(x);
      && w.trace == old(w.trace) + [Arrival(key, now)]
      && (|| (&& forwarded == old(forwarded) + [x]
              && w.Through(key) == old(w.Through(key)) + [|TimesOf(old(w.trace), key)|])
          || (forwarded == old(forwarded) && w.Through(key) == old(w.Through(key))))
    }

    twostate predicate OnlyItsMapChanged(x: Report)
      reads violations, unscoped, unscopedChecks, staleAllows, nested, leaked
    {
      && (!x.Violated? ==> unchanged(violations))
      && (!x.Stale? ==> unchanged(staleAllows))
      && (!x.UnscopedTx? ==> unchanged(unscoped))
      && (!x.UnscopedCheck? ==> unchanged(unscopedChecks))
      && (!x.NestedScope? ==> unchanged(nested))
      && (!x.LeakedTx? ==> unchanged(leaked))
    }

    method Ask(x: Report, key: string, now: int) returns (ok: bool)
      requires Valid() && key == ReportKey(x, key)
      modifies MapFor(x)
      ensures Valid()
      ensures (forall a | a in old(MapFor(x).trace) :: a.key != key) ==> ok
      ensures MapFor(x).trace == old(MapFor(x).trace) + [Arrival(key, now)]
      ensures MapFor(x).Through(key) ==
              old(MapFor(x).Through(key)) + if ok then [|TimesOf(old(MapFor(x).trace), key)|] else []
    {
      var w := MapFor(x);
      ok := w.Admit(key, if x.UnscopedTx? then MAX_UNSCOPED_TX_KEYS else 0, now, x);
    }

    /** A `Suppressed…` call: for every key, what was suppressed of the reports received under it. */
    method SuppressedIn(p: Purpose) returns (out: map<string, int>)
      requires Valid()
      ensures var w := MapOf(p);
        forall key :: |w.Through(key)| + (if key in out then out[key] else 0) == |TimesOf(w.trace, key)|
    {
      var w := MapOf(p);
      out := w.Snapshot();
      forall key ensures |w.Through(key)| + (if key in out then out[key] else 0) == |TimesOf(w.trace, key)| {
        NothingIsLost(w.trace, key, w.interval, CapFor(w.purpose));
      }
    }
  }
}

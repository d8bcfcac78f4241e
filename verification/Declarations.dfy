/** Which exact-call declaration an account ends up with: the last one consulted. */
module Declarations {
  import opened Types
  import opened Governance
  import opened Executions

  function IfCounted(d: Option<Decl>): seq<Decl> {
    if d.Some? && d.value.counts != [] then [d.value] else []
  }

  /** The counted declarations an event consults for `key`, in order: its option always, the Allowlist's
      entry when neither the option nor the region covers. */
  function ConsultedBy(scope: string, r: Run, e: Event, key: ViolationKey): seq<Decl>
    requires r.Admits(e)
  {
    var who := r.OutcomeOf(scope, e);
    if KeyOf(scope, e.op) != key then []
    else IfCounted(e.option) + if who.ByOption? || who.ByRegion? then [] else IfCounted(EntryDecl(r.entries, key))
  }

  function Consultations(scope: string, r: Run, es: seq<Event>, key: ViolationKey): seq<Decl>
    requires AllAdmitted(r, es)
  {
    if es == [] then []
    else
      var init, e := es[..|es| - 1], es[|es| - 1];
      assert e in es;
      Consultations(scope, r, init, key) + ConsultedBy(scope, Execute(scope, r, init), e, key)
  }

  predicate Remembers(calls: Calls, key: ViolationKey, ds: seq<Decl>) {
    if ds == [] then key in calls ==> calls[key].declared == [] && calls[key].reason == ""
    else
      var last := ds[|ds| - 1];
      key in calls && calls[key].declared == last.counts && calls[key].reason == last.reason
  }

  lemma NotedRemembers(calls: Calls, key: ViolationKey, d: Option<Decl>, ds: seq<Decl>)
    requires key in calls && Remembers(calls, key, ds)
    ensures Remembers(NotedIf(calls, key, d), key, ds + IfCounted(d)) && key in NotedIf(calls, key, d)
  {
    assert ds + [] == ds;
  }

  lemma OwnEventRemembers(calls: Calls, key: ViolationKey, option: Option<Decl>, asked: Option<Decl>, ds: seq<Decl>)
    requires Remembers(calls, key, ds)
    ensures Remembers(CallsAfter(calls, key, option, asked), key, ds + (IfCounted(option) + IfCounted(asked)))
  {
    NotedRemembers(Bumped(calls, key), key, option, ds);
    NotedRemembers(NotedIf(Bumped(calls, key), key, option), key, asked, ds + IfCounted(option));
    assert ds + IfCounted(option) + IfCounted(asked) == ds + (IfCounted(option) + IfCounted(asked));
  }

  lemma EventRemembers(scope: string, r: Run, e: Event, key: ViolationKey, ds: seq<Decl>)
    requires r.Admits(e) && Remembers(r.calls, key, ds)
    ensures Remembers(r.After(scope, e).calls, key, ds + ConsultedBy(scope, r, e, key))
  {
    var who := r.OutcomeOf(scope, e);
    var asked := if who.ByEntry? || who.Uncovered? then EntryDecl(r.entries, KeyOf(scope, e.op)) else None;
    if KeyOf(scope, e.op) == key {
      OwnEventRemembers(r.calls, key, e.option, asked, ds);
    } else {
      EveryEventIsCountedOnce(r.For(e), KeyOf(scope, e.op), e.option, r.RegionDecl(e));
      assert ds + [] == ds;
    }
  }

  /** Over any run an account holds the counted declaration its events consulted last, and none when they
      consulted none. */
  lemma {:induction false} LastDeclarationWins(scope: string, r: Run, es: seq<Event>, key: ViolationKey)
    requires r.calls == map[] && AllAdmitted(r, es)
    ensures Remembers(Execute(scope, r, es).calls, key, Consultations(scope, r, es, key))
  {
    if es != [] {
      var init, e := es[..|es| - 1], es[|es| - 1];
      LastDeclarationWins(scope, r, init, key);
      assert e in es;
      EventRemembers(scope, Execute(scope, r, init), e, key, Consultations(scope, r, init, key));
    }
  }
}

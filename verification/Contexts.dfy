/** Which scope and which exemption region a context resolves to. `S` and `M` identify scopes and regions. */
module Contexts {
  import opened Types

  datatype Context<+S, +M> =
    | Background
    | Derived(parent: Context<S, M>)
    | ScopeContext(parent: Context<S, M>, scope: S)
    | RegionContext(parent: Context<S, M>, scope: S, mark: M)

  datatype Resolved<+S, +M> = Unscoped | Scoped(scope: S, mark: Option<M>)

  /** The nearest value installed under the scope key, whichever of the two forms it has. */
  function Resolve<S, M>(c: Context<S, M>): Resolved<S, M> {
    match c
    case Background => Unscoped
    case Derived(p) => Resolve(p)
    case ScopeContext(_, s) => Scoped(s, None)
    case RegionContext(_, s, m) => Scoped(s, Some(m))
  }

  /** `AllowInTransactionHere`: a region over the resolved scope, nothing without one. */
  function AllowHere<S, M>(c: Context<S, M>, m: M): Context<S, M> {
    match Resolve(c)
    case Unscoped => c
    case Scoped(s, _) => RegionContext(c, s, m)
  }

  /** The ways a program derives one context from another. */
  datatype Derivation<+S, +M> = WithValue | StartScope(scope: S) | Allow(mark: M)

  function Derive<S, M>(ds: seq<Derivation<S, M>>): Context<S, M> {
    if ds == [] then Background
    else
      var c := Derive(ds[..|ds| - 1]);
      match ds[|ds| - 1]
      case WithValue => Derived(c)
      case StartScope(s) => ScopeContext(c, s)
      case Allow(m) => AllowHere(c, m)
  }

  /** `ds[i]` starts the innermost scope. */
  predicate InnermostScope<S, M>(ds: seq<Derivation<S, M>>, i: int) {
    0 <= i < |ds| && ds[i].StartScope? && forall j | i < j < |ds| :: !ds[j].StartScope?
  }

  /** `ds[j]` is the innermost region opened since `ds[i]`. */
  predicate InnermostRegion<S, M>(ds: seq<Derivation<S, M>>, i: int, j: int) {
    0 <= i < j < |ds| && ds[j].Allow? && forall k | j < k < |ds| :: !ds[k].Allow?
  }

  /** Without a scope a context resolves to nothing, however many regions were asked for. */
  lemma {:induction false} NoScopeNoRegion<S, M>(ds: seq<Derivation<S, M>>)
    requires forall i | 0 <= i < |ds| :: !ds[i].StartScope?
    ensures Resolve(Derive(ds)) == Unscoped
  {
    if ds != [] {
      NoScopeNoRegion(ds[..|ds| - 1]);
    }
  }

  /** Otherwise a context resolves to the innermost scope started, whatever regions were opened in between,
      and to the innermost region opened since, or to none; regions opened before that scope was started
      are gone. */
  lemma {:induction false} InnermostWins<S, M>(ds: seq<Derivation<S, M>>, i: int)
    requires InnermostScope(ds, i)
    ensures Resolve(Derive(ds)).Scoped? && Resolve(Derive(ds)).scope == ds[i].scope
    ensures (forall j | i < j < |ds| :: !ds[j].Allow?) ==> Resolve(Derive(ds)).mark == None
    ensures forall j :: InnermostRegion(ds, i, j) ==> Resolve(Derive(ds)).mark == Some(ds[j].mark)
  {
    var n := |ds| - 1;
    if i < n {
      var init := ds[..n];
      InnermostWins(init, i);
      forall j ensures InnermostRegion(ds, i, j) <==> if ds[n].Allow? then j == n else InnermostRegion(init, i, j) {
        RegionStep(ds, i, j);
      }
    }
  }

  lemma RegionStep<S, M>(ds: seq<Derivation<S, M>>, i: int, j: int)
    requires 0 <= i < |ds| - 1
    ensures InnermostRegion(ds, i, j) <==>
            if ds[|ds| - 1].Allow? then j == |ds| - 1 else InnermostRegion(ds[..|ds| - 1], i, j)
  {
  }
}

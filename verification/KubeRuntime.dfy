/**
 internal/kubeclient/runtime.go: the rate of the business client follows the configuration,
 worker counts stay as they were at startup. Rates are reals; NaN and the infinities are
 refused by the parser and cannot be written here.
 */
module KubeRuntime {
  import opened Wrappers
  import opened ConfigTypes
  import opened RuntimeLimits

  datatype Settings = Settings(qps: real, burst: int, namespaceWorkers: int, serviceAccountWorkers: int)

  predicate ValidSettings(s: Settings) {
    ValidQPS(s.qps) && s.burst >= 1 && s.namespaceWorkers >= 1 && s.serviceAccountWorkers >= 1
  }

  function Or<T(==)>(override: T, absent: T, fallback: T): T {
    if override != absent then override else fallback
  }

  function Overridden(s: Settings, o: RuntimeConfiguration): Settings {
    Settings(Or(o.qps, 0.0, s.qps), Or(o.burst, 0, s.burst),
             Or(o.workers, 0, s.namespaceWorkers), Or(o.workers, 0, s.serviceAccountWorkers))
  }

  /** The settings a configuration asks for, if they are valid. */
  function Resolved(s: Settings, o: RuntimeConfiguration): Option<Settings> {
    if ValidSettings(Overridden(s, o)) then Some(Overridden(s, o)) else None
  }

  /**
   On a valid fallback exactly the configurations the parser lets through are resolved: their
   present overrides take effect, and nothing else changes.
   */
  lemma ResolvedExactly(s: Settings, o: RuntimeConfiguration)
    requires ValidSettings(s)
    ensures Resolved(s, o).Some? <==> ValidOverrides(o)
    ensures Resolved(s, o).Some? ==>
              var r := Resolved(s, o).value;
              && ValidSettings(r)
              && r.qps == (if o.qps == 0.0 then s.qps else o.qps) && r.burst == (if o.burst == 0 then s.burst else o.burst)
              && (o.workers == 0 ==> r.namespaceWorkers == s.namespaceWorkers && r.serviceAccountWorkers == s.serviceAccountWorkers)
              && (o.workers != 0 ==> r.namespaceWorkers == r.serviceAccountWorkers == o.workers)
  {
  }

  /** Without overrides exactly these settings are resolved, and they stay as they are. */
  lemma FallbackExactly(s: Settings)
    ensures Resolved(s, NoOverrides) ==
            if RoundsToZero < s.qps <= MaxFloat32 && s.burst >= 1 && s.namespaceWorkers >= 1 && s.serviceAccountWorkers >= 1
            then Some(s) else None
  {
  }

  /** `resolve`. */
  method Resolve(s: Settings, o: RuntimeConfiguration) returns (r: Option<Settings>)
    ensures r == Resolved(s, o)
  {
    var settings := s;
    if o.qps != 0.0 {
      settings := settings.(qps := o.qps);
    }
    if o.burst != 0 {
      settings := settings.(burst := o.burst);
    }
    if o.workers != 0 {
      settings := settings.(namespaceWorkers := o.workers, serviceAccountWorkers := o.workers);
    }
    if !ValidQPS(settings.qps) {
      return None;
    }
    if settings.burst < 1 || settings.namespaceWorkers < 1 || settings.serviceAccountWorkers < 1 {
      return None;
    }
    r := Some(settings);
  }

  /** The state of the runtime as a value. */
  datatype Tuning = Tuning(fallback: Settings, current: Settings, desired: Settings)

  /** The rate in force is the one asked for; only worker counts may lag behind. */
  predicate Tuned(t: Tuning) {
    && ValidSettings(t.fallback) && ValidSettings(t.current) && ValidSettings(t.desired)
    && t.current.qps == t.desired.qps && t.current.burst == t.desired.burst
  }

  function Retuned(t: Tuning, o: RuntimeConfiguration): Option<Tuning> {
    match Resolved(t.fallback, o)
    case None => None
    case Some(next) => Some(t.(current := t.current.(qps := next.qps, burst := next.burst), desired := next))
  }

  class Runtime {
    const fallback: Settings
    var current: Settings
    var desired: Settings
    var limiter: (real, int)

    ghost predicate Valid()
      reads this
    {
      Tuned(State()) && limiter == (current.qps, current.burst)
    }

    ghost function State(): Tuning
      reads this
    {
      Tuning(fallback, current, desired)
    }

    constructor (fallback: Settings, resolved: Settings)
      requires ValidSettings(fallback) && ValidSettings(resolved)
      ensures Valid() && State() == Tuning(fallback, resolved, resolved)
    {
      this.fallback := fallback;
      current, desired := resolved, resolved;
      limiter := (resolved.qps, resolved.burst);
    }

    /** Starts with the initial configuration, or refuses an invalid one or an invalid fallback. */
    static method NewRuntime(fallback: Settings, initial: RuntimeConfiguration) returns (r: Runtime?)
      ensures r == null <==> !ValidSettings(fallback) || Resolved(fallback, initial).None?
      ensures r != null ==> fresh(r) && r.Valid()
      ensures r != null ==> var s := Resolved(fallback, initial).value; r.State() == Tuning(fallback, s, s)
    {
      var checked := Resolve(fallback, NoOverrides);
      if checked.None? {
        return null;
      }
      var resolved := Resolve(fallback, initial);
      if resolved.None? {
        return null;
      }
      r := new Runtime(fallback, resolved.value);
    }

    /** Only the rate changes in place; an invalid configuration changes nothing. */
    method Apply(overrides: RuntimeConfiguration) returns (ok: bool)
      requires Valid()
      modifies this
      ensures Valid()
      ensures ok <==> Retuned(old(State()), overrides).Some?
      ensures State() == Retuned(old(State()), overrides).GetOr(old(State()))
    {
      var next := Resolve(fallback, overrides);
      if next.None? {
        return false;
      }
      if next.value.qps != current.qps || next.value.burst != current.burst {
        limiter := (next.value.qps, next.value.burst);
        current := current.(qps := next.value.qps, burst := next.value.burst);
      }
      desired := next.value;
      ok := true;
    }
  }
}

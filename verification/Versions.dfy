/**
 The API server as far as one named object goes: versioned writes, and every version that was
 ever live, so that a cache may serve any of them. `version` reads the resource version off an
 object.
 */
module Versions {
  import opened Wrappers

  datatype Server<T> = Server(live: Option<T>, past: seq<Option<T>>, nextVersion: nat)

  /** A cached read: what is live or once was. */
  predicate Readable<T(==)>(s: Server<T>, observed: Option<T>) {
    observed == s.live || observed in s.past
  }

  /** The server after `next`, with a version never seen before, has become live, or nothing has. */
  function Replaced<T>(s: Server<T>, next: Option<T>): Server<T> {
    Server(next, s.past + [s.live], s.nextVersion + 1)
  }

  predicate Older<T>(o: Option<T>, v: nat, version: T -> nat) {
    o.Some? ==> version(o.value) < v
  }

  predicate SameVersion<T>(o: Option<T>, p: Option<T>, version: T -> nat) {
    o.Some? && p.Some? && version(o.value) == version(p.value)
  }

  /** A resource version names one version of the object. */
  ghost predicate Consistent<T(!new)>(s: Server<T>, version: T -> nat) {
    && Older(s.live, s.nextVersion, version)
    && (forall o :: o in s.past ==> Older(o, s.nextVersion, version))
    && (forall o, p | Readable(s, o) && Readable(s, p) && SameVersion(o, p, version) :: o == p)
  }

  lemma ReplacingKeepsConsistent<T(!new)>(s: Server<T>, next: Option<T>, version: T -> nat)
    requires Consistent(s, version) && (next.Some? ==> version(next.value) == s.nextVersion)
    ensures Consistent(Replaced(s, next), version)
    ensures forall o :: Readable(s, o) ==> Readable(Replaced(s, next), o)
  {
    var t := Replaced(s, next);
    forall o | Readable(t, o) ensures o == t.live || Readable(s, o) {
    }
    forall o | Readable(s, o) ensures Readable(t, o) && Older(o, s.nextVersion, version) {
      assert t.past[|s.past|] == s.live;
    }
  }

  /** A single object, or none, is consistent. */
  lemma StartIsConsistent<T(!new)>(live: Option<T>, version: T -> nat)
    ensures Consistent(Server(live, [], if live.Some? then version(live.value) + 1 else 0), version)
  {
  }
}

/**
 internal/credential/store.go: the current credential of every registry.
 */
module CredentialStore {
  import opened Wrappers
  import opened ConfigTypes
  import opened CredentialTypes

  class Store {
    var current: map<RegistryKey, Entry>
    var nextRevision: nat

    constructor ()
      ensures current == map[] && nextRevision == 0
    {
      current := map[];
      nextRevision := 0;
    }

    /** Replaces one registry's credential under a revision never used before. */
    method Apply(registry: RegistryConfig, value: Credential) returns (entry: Entry)
      modifies this
      ensures nextRevision == old(nextRevision) + 1
      ensures entry == Entry(value, nextRevision, RegistryAuthenticationHash(registry))
      ensures current == old(current)[registry.Key() := entry]
      ensures entry.MatchesRegistry(registry)
    {
      nextRevision := nextRevision + 1;
      entry := Entry(value, nextRevision, RegistryAuthenticationHash(registry));
      current := current[registry.Key() := entry];
    }

    method Load(key: RegistryKey) returns (entry: Option<Entry>)
      ensures entry == Find(current, key)
    {
      entry := if key in current then Some(current[key]) else None;
    }

    method Delete(key: RegistryKey) returns (found: bool)
      modifies this`current
      ensures found == (key in old(current))
      ensures current == old(current) - {key}
    {
      found := key in current;
      if found {
        current := current - {key};
      }
    }

    /** An independent copy, made entry by entry in whatever order the map yields. */
    method Snapshot() returns (snapshot: map<RegistryKey, Entry>)
      ensures snapshot == current
    {
      snapshot := map[];
      var left := current.Keys;
      while left != {}
        invariant left <= current.Keys
        invariant snapshot == map k | k in current && k !in left :: current[k]
        decreases left
      {
        var k :| k in left;
        snapshot := snapshot[k := current[k]];
        left := left - {k};
      }
    }
  }

  /** A credential stands for a registry exactly if identity and AK/SK are those it was applied with. */
  lemma MatchesIdentityAndKeys(registry: RegistryConfig, other: RegistryConfig, value: Credential, revision: nat)
    ensures Entry(value, revision, RegistryAuthenticationHash(registry)).MatchesRegistry(other) <==>
            registry.Key() == other.Key() && SameAuthentication(registry, other)
  {
  }
}

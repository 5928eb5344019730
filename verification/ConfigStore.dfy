/**
 internal/config/store.go: the last valid configuration snapshot and its generation.
 */
module ConfigStore {
  import opened Wrappers
  import opened ConfigTypes

  datatype ApplyResult = ApplyResult(current: ConfigurationSnapshot, changed: bool, businessChanged: bool)

  /** What `Apply` leaves in the store: an equivalent candidate keeps the old snapshot and generation. */
  function Installed(current: Option<ConfigurationSnapshot>, candidate: ConfigurationSnapshot): ConfigurationSnapshot {
    match current
    case None => candidate.(generation := 1)
    case Some(s) => if s.Equal(candidate) then s else candidate.(generation := s.generation + 1)
  }

  predicate Changes(current: Option<ConfigurationSnapshot>, candidate: ConfigurationSnapshot) {
    current.None? || !current.value.Equal(candidate)
  }

  predicate BusinessChanges(current: Option<ConfigurationSnapshot>, candidate: ConfigurationSnapshot) {
    current.None? || !current.value.BusinessEqual(candidate)
  }

  class Store {
    var current: Option<ConfigurationSnapshot>
    var valid: bool

    constructor ()
      ensures current.None? && !valid
    {
      current := None;
      valid := false;
    }

    method Apply(candidate: ConfigurationSnapshot) returns (result: ApplyResult)
      modifies this
      ensures valid && current == Some(Installed(old(current), candidate))
      ensures result == ApplyResult(current.value, Changes(old(current), candidate), BusinessChanges(old(current), candidate))
      ensures current.value.Equal(candidate)
    {
      valid := true;
      if current.Some? && current.value.Equal(candidate) {
        return ApplyResult(current.value, false, false);
      }
      var businessChanged := current.None? || !current.value.BusinessEqual(candidate);
      var generation := if current.Some? then current.value.generation + 1 else 1;
      current := Some(candidate.(generation := generation));
      result := ApplyResult(current.value, true, businessChanged);
    }

    method MarkInvalid()
      modifies this`valid
      ensures !valid
    {
      valid := false;
    }

    /** Readers get the snapshot, or learn that none was ever applied. */
    method Load() returns (snapshot: Option<ConfigurationSnapshot>)
      ensures snapshot == current
    {
      snapshot := current;
    }

    /** The registries in force. */
    function Registries(): Option<Registries>
      reads this
    {
      if current.Some? then Some(current.value.registries) else None
    }
  }
}

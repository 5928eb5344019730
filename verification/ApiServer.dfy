/**
 The API server as far as one named Secret goes: creation, and updates and deletions with the
 preconditions of the client.
 */
module ApiServer {
  import opened Wrappers
  import opened SecretTypes
  import opened Versions

  type SecretServer = Server<Secret>

  datatype Request =
    | Create(desired: Secret)
    | Update(desired: Secret)
    | Delete(uid: nat, resourceVersion: nat)

  function VersionOf(): Secret -> nat {
    (s: Secret) => s.resourceVersion
  }

  /** Whether the preconditions of a request hold. */
  predicate Accepts(s: SecretServer, r: Request) {
    match r
    case Create(_) => s.live.None?
    case Update(desired) =>
      s.live.Some? && s.live.value.uid == desired.uid && s.live.value.resourceVersion == desired.resourceVersion
    case Delete(uid, resourceVersion) =>
      s.live.Some? && s.live.value.uid == uid && s.live.value.resourceVersion == resourceVersion
  }

  /** An object as the server stores it: with the next version, and with its identity or a new one. */
  function Stamped(s: SecretServer, secret: Option<Secret>): Option<Secret> {
    if secret.None? then None
    else Some(secret.value.(resourceVersion := s.nextVersion, uid := if s.live.Some? then s.live.value.uid else s.nextVersion))
  }

  function Written(s: SecretServer, secret: Option<Secret>): SecretServer {
    Replaced(s, Stamped(s, secret))
  }

  /** A request whose preconditions fail is rejected and changes nothing. */
  function Handle(s: SecretServer, r: Request): SecretServer {
    if !Accepts(s, r) then s
    else
      match r
      case Create(desired) => Written(s, Some(desired))
      case Update(desired) => Written(s, Some(desired))
      case Delete(_, _) => Written(s, None)
  }

  class Api {
    var state: SecretServer

    constructor (state: SecretServer)
      ensures this.state == state
    {
      this.state := state;
    }

    /** Sends a request; a failed precondition is reported and leaves the object alone. */
    method Send(r: Request) returns (ok: bool)
      modifies this
      ensures ok == Accepts(old(state), r) && state == Handle(old(state), r)
    {
      ok := Accepts(state, r);
      state := Handle(state, r);
    }
  }
}

/**
 The credential entities of internal/credential/types.go. The SHA-256 of the JSON form of
 a registry's identity and AK/SK is the injective constructor `HashOf`; `NoHash` is the
 empty string an entry never built by the store would carry.
 */
module CredentialTypes {
  import opened ConfigTypes

  /** Nanoseconds; `ZeroTime` is the zero `time.Time`. */
  type Time = int

  const ZeroTime: Time := 0

  datatype Token = Token(username: string, password: string, expiresAt: Time)

  datatype Credential = Credential(username: string, password: string, refreshedAt: Time, expiresAt: Time)

  datatype AuthenticationHash =
    | NoHash
    | HashOf(regionID: string, instanceID: string, accessKeyID: string, accessKeySecret: string)

  /** `registryAuthenticationHash`: domains do not take part. */
  function RegistryAuthenticationHash(registry: RegistryConfig): AuthenticationHash {
    HashOf(registry.regionID, registry.instanceID, registry.accessKeyID, registry.accessKeySecret)
  }

  datatype Entry = Entry(credential: Credential, revision: nat, authenticationHash: AuthenticationHash) {
    predicate MatchesRegistry(registry: RegistryConfig) {
      authenticationHash != NoHash && authenticationHash == RegistryAuthenticationHash(registry)
    }
  }

  /** `validateToken`: a usable token outlives the refresh window. */
  predicate ValidToken(token: Token, now: Time, refreshBefore: Time) {
    && token.username != ""
    && token.password != ""
    && token.expiresAt > now + refreshBefore
  }
}

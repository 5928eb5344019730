/**
 The managed Secret and its two documents. JSON, SHA-256 and base64 are injective
 constructors: a text is either the canonical encoding of a document or some other byte
 string together with what the decoder makes of it; records are decoded one by one and may
 each be malformed.
 */
module SecretTypes {
  import opened Wrappers
  import opened CredentialTypes

  datatype Text<D> = Canonical(document: D) | Other(bytes: string, decoded: Option<D>)

  function Decode<D>(t: Text<D>): Option<D> {
    match t
    case Canonical(d) => Some(d)
    case Other(_, decoded) => decoded
  }

  datatype Record<T> = Malformed | Good(value: T)

  /** The records that decode. */
  function GoodRecords<T>(m: map<string, Record<T>>): map<string, T> {
    map d | d in m && m[d].Good? :: m[d].value
  }

  function Records<T>(m: map<string, T>): map<string, Record<T>> {
    map d | d in m :: Good(m[d])
  }

  /** Base64 of a text, or a field that is not the base64 of anything the program encodes. */
  datatype AuthField = Base64(plain: string) | Unencoded(text: string)

  function EncodedAuth(username: string, password: string): AuthField {
    Base64(username + ":" + password)
  }

  datatype DockerAuth = DockerAuth(username: string, password: string, auth: AuthField)

  datatype StateHash =
    | EmptyHash
    | Sha256(regionID: string, instanceID: string, accessKeyID: string, accessKeySecret: string, domains: seq<string>,
             username: string, password: string, refreshedAt: Time, expiresAt: Time)
    | ForeignHash(text: string)

  datatype RegistryState = RegistryState(refreshedAt: Time, expiresAt: Time, stateHash: StateHash)

  type Auths = map<string, DockerAuth>
  type States = map<string, RegistryState>

  /** `auths` and `registries` may be missing from a document that decodes. */
  datatype DockerFile = DockerFile(auths: Option<map<string, Record<DockerAuth>>>)
  datatype StateFile = StateFile(version: int, registries: Option<map<string, Record<RegistryState>>>)

  const StateVersion := 1

  function EncodeDocker(auths: Auths): Text<DockerFile> {
    Canonical(DockerFile(Some(Records(auths))))
  }

  function EncodeState(states: States): Text<StateFile> {
    Canonical(StateFile(StateVersion, Some(Records(states))))
  }

  datatype SecretType = DockerConfigJson | OtherType(name: string)

  const DockerConfigJsonKey := ".dockerconfigjson"
  const StateAnnotationKey := "registry-secret-controller.io/state"
  const ApplicationNameLabelKey := "app.kubernetes.io/name"
  const ManagedByLabelKey := "app.kubernetes.io/managed-by"
  const ControllerIdentity := "kubernetes-registry-secret-controller"

  datatype Secret = Secret(
    uid: nat,
    resourceVersion: nat,
    deleting: bool,
    kind: SecretType,
    labels: map<string, string>,
    annotations: map<string, Text<StateFile>>,
    data: map<string, Text<DockerFile>>)

  /** Both identity labels are ours. */
  predicate IsManaged(s: Secret) {
    && Find(s.labels, ApplicationNameLabelKey) == Some(ControllerIdentity)
    && Find(s.labels, ManagedByLabelKey) == Some(ControllerIdentity)
  }

  lemma GoodRecordsOfRecords<T>(m: map<string, T>)
    ensures GoodRecords(Records(m)) == m
  {
  }
}

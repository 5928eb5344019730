/**
 The configuration entities of internal/config/types.go and internal/config/runtime.go.
 All of them are values: the program clones a snapshot on every read and write.
 */
module ConfigTypes {

  /** The cluster-wide identity of one ACR registry. */
  datatype RegistryKey = RegistryKey(regionID: string, instanceID: string) {
    /** `RegistryKey.String()`. */
    function Name(): string {
      regionID + "/" + instanceID
    }
  }

  datatype RegistryConfig = RegistryConfig(
    regionID: string,
    instanceID: string,
    accessKeyID: string,
    accessKeySecret: string,
    domains: seq<string>)
  {
    function Key(): RegistryKey {
      RegistryKey(regionID, instanceID)
    }
  }

  type Registries = map<RegistryKey, RegistryConfig>

  datatype NameSelector = NameSelector(matchAll: bool, names: seq<string>)

  /** Zero means "not configured" for each of the three overrides. */
  datatype RuntimeConfiguration = RuntimeConfiguration(qps: real, burst: int, workers: int)

  const NoOverrides := RuntimeConfiguration(0.0, 0, 0)

  datatype ConfigurationSnapshot = ConfigurationSnapshot(
    generation: nat,
    namespaces: NameSelector,
    excludedNamespaces: seq<string>,
    serviceAccounts: NameSelector,
    registries: Registries,
    runtime: RuntimeConfiguration)
  {
    /** Semantic equality apart from process tuning. */
    predicate BusinessEqual(other: ConfigurationSnapshot) {
      && namespaces == other.namespaces
      && excludedNamespaces == other.excludedNamespaces
      && serviceAccounts == other.serviceAccounts
      && registries == other.registries
    }

    /** Semantic equality; the generation is ignored. */
    predicate Equal(other: ConfigurationSnapshot) {
      runtime == other.runtime && BusinessEqual(other)
    }
  }

  /** Every registry is filed under its own key. */
  predicate KeysMatch(registries: Registries) {
    forall k :: k in registries ==> registries[k].Key() == k
  }

  /** No domain is configured for two registries. */
  predicate DisjointDomains(registries: Registries) {
    forall k, l, d ::
      k in registries && l in registries && d in registries[k].domains && d in registries[l].domains ==> k == l
  }

  /** What the parser guarantees of the registries of an accepted configuration. */
  predicate WellFormedRegistries(registries: Registries) {
    && KeysMatch(registries)
    && DisjointDomains(registries)
    && forall k :: k in registries ==> registries[k].domains != []
  }

  /** Two registries share the AK/SK pair, whatever their domains. */
  predicate SameAuthentication(a: RegistryConfig, b: RegistryConfig) {
    a.accessKeyID == b.accessKeyID && a.accessKeySecret == b.accessKeySecret
  }
}

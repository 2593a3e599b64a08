/**
  The policy resource: where its secret comes from, which workload it rotates and how it is
  validated.
 */
module Policy {
  import opened Options

  const AZURE_KEY_VAULT := "AzureKeyVault"
  const K8S_SECRET := "K8sSecret"
  const AWS_SECRETS_MANAGER := "AWSSecretsManager"
  const GCP_SECRET_MANAGER := "GCPSecretManager"
  const VAULT := "Vault"

  datatype AzureSource = AzureSource(keyVaultURI: string, objectName: string, objectType: string)

  /** A source type with the configuration blocks that may accompany it; the last four are names. */
  datatype SecretSource = SecretSource(
    kind: string, parseJSON: bool,
    azureKeyVault: Option<AzureSource>, k8sSecret: Option<string>,
    awsSecretsManager: Option<string>, gcpSecretManager: Option<string>, vault: Option<string>)

  /** The deprecated reference to an object in Azure Key Vault; absent means all fields are empty. */
  datatype VaultReference = VaultReference(keyVaultURI: string, objectName: string, objectType: string)

  /** Explicit binding of the secret inside the pod template; an empty name binds nothing. */
  datatype TargetRef = TargetRef(volumeName: string, envName: string, containerName: string)

  datatype SourceSpec = SourceSpec(source: Option<SecretSource>, vaultRef: VaultReference)

  const NO_SOURCE := SecretSource("", false, None, None, None, None, None)

  function GetResolvedSource(s: SourceSpec): SecretSource {
    if s.source.Some? then s.source.value
    else if s.vaultRef.keyVaultURI != "" || s.vaultRef.objectName != "" then
      var objectType := if s.vaultRef.objectType == "" then "Secret" else s.vaultRef.objectType;
      NO_SOURCE.(kind := AZURE_KEY_VAULT,
                 azureKeyVault := Some(AzureSource(s.vaultRef.keyVaultURI, s.vaultRef.objectName, objectType)))
    else NO_SOURCE
  }

  /** The name the selected backend gives the secret, if its configuration block is there. */
  function SourceName(src: SecretSource): Option<string> {
    if src.kind == AZURE_KEY_VAULT then
      if src.azureKeyVault.Some? then Some(src.azureKeyVault.value.objectName) else None
    else if src.kind == K8S_SECRET then src.k8sSecret
    else if src.kind == AWS_SECRETS_MANAGER then src.awsSecretsManager
    else if src.kind == GCP_SECRET_MANAGER then src.gcpSecretManager
    else if src.kind == VAULT then src.vault
    else None
  }

  function GetVaultObjectName(s: SourceSpec): string {
    match SourceName(GetResolvedSource(s))
    case Some(name) => name
    case None => if s.vaultRef.objectName != "" then s.vaultRef.objectName else "secret"
  }

  /** A policy in the legacy form manages the object its vault reference names. */
  lemma LegacyObjectName(s: SourceSpec)
    requires s.source.None? && s.vaultRef.objectName != ""
    ensures GetVaultObjectName(s) == s.vaultRef.objectName
  {
  }

  function Or(name: Option<string>, other: string): string {
    if name.Some? then name.value else other
  }

  /** What the policy falls back on when no backend names its secret. */
  function Fallback(s: SourceSpec): string {
    if s.vaultRef.objectName == "" then "secret" else s.vaultRef.objectName
  }

  /**
    A policy with a source manages the name in the block of the backend its type selects, and falls
    back on the deprecated name, or on a fixed one, when that block is missing or the type unknown.
    Without a source it manages the deprecated name; one with a vault address but no name has none.
   */
  lemma ManagedName(s: SourceSpec)
    ensures s.source.Some? ==>
      var src := s.source.value;
      && (src.kind == "AzureKeyVault" && src.azureKeyVault.Some? ==>
            GetVaultObjectName(s) == src.azureKeyVault.value.objectName)
      && (src.kind == "AzureKeyVault" && src.azureKeyVault.None? ==> GetVaultObjectName(s) == Fallback(s))
      && (src.kind == "K8sSecret" ==> GetVaultObjectName(s) == Or(src.k8sSecret, Fallback(s)))
      && (src.kind == "AWSSecretsManager" ==> GetVaultObjectName(s) == Or(src.awsSecretsManager, Fallback(s)))
      && (src.kind == "GCPSecretManager" ==> GetVaultObjectName(s) == Or(src.gcpSecretManager, Fallback(s)))
      && (src.kind == "Vault" ==> GetVaultObjectName(s) == Or(src.vault, Fallback(s)))
      && (src.kind !in {"AzureKeyVault", "K8sSecret", "AWSSecretsManager", "GCPSecretManager", "Vault"} ==>
            GetVaultObjectName(s) == Fallback(s))
    ensures s.source.None? ==>
      GetVaultObjectName(s) ==
        if s.vaultRef.objectName == "" && s.vaultRef.keyVaultURI == "" then "secret" else s.vaultRef.objectName
  {
  }
}

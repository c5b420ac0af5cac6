/** Managed service declarations (gitops.go): the checks of validateManagedServices on one
    declaration, and what is stored of it. */
module ManagedServices {
  import opened Text
  import opened Topology

  datatype SecretRef = SecretRef(name: string, remoteKey: string, storeName: string, storeKind: string)

  datatype ManagedConfig = ManagedConfig(
    kind: string, externalName: string, authMode: string, instance: string,
    egressCidrs: seq<string>, egressNamespace: string, secretRefs: seq<SecretRef>)

  /** The parsers of Go's net package and the instance-name pattern, as given answers. */
  datatype Net = Net(isIp: string -> bool, isCidr: string -> bool, isInstance: string -> bool)

  const CELL_VAULT := "cell-vault"

  // ----- text -----

  predicate IsSpace(c: char) { c == ' ' || c == '\t' || c == '\n' || c == '\r' || c == 11 as char || c == 12 as char }

  function TrimLeft(s: string): string {
    if s != "" && IsSpace(s[0]) then TrimLeft(s[1..]) else s
  }

  function TrimRight(s: string): string {
    if s != "" && IsSpace(s[|s|-1]) then TrimRight(s[..|s|-1]) else s
  }

  function TrimSpace(s: string): string { TrimRight(TrimLeft(s)) }

  function TrimDot(s: string): string { if s != "" && s[|s|-1] == '.' then s[..|s|-1] else s }

  /** validExternalName. */
  predicate ValidExternalName(net: Net, value: string) {
    var name := TrimDot(TrimSpace(value));
    && name != "" && !net.isIp(name) && |name| <= 253
    && forall i :: 0 <= i < |Split(name, '.')| ==> IsDnsLabel(Split(name, '.')[i])
  }

  // ----- managed services -----

  predicate KindOk(kind: string) {
    kind in {"elasticache", "rds-postgresql", "s3", "secrets-manager", "azure-postgres-flexible",
             "cloud-sql-postgres", CELL_VAULT}
  }

  datatype Answer<T> = No | Yes(value: T)

  /** validateManagedAuth: the resolved mode and instance name. */
  function ManagedAuth(c: ManagedConfig, net: Net): Answer<(string, string)> {
    var mode, instance := TrimSpace(c.authMode), TrimSpace(c.instance);
    if c.kind == CELL_VAULT && mode != "external-identity" then No
    else if c.kind == "cloud-sql-postgres" && (mode == "" || !net.isInstance(instance)) then No
    else if c.kind != "cloud-sql-postgres" && instance != "" then No
    else if mode == "" || mode == "password" then Yes(("password", instance))
    else if mode == "external-identity" then
      if c.secretRefs != [] then No else Yes(("external-identity", instance))
    else No
  }

  /** validateManagedEgress: a cell-vault is reached by namespace, every other kind by address. */
  function ManagedEgress(c: ManagedConfig): Answer<string> {
    var namespace := TrimSpace(c.egressNamespace);
    if c.kind != CELL_VAULT then (if namespace != "" then No else Yes(""))
    else if namespace == "" || !IsDnsLabel(namespace) || c.egressCidrs != [] then No
    else Yes(namespace)
  }

  predicate SecretOk(r: SecretRef) {
    && IsDnsLabel(r.name)
    && TrimSpace(r.remoteKey) != "" && '\r' !in r.remoteKey && '\n' !in r.remoteKey
    && TrimSpace(r.storeName) != ""
    && (r.storeKind == "SecretStore" || r.storeKind == "ClusterSecretStore")
  }

  predicate SecretsOk(refs: seq<SecretRef>) {
    && (forall i :: 0 <= i < |refs| ==> SecretOk(refs[i]))
    && (forall i, j :: 0 <= i < j < |refs| ==> refs[i].name != refs[j].name)
  }

  predicate ManagedOk(service: string, c: ManagedConfig, services: seq<string>, withdrawn: set<string>, net: Net) {
    && service in services && service !in withdrawn
    && KindOk(c.kind) && ValidExternalName(net, c.externalName)
    && ManagedAuth(c, net).Yes? && ManagedEgress(c).Yes?
    && (forall i :: 0 <= i < |c.egressCidrs| ==> net.isCidr(c.egressCidrs[i]))
    && SecretsOk(c.secretRefs)
  }

  /** What is stored is what was validated, not what was written. */
  function Normalize(c: ManagedConfig, net: Net): ManagedConfig {
    match (ManagedAuth(c, net), ManagedEgress(c))
    case (Yes((mode, instance)), Yes(namespace)) =>
      c.(authMode := mode, instance := instance, egressNamespace := namespace)
    case _ => c
  }

  function NormalizeAll(managed: map<string, ManagedConfig>, net: Net): map<string, ManagedConfig> {
    map s | s in managed :: Normalize(managed[s], net)
  }

  // ----- as it runs -----

  method CheckManaged(s: string, c: ManagedConfig, services: seq<string>, withdrawn: set<string>, net: Net)
    returns (ok: bool)
    ensures ok <==> ManagedOk(s, c, services, withdrawn, net)
  {
    if s !in services || s in withdrawn || !KindOk(c.kind) || !ValidExternalName(net, c.externalName)
      || ManagedAuth(c, net).No? || ManagedEgress(c).No? {
      return false;
    }
    for i := 0 to |c.egressCidrs|
      invariant forall j :: 0 <= j < i ==> net.isCidr(c.egressCidrs[j])
    {
      if !net.isCidr(c.egressCidrs[i]) {
        return false;
      }
    }
    ok := CheckSecrets(c.secretRefs);
  }

  method CheckSecrets(refs: seq<SecretRef>) returns (ok: bool)
    ensures ok <==> SecretsOk(refs)
  {
    var names: set<string> := {};
    for i := 0 to |refs|
      invariant names == set j | 0 <= j < i :: refs[j].name
      invariant forall j :: 0 <= j < i ==> SecretOk(refs[j])
      invariant forall j, k :: 0 <= j < k < i ==> refs[j].name != refs[k].name
    {
      if !SecretOk(refs[i]) || refs[i].name in names {
        return false;
      }
      names := names + {refs[i].name};
    }
    return true;
  }
}

/** The certificate reconciler: a CA secret, the secrets it signs for, and when each is renewed. Times are
    in seconds. */
module Certificates {
  import opened Bytes

  const CA_EXPIRATION_INTERVAL := 3600 * 24 * 365 * 10
  const EXPIRATION_INTERVAL := 3600 * 24 * 30
  const ROTATION_THRESHOLD := 24 * 3600

  const ORGANIZATION := "knative.dev"
  const LEGACY_FAKE_DNS_NAME := "data-plane." + ORGANIZATION
  const CONTROL_PLANE_NAME := "kn-control"

  const CA_CERT_NAME := "ca.crt"
  const CERT_NAME := "tls.crt"
  const PRIVATE_KEY_NAME := "tls.key"
  const SECRET_CA_CERT_KEY := "ca-cert.pem"
  const SECRET_CERT_KEY := "public-cert.pem"
  const SECRET_PK_KEY := "private-key.pem"

  const ROUTING_ID_LABEL := "routing-id"

  /** A key pair is a number; a certificate names the key it certifies and the key that signed it. */
  type KeyId = nat

  datatype Cert = Cert(key: KeyId, signer: KeyId, isCA: bool, notBefore: int, notAfter: int, dnsNames: seq<string>)

  /** The value of a secret entry: a PEM block that parses, or anything else. Equal bytes are equal values. */
  datatype Blob = CertPem(cert: Cert) | KeyPem(key: KeyId) | Other(bytes: seq<Byte>)

  type SecretName = (string, string)  // namespace and name

  datatype Secret = Secret(namespace: string, name: string, labels: map<string, string>, data: map<string, Blob>)

  datatype Error =
    | MissingCert | MissingKey | MissingCa | CaChanged | BadPem | Expiring | UnexpectedSans
    | ListerFailed | KeyGenerationFailed | SigningFailed | UpdateFailed | UnknownType

  datatype Result<+T> = Ok(value: T) | Err(error: Error)

  function ToLower(s: string): (r: string) {
    seq(|s|, i requires 0 <= i < |s| => if 'A' <= s[i] <= 'Z' then s[i] - 'A' + 'a' else s[i])
  }

  function DataPlaneRoutingName(routingId: string): (san: string) {
    "kn-routing-" + ToLower(if routingId == "" then "0" else routingId)
  }

  function DataPlaneUserName(namespace: string): (san: string) {
    "kn-user-" + ToLower(namespace)
  }

  /** The alternative names a secret of each type must carry. */
  function SansFor(secret: Secret, kind: string): (r: Result<seq<string>>) {
    if kind == "control-plane" then Ok([CONTROL_PLANE_NAME, LEGACY_FAKE_DNS_NAME])
    else if kind == "data-plane-routing" then
      var id := if ROUTING_ID_LABEL in secret.labels then secret.labels[ROUTING_ID_LABEL] else "";
      Ok([DataPlaneRoutingName(id), LEGACY_FAKE_DNS_NAME])
    else if kind == "data-plane-user" then Ok([DataPlaneUserName(secret.namespace), LEGACY_FAKE_DNS_NAME])
    else if kind == "data-plane" then Ok([LEGACY_FAKE_DNS_NAME])
    else Err(UnknownType)
  }

  function ParseCert(cert: Blob, key: Blob): (r: Result<(Cert, KeyId)>) {
    if cert.CertPem? && key.KeyPem? then Ok((cert.cert, key.key)) else Err(BadPem)
  }

  /** `ValidateCert`: the certificate outlives the threshold. */
  predicate Outlives(cert: Cert, now: int) {
    cert.notAfter > now + ROTATION_THRESHOLD
  }

  predicate Unexpired(cert: Cert, t: int) {
    t < cert.notAfter
  }

  function SetOf(names: seq<string>): (s: set<string>) {
    set n | n in names
  }

  /** A secret that need not be renewed: it holds a certificate and a key, the CA's bytes if it is not the CA's own,
      the certificate outlives the threshold, and its alternative names are the required ones as a set. */
  ghost predicate Validates(secret: Secret, ca: Option<Blob>, sans: seq<string>, now: int) {
    && SECRET_CERT_KEY in secret.data && secret.data[SECRET_CERT_KEY].CertPem?
    && SECRET_PK_KEY in secret.data && secret.data[SECRET_PK_KEY].KeyPem?
    && (ca.Some? ==> SECRET_CA_CERT_KEY in secret.data && secret.data[SECRET_CA_CERT_KEY] == ca.value)
    && Outlives(secret.data[SECRET_CERT_KEY].cert, now)
    && SetOf(secret.data[SECRET_CERT_KEY].cert.dnsNames) == SetOf(sans)
  }

  function ParseAndValidateSecret(secret: Secret, ca: Option<Blob>, sans: seq<string>,
                                  now: int): (r: Result<(Cert, KeyId)>)
    ensures r.Ok? <==> Validates(secret, ca, sans, now)
    ensures r.Ok? ==> r.value == (secret.data[SECRET_CERT_KEY].cert, secret.data[SECRET_PK_KEY].key)
  {
    if SECRET_CERT_KEY !in secret.data then Err(MissingCert)
    else if SECRET_PK_KEY !in secret.data then Err(MissingKey)
    else if ca.Some? && SECRET_CA_CERT_KEY !in secret.data then Err(MissingCa)
    else if ca.Some? && secret.data[SECRET_CA_CERT_KEY] != ca.value then Err(CaChanged)
    else
      var parsed := ParseCert(secret.data[SECRET_CERT_KEY], secret.data[SECRET_PK_KEY]);
      if parsed.Err? then parsed
      else if !Outlives(parsed.value.0, now) then Err(Expiring)
      else if SetOf(sans) != SetOf(parsed.value.0.dnsNames) then Err(UnexpectedSans)
      else parsed
  }

  datatype KeyPair = KeyPair(cert: Cert, key: KeyId)

  function CreateCACerts(key: KeyId, now: int): (p: KeyPair) {
    KeyPair(Cert(key, key, true, now, now + CA_EXPIRATION_INTERVAL, []), key)
  }

  /** Signing is refused when the CA's private key is not the one its certificate is for. */
  function CreateCert(key: KeyId, ca: (Cert, KeyId), now: int, sans: seq<string>): (r: Result<KeyPair>) {
    if ca.0.key != ca.1 then Err(SigningFailed)
    else Ok(KeyPair(Cert(key, ca.1, false, now, now + EXPIRATION_INTERVAL, sans), key))
  }

  function UpdatedData(p: KeyPair, ca: Option<Blob>): (data: map<string, Blob>) {
    map[CERT_NAME := CertPem(p.cert), PRIVATE_KEY_NAME := KeyPem(p.key),
        SECRET_CERT_KEY := CertPem(p.cert), SECRET_PK_KEY := KeyPem(p.key)]
    + if ca.Some? then map[SECRET_CA_CERT_KEY := ca.value, CA_CERT_NAME := ca.value] else map[]
  }

  datatype Config = Config(systemNamespace: string, caSecretName: string, typeLabel: string) {
    function CaName(): (n: SecretName) {
      (systemNamespace, caSecretName)
    }
    predicate ShouldReconcile(secret: Secret) {
      (secret.namespace, secret.name) != CaName() && typeLabel in secret.labels
    }
  }

  /** What one pass meets: the time, and whether reading, generating keys and writing work. */
  datatype Env = Env(now: int, listerOk: bool, keysOk: bool, updateOk: bool)

  datatype Cluster = Cluster(
    secrets: map<SecretName, Secret>,
    nextKey: KeyId,
    writes: seq<SecretName>,
    scheduled: seq<(SecretName, int)>)

  function Commit(c: Cluster, secret: Secret, p: KeyPair, ca: Option<Blob>, env: Env): (r: (Cluster, Option<Error>)) {
    if !env.updateOk then (c, Some(UpdateFailed))
    else
      var name := (secret.namespace, secret.name);
      (c.(secrets := c.secrets[name := secret.(data := UpdatedData(p, ca))], writes := c.writes + [name]), None)
  }

  function Schedule(c: Cluster, secret: Secret, cert: Cert, now: int): (c': Cluster) {
    c.(scheduled := c.scheduled + [((secret.namespace, secret.name), cert.notAfter - ROTATION_THRESHOLD + 1 - now)])
  }

  /** One pass of the reconciler over a secret. */
  function Pass(cfg: Config, c: Cluster, secret: Secret, env: Env): (r: (Cluster, Option<Error>)) {
    if !cfg.ShouldReconcile(secret) then (c, None)
    else if !env.listerOk then (c, Some(ListerFailed))
    else if cfg.CaName() !in c.secrets then (c, None)
    else
      var caSecret := c.secrets[cfg.CaName()];
      var ca := ParseAndValidateSecret(caSecret, None, [], env.now);
      if ca.Err? then
        if !env.keysOk then (c, Some(KeyGenerationFailed))
        else Commit(c.(nextKey := c.nextKey + 1), caSecret, CreateCACerts(c.nextKey, env.now), None, env)
      else
        var sans := SansFor(secret, secret.labels[cfg.typeLabel]);
        if sans.Err? then (c, Some(sans.error))
        else
          var caBytes := caSecret.data[SECRET_CERT_KEY];
          var parsed := ParseAndValidateSecret(secret, Some(caBytes), sans.value, env.now);
          if parsed.Ok? then (Schedule(c, secret, parsed.value.0, env.now), None)
          else if !env.keysOk then (c, Some(KeyGenerationFailed))
          else
            var p := CreateCert(c.nextKey, ca.value, env.now, sans.value);
            if p.Err? then (c.(nextKey := c.nextKey + 1), Some(p.error))
            else
              var written := Commit(c.(nextKey := c.nextKey + 1), secret, p.value, Some(caBytes), env);
              if written.1.Some? then written else (Schedule(written.0, secret, p.value.cert, env.now), None)
  }

  class Reconciler {
    const cfg: Config
    var secrets: map<SecretName, Secret>
    var nextKey: KeyId
    var writes: seq<SecretName>
    var scheduled: seq<(SecretName, int)>

    constructor (cfg: Config, secrets: map<SecretName, Secret>)
      ensures this.cfg == cfg && Contents() == Cluster(secrets, 0, [], [])
    {
      this.cfg, this.secrets, nextKey, writes, scheduled := cfg, secrets, 0, [], [];
    }

    ghost function Contents(): (c: Cluster)
      reads this
    {
      Cluster(secrets, nextKey, writes, scheduled)
    }

    /** `commitUpdatedSecret`: replaces all data of the secret by the new pair, under the old and the new names. */
    method CommitUpdatedSecret(secret: Secret, p: KeyPair, ca: Option<Blob>, env: Env) returns (err: Option<Error>)
      modifies this
      ensures Contents() == Commit(old(Contents()), secret, p, ca, env).0
      ensures err == Commit(old(Contents()), secret, p, ca, env).1
    {
      var data := map[];
      data := data[CERT_NAME := CertPem(p.cert)];
      data := data[PRIVATE_KEY_NAME := KeyPem(p.key)];
      data := data[SECRET_CERT_KEY := CertPem(p.cert)];
      data := data[SECRET_PK_KEY := KeyPem(p.key)];
      if ca.Some? {
        data := data[SECRET_CA_CERT_KEY := ca.value];
        data := data[CA_CERT_NAME := ca.value];
      }
      assert data == UpdatedData(p, ca);
      if !env.updateOk {
        return Some(UpdateFailed);
      }
      var name := (secret.namespace, secret.name);
      secrets := secrets[name := secret.(data := data)];
      writes := writes + [name];
      return None;
    }

    /** `ReconcileKind` on a copy of a secret, which may no longer be what is stored. */
    method ReconcileKind(secret: Secret, env: Env) returns (err: Option<Error>)
      modifies this
      ensures Contents() == Pass(cfg, old(Contents()), secret, env).0
      ensures err == Pass(cfg, old(Contents()), secret, env).1
    {
      hide ParseAndValidateSecret, SansFor, UpdatedData;
      if !cfg.ShouldReconcile(secret) {
        return None;
      }
      if !env.listerOk {
        return Some(ListerFailed);
      }
      if cfg.CaName() !in secrets {
        return None;
      }
      var caSecret := secrets[cfg.CaName()];
      var ca := ParseAndValidateSecret(caSecret, None, [], env.now);
      if ca.Err? {
        if !env.keysOk {
          return Some(KeyGenerationFailed);
        }
        nextKey := nextKey + 1;
        err := CommitUpdatedSecret(caSecret, CreateCACerts(nextKey - 1, env.now), None, env);
        return;
      }
      var sans := SansFor(secret, secret.labels[cfg.typeLabel]);
      if sans.Err? {
        return Some(sans.error);
      }
      var caBytes := caSecret.data[SECRET_CERT_KEY];
      var parsed := ParseAndValidateSecret(secret, Some(caBytes), sans.value, env.now);
      var cert;
      if parsed.Err? {
        if !env.keysOk {
          return Some(KeyGenerationFailed);
        }
        nextKey := nextKey + 1;
        var p := CreateCert(nextKey - 1, ca.value, env.now, sans.value);
        if p.Err? {
          return Some(p.error);
        }
        err := CommitUpdatedSecret(secret, p.value, Some(caBytes), env);
        if err.Some? {
          return;
        }
        cert := p.value.cert;
      } else {
        cert := parsed.value.0;
      }
      var when := cert.notAfter - ROTATION_THRESHOLD + 1;
      scheduled := scheduled + [((secret.namespace, secret.name), when - env.now)];
      return None;
    }
  }

  // ---- Convergence ----

  ghost predicate CaValid(cfg: Config, c: Cluster, now: int) {
    cfg.CaName() in c.secrets && Validates(c.secrets[cfg.CaName()], None, [], now)
  }

  /** The CA's private key is the one its certificate is for. Validation does not look at this, signing does. */
  ghost predicate CaMatches(cfg: Config, c: Cluster) {
    cfg.CaName() in c.secrets &&
    var data := c.secrets[cfg.CaName()].data;
    && SECRET_CERT_KEY in data && data[SECRET_CERT_KEY].CertPem?
    && SECRET_PK_KEY in data && data[SECRET_PK_KEY].KeyPem?
    && data[SECRET_CERT_KEY].cert.key == data[SECRET_PK_KEY].key
  }

  /** Every secret is stored under its own name, and the one called `name` is one the reconciler knows what to
      do with. */
  ghost predicate Ready(cfg: Config, c: Cluster, name: SecretName) {
    && (forall n :: n in c.secrets ==> n == (c.secrets[n].namespace, c.secrets[n].name))
    && cfg.CaName() in c.secrets && name in c.secrets && cfg.ShouldReconcile(c.secrets[name])
    && SansFor(c.secrets[name], c.secrets[name].labels[cfg.typeLabel]).Ok?
  }

  function CaBytes(cfg: Config, c: Cluster): (b: Option<Blob>)
    requires cfg.CaName() in c.secrets
  {
    var data := c.secrets[cfg.CaName()].data;
    if SECRET_CERT_KEY in data then Some(data[SECRET_CERT_KEY]) else None
  }

  function SansOf(cfg: Config, secret: Secret): (sans: seq<string>) {
    if cfg.typeLabel !in secret.labels then []
    else
      var r := SansFor(secret, secret.labels[cfg.typeLabel]);
      if r.Ok? then r.value else []
  }

  /** The CA and the secret both validate, and the secret carries the current CA bytes and exactly the names of its
      type. */
  ghost predicate Settled(cfg: Config, c: Cluster, name: SecretName, now: int) {
    && CaValid(cfg, c, now) && name in c.secrets
    && Validates(c.secrets[name], CaBytes(cfg, c), SansOf(cfg, c.secrets[name]), now)
  }

  function AllWell(now: int): (env: Env) {
    Env(now, true, true, true)
  }

  function PassOver(cfg: Config, c: Cluster, name: SecretName, now: int): (r: (Cluster, Option<Error>))
    requires name in c.secrets
  {
    Pass(cfg, c, c.secrets[name], AllWell(now))
  }

  lemma UpdatedValidates(secret: Secret, p: KeyPair, ca: Option<Blob>, sans: seq<string>, now: int)
    requires Outlives(p.cert, now) && SetOf(p.cert.dnsNames) == SetOf(sans)
    ensures Validates(secret.(data := UpdatedData(p, ca)), ca, sans, now)
    ensures SECRET_CERT_KEY in UpdatedData(p, ca) && SECRET_PK_KEY in UpdatedData(p, ca)
    ensures UpdatedData(p, ca)[SECRET_CERT_KEY] == CertPem(p.cert)
    ensures UpdatedData(p, ca)[SECRET_PK_KEY] == KeyPem(p.key)
  {
  }

  /** A pass that finds the CA invalid renews it and touches nothing else. */
  lemma PassRenewsCa(cfg: Config, c: Cluster, name: SecretName, now: int)
    requires Ready(cfg, c, name) && !CaValid(cfg, c, now)
    ensures var (c', err) := PassOver(cfg, c, name, now);
            && err.None? && CaValid(cfg, c', now) && CaMatches(cfg, c') && Ready(cfg, c', name)
            && c'.secrets[name] == c.secrets[name] && c'.writes == c.writes + [cfg.CaName()]
  {
    hide SansFor, Validates, UpdatedData;
    var caSecret := c.secrets[cfg.CaName()];
    UpdatedValidates(caSecret, CreateCACerts(c.nextKey, now), None, [], now);
  }

  /** A pass that finds the CA valid, with the right key, and the secret not, renews the secret, signed with the CA's
      key and valid for the full interval, and touches nothing else. */
  lemma PassRenewsSecret(cfg: Config, c: Cluster, name: SecretName, now: int)
    requires Ready(cfg, c, name) && CaValid(cfg, c, now) && CaMatches(cfg, c) && !Settled(cfg, c, name, now)
    ensures var (c', err) := PassOver(cfg, c, name, now);
            && err.None? && Settled(cfg, c', name, now) && Ready(cfg, c', name)
            && c'.secrets[cfg.CaName()] == c.secrets[cfg.CaName()] && c'.writes == c.writes + [name]
            && c'.secrets[name].data[SECRET_CERT_KEY].CertPem?
            && var cert := c'.secrets[name].data[SECRET_CERT_KEY].cert;
               && cert.notAfter == now + EXPIRATION_INTERVAL
               && KeyPem(cert.signer) == c.secrets[cfg.CaName()].data[SECRET_PK_KEY]
               && c'.scheduled == c.scheduled + [(name, cert.notAfter - ROTATION_THRESHOLD + 1 - now)]
  {
    hide SansFor, UpdatedData;
    var secret, caSecret := c.secrets[name], c.secrets[cfg.CaName()];
    var sans := SansFor(secret, secret.labels[cfg.typeLabel]).value;
    var ca := ParseAndValidateSecret(caSecret, None, [], now).value;
    var p := CreateCert(c.nextKey, ca, now, sans).value;
    UpdatedValidates(secret, p, CaBytes(cfg, c), sans, now);
    SansIgnoreData(secret, secret.labels[cfg.typeLabel], UpdatedData(p, CaBytes(cfg, c)));
  }

  lemma SansIgnoreData(secret: Secret, kind: string, data: map<string, Blob>)
    ensures SansFor(secret.(data := data), kind) == SansFor(secret, kind)
  {
  }

  /** A pass over a settled secret writes nothing; it only schedules the next one. */
  lemma PassKeepsSettled(cfg: Config, c: Cluster, name: SecretName, now: int)
    requires Ready(cfg, c, name) && Settled(cfg, c, name, now)
    ensures var (c', err) := PassOver(cfg, c, name, now);
            && err.None? && c'.secrets == c.secrets && c'.writes == c.writes
            && var cert := c.secrets[name].data[SECRET_CERT_KEY].cert;
               c'.scheduled == c.scheduled + [(name, cert.notAfter - ROTATION_THRESHOLD + 1 - now)]
  {
    hide SansFor;
  }

  /** A pass that finds the CA valid but with a key that is not its certificate's, and the secret invalid, fails and
      writes nothing. */
  lemma PassCannotSign(cfg: Config, c: Cluster, name: SecretName, now: int)
    requires Ready(cfg, c, name) && CaValid(cfg, c, now) && !CaMatches(cfg, c) && !Settled(cfg, c, name, now)
    ensures var (c', err) := PassOver(cfg, c, name, now);
            && err == Some(SigningFailed) && c'.secrets == c.secrets
            && c'.writes == c.writes && c'.scheduled == c.scheduled
  {
    hide SansFor;
  }

  /** What decides convergence: the CA is invalid, so it will be replaced, or its pair matches, or there is nothing to
      sign. */
  ghost predicate CanSettle(cfg: Config, c: Cluster, name: SecretName, now: int) {
    !CaValid(cfg, c, now) || CaMatches(cfg, c) || Settled(cfg, c, name, now)
  }

  lemma PassSettles(cfg: Config, c: Cluster, name: SecretName, now: int)
    requires Ready(cfg, c, name) && CaValid(cfg, c, now) && CanSettle(cfg, c, name, now)
    ensures var (c', err) := PassOver(cfg, c, name, now);
            err.None? && Ready(cfg, c', name) && Settled(cfg, c', name, now)
    ensures PassOver(cfg, c, name, now).0.secrets[cfg.CaName()] == c.secrets[cfg.CaName()]
  {
    hide SansFor, Validates, Pass, CaMatches;
    if Settled(cfg, c, name, now) {
      PassKeepsSettled(cfg, c, name, now);
    } else {
      PassRenewsSecret(cfg, c, name, now);
    }
  }

  lemma TwoPassesSettle(cfg: Config, c0: Cluster, name: SecretName, now: int)
    requires Ready(cfg, c0, name) && CanSettle(cfg, c0, name, now)
    ensures var (c1, e1) := PassOver(cfg, c0, name, now);
            && e1.None? && name in c1.secrets
            && var (c2, e2) := PassOver(cfg, c1, name, now);
               e2.None? && Ready(cfg, c2, name) && Settled(cfg, c2, name, now)
  {
    hide SansFor, Validates, Pass, CaMatches;
    var c1 := PassOver(cfg, c0, name, now).0;
    if !CaValid(cfg, c0, now) {
      PassRenewsCa(cfg, c0, name, now);
    } else {
      PassSettles(cfg, c0, name, now);
    }
    PassSettles(cfg, c1, name, now);
  }

  /** Convergence: with the CA secret there and a type the reconciler knows, two passes over any contents succeed and
      leave the CA and the secret valid, the secret with the current CA bytes and exactly the names of its type, if and
      only if the CA is invalid at first, or its pair matches, or all is settled already. A third pass
      writes nothing. */
  lemma Converges(cfg: Config, c0: Cluster, name: SecretName, now: int)
    requires Ready(cfg, c0, name)
    ensures var (c1, e1) := PassOver(cfg, c0, name, now);
            && name in c1.secrets
            && var (c2, e2) := PassOver(cfg, c1, name, now);
               && name in c2.secrets
               && (e1.None? && e2.None? <==> CanSettle(cfg, c0, name, now))
               && (Settled(cfg, c2, name, now) <==> CanSettle(cfg, c0, name, now))
               && var (c3, e3) := PassOver(cfg, c2, name, now);
                  && (e3.None? <==> CanSettle(cfg, c0, name, now))
                  && c3.secrets == c2.secrets && c3.writes == c2.writes
  {
    hide SansFor, Validates, Pass, CaMatches, CaValid, Settled, CanSettle;
    var c1 := PassOver(cfg, c0, name, now).0;
    var c2 := if name in c1.secrets then PassOver(cfg, c1, name, now).0 else c1;
    if CanSettle(cfg, c0, name, now) {
      TwoPassesSettle(cfg, c0, name, now);
      PassKeepsSettled(cfg, c2, name, now);
    } else {
      CannotSettle(cfg, c0, name, now);
      SameSecrets(cfg, c0, c1, name, now);
      CannotSettle(cfg, c1, name, now);
      SameSecrets(cfg, c1, c2, name, now);
      CannotSettle(cfg, c2, name, now);
    }
  }

  lemma CannotSettle(cfg: Config, c: Cluster, name: SecretName, now: int)
    requires Ready(cfg, c, name) && !CanSettle(cfg, c, name, now)
    ensures var (c', err) := PassOver(cfg, c, name, now);
            err == Some(SigningFailed) && c'.secrets == c.secrets && c'.writes == c.writes
    ensures !Settled(cfg, c, name, now)
  {
    hide SansFor, Validates, Pass;
    PassCannotSign(cfg, c, name, now);
  }

  /** Everything above depends on the secrets only. */
  lemma SameSecrets(cfg: Config, c: Cluster, c': Cluster, name: SecretName, now: int)
    requires c.secrets == c'.secrets
    ensures Ready(cfg, c, name) == Ready(cfg, c', name)
    ensures CaValid(cfg, c, now) == CaValid(cfg, c', now) && CaMatches(cfg, c) == CaMatches(cfg, c')
    ensures Settled(cfg, c, name, now) == Settled(cfg, c', name, now)
    ensures CanSettle(cfg, c, name, now) == CanSettle(cfg, c', name, now)
  {
    hide Validates, SansFor;
  }

  const EXAMPLE := Config("knative-serving", "serving-ctrl-ca", "serving-ctrl")

  /** A CA whose certificate is for key 0 but whose private key is key 1, and a new secret without data. */
  function MismatchedCa(now: int): (c: Cluster) {
    var ca := Secret("knative-serving", "serving-ctrl-ca", map[], UpdatedData(CreateCACerts(0, now).(key := 1), None));
    var secret := Secret("default", "certs", map["serving-ctrl" := "data-plane"], map[]);
    Cluster(map[EXAMPLE.CaName() := ca, ("default", "certs") := secret], 2, [], [])
  }

  /** A concrete input on which no pass succeeds and nothing is ever written. */
  lemma MismatchedCaFails(now: int)
    ensures var c, name := MismatchedCa(now), ("default", "certs");
            && Ready(EXAMPLE, c, name) && CaValid(EXAMPLE, c, now) && !CanSettle(EXAMPLE, c, name, now)
            && PassOver(EXAMPLE, c, name, now).1 == Some(SigningFailed)
            && PassOver(EXAMPLE, c, name, now).0.writes == []
  {
    var c, name := MismatchedCa(now), ("default", "certs");
    hide *;
    MismatchedCaIsReady(now);
    CannotSettle(EXAMPLE, c, name, now);
  }

  lemma MismatchedCaIsReady(now: int)
    ensures var c, name := MismatchedCa(now), ("default", "certs");
            && Ready(EXAMPLE, c, name) && CaValid(EXAMPLE, c, now) && !CanSettle(EXAMPLE, c, name, now)
            && c.writes == []
  {
    var c, name := MismatchedCa(now), ("default", "certs");
    assert EXAMPLE.CaName().1 != name.1;
    var secret := c.secrets[name];
    assert secret.labels["serving-ctrl"] == "data-plane";
    UpdatedValidates(c.secrets[EXAMPLE.CaName()], CreateCACerts(0, now).(key := 1), None, [], now);
  }

  // ---- What a pass decides ----

  /** Which secrets a pass is about, when it fails, and that a failure changes nothing: with the CA secret there, it
      fails exactly when it has something to create and creating or writing it fails, or does not know the type. */
  lemma PassDecides(cfg: Config, c: Cluster, secret: Secret, env: Env)
    ensures var (c', err) := Pass(cfg, c, secret, env);
            var active := cfg.typeLabel in secret.labels &&
                          !(secret.namespace == cfg.systemNamespace && secret.name == cfg.caSecretName);
            var canWrite := env.keysOk && env.updateOk;
            && (!active ==> c' == c && err.None?)
            && (err.Some? ==> c'.secrets == c.secrets && c'.writes == c.writes && c'.scheduled == c.scheduled)
            && (active && !env.listerOk ==> err.Some?)
            && (active && env.listerOk && cfg.CaName() !in c.secrets ==> c' == c && err.None?)
            && (active && env.listerOk && cfg.CaName() in c.secrets ==>
                  if !CaValid(cfg, c, env.now) then err.None? <==> canWrite
                  else
                    var kind := secret.labels[cfg.typeLabel];
                    if kind !in {"control-plane", "data-plane-routing", "data-plane-user", "data-plane"} then err.Some?
                    else if Validates(secret, CaBytes(cfg, c), SansOf(cfg, secret), env.now) then err.None?
                    else err.None? <==> canWrite && CaMatches(cfg, c))
  {
    hide Validates, UpdatedData;
    if CaValid(cfg, c, env.now) {
      CaBytesOfValid(cfg, c, env.now);
    }
  }

  lemma CaBytesOfValid(cfg: Config, c: Cluster, now: int)
    requires CaValid(cfg, c, now)
    ensures var data := c.secrets[cfg.CaName()].data;
            && SECRET_CERT_KEY in data && data[SECRET_CERT_KEY].CertPem?
            && SECRET_PK_KEY in data && data[SECRET_PK_KEY].KeyPem?
  {
  }

  // ---- What is stored ----

  predicate SameLetter(x: char, y: char) {
    || x == y
    || ('A' <= x <= 'Z' && y as int == x as int + 32)
    || ('A' <= y <= 'Z' && x as int == y as int + 32)
  }

  /** Equal up to the case of ASCII letters. */
  ghost predicate SameUpToCase(a: string, b: string) {
    |a| == |b| && forall i :: 0 <= i < |a| ==> SameLetter(a[i], b[i])
  }

  lemma ToLowerForgetsCase(a: string, b: string)
    ensures ToLower(a) == ToLower(b) <==> SameUpToCase(a, b)
  {
    if ToLower(a) == ToLower(b) {
      assert |ToLower(a)| == |a| && |ToLower(b)| == |b|;
      forall i | 0 <= i < |a| ensures SameLetter(a[i], b[i]) {
        assert ToLower(a)[i] == ToLower(b)[i];
      }
    }
  }

  /** The alternative names of each type, spelled out. */
  ghost function NamesOfType(secret: Secret, kind: string): (names: set<string>) {
    var id := if "routing-id" in secret.labels then secret.labels["routing-id"] else "";
    if kind == "control-plane" then {"kn-control", "data-plane.knative.dev"}
    else if kind == "data-plane-routing" then
      {"kn-routing-" + (if id == "" then "0" else ToLower(id)), "data-plane.knative.dev"}
    else if kind == "data-plane-user" then {"kn-user-" + ToLower(secret.namespace), "data-plane.knative.dev"}
    else if kind == "data-plane" then {"data-plane.knative.dev"}
    else {}
  }

  lemma SansAreNames(secret: Secret, kind: string)
    ensures SansFor(secret, kind).Ok? <==>
              kind in {"control-plane", "data-plane-routing", "data-plane-user", "data-plane"}
    ensures SansFor(secret, kind).Ok? ==> SetOf(SansFor(secret, kind).value) == NamesOfType(secret, kind)
  {
    assert ToLower("0") == "0";
    assert LEGACY_FAKE_DNS_NAME == "data-plane.knative.dev";
  }

  /** What an entry of a secret certifies for longer than another day. */
  ghost predicate GoodCert(data: map<string, Blob>, now: int) {
    && "public-cert.pem" in data && data["public-cert.pem"].CertPem?
    && "private-key.pem" in data && data["private-key.pem"].KeyPem?
    && data["public-cert.pem"].cert.notAfter > now + 86400
  }

  /** Settled, spelled out: the CA and the secret both hold a certificate, good for more than another day, and a key;
      the CA's has no names; the secret carries the CA's certificate as it is now, and its own has exactly the names of
      its type. */
  lemma SettledMeans(cfg: Config, c: Cluster, name: SecretName, now: int)
    requires Ready(cfg, c, name)
    ensures var secret, ca := c.secrets[name], c.secrets[cfg.CaName()];
            Settled(cfg, c, name, now) <==>
            && GoodCert(ca.data, now) && SetOf(ca.data["public-cert.pem"].cert.dnsNames) == {}
            && GoodCert(secret.data, now)
            && "ca-cert.pem" in secret.data && secret.data["ca-cert.pem"] == ca.data["public-cert.pem"]
            && SetOf(secret.data["public-cert.pem"].cert.dnsNames) == NamesOfType(secret, secret.labels[cfg.typeLabel])
  {
    var secret := c.secrets[name];
    SansAreNames(secret, secret.labels[cfg.typeLabel]);
    hide SansFor, NamesOfType;
    assert SetOf([]) == {};
  }

  function RoutingId(s: Secret): (id: string) {
    if "routing-id" !in s.labels || s.labels["routing-id"] == "" then "0" else s.labels["routing-id"]
  }

  /** The name of a secret beside the legacy one, if it has one. */
  ghost function Identity(s: Secret, k: string): (id: Option<string>) {
    if k == "control-plane" then Some("kn-control")
    else if k == "data-plane-routing" then Some("kn-routing-" + ToLower(RoutingId(s)))
    else if k == "data-plane-user" then Some("kn-user-" + ToLower(s.namespace))
    else None
  }

  lemma IdentityAndLegacy(s: Secret, k: string)
    ensures NamesOfType(s, k) - {"data-plane.knative.dev"} ==
              if Identity(s, k).Some? then {Identity(s, k).value} else {}
    ensures Identity(s, k).Some? ==> |Identity(s, k).value| > 3 && Identity(s, k).value[0] == 'k'
    ensures Identity(s, k).Some? ==>
              Identity(s, k).value[3] ==
              if k == "control-plane" then 'c' else if k == "data-plane-user" then 'u' else 'r'
  {
    assert ToLower("0") == "0";
    assert "data-plane.knative.dev"[0] == 'd';
    if Identity(s, k).Some? {
      assert Identity(s, k).value[0] == 'k';
    }
  }

  /** Names tell types apart, and users by their namespaces and routers by their ids, up to case: beside the legacy name
      two secrets share one only if they are of the same type and agree in that. */
  lemma NamesSeparate(s: Secret, k: string, s': Secret, k': string)
    ensures "kn-control" in NamesOfType(s, k) <==> k == "control-plane"
    ensures var shared := NamesOfType(s, k) * NamesOfType(s', k') - {"data-plane.knative.dev"};
            && (shared != {} ==> k == k')
            && (k == k' == "data-plane-user" ==> (shared != {} <==> SameUpToCase(s.namespace, s'.namespace)))
            && (k == k' == "data-plane-routing" ==> (shared != {} <==> SameUpToCase(RoutingId(s), RoutingId(s'))))
  {
    IdentityAndLegacy(s, k);
    IdentityAndLegacy(s', k');
    UserName(s, s');
    RoutingName(s, s');
    var legacy := "data-plane.knative.dev";
    assert legacy[0] == 'd' && "kn-control"[3] == 'c' && "kn-control"[0] == 'k';
    assert "kn-control" in NamesOfType(s, k) <==> "kn-control" in NamesOfType(s, k) - {legacy};
    hide NamesOfType, SameUpToCase, ToLower;
    var shared := NamesOfType(s, k) * NamesOfType(s', k') - {legacy};
    assert shared == (NamesOfType(s, k) - {legacy}) * (NamesOfType(s', k') - {legacy});
    var id, id' := Identity(s, k), Identity(s', k');
    if id.Some? && id'.Some? && id == id' {
      assert shared == {id.value};
    } else {
      assert shared == {};
    }
  }

  lemma UserName(s: Secret, s': Secret)
    ensures "kn-user-" + ToLower(s.namespace) == "kn-user-" + ToLower(s'.namespace) <==>
            SameUpToCase(s.namespace, s'.namespace)
  {
    var a, b := ToLower(s.namespace), ToLower(s'.namespace);
    ToLowerForgetsCase(s.namespace, s'.namespace);
    assert ("kn-user-" + a)[8..] == a && ("kn-user-" + b)[8..] == b;
  }

  lemma RoutingName(s: Secret, s': Secret)
    ensures "kn-routing-" + ToLower(RoutingId(s)) == "kn-routing-" + ToLower(RoutingId(s')) <==>
            SameUpToCase(RoutingId(s), RoutingId(s'))
    ensures ToLower("0") == "0"
  {
    var a, b := ToLower(RoutingId(s)), ToLower(RoutingId(s'));
    ToLowerForgetsCase(RoutingId(s), RoutingId(s'));
    assert ("kn-routing-" + a)[11..] == a && ("kn-routing-" + b)[11..] == b;
  }

  /** What a renewed secret holds: the certificate and its key under both their names, the CA's certificate under both
      of its names, and nothing else; the certificate is for a new key, valid from now on for 30 days, and has the names
      of the secret's type. */
  lemma RenewedSecret(cfg: Config, c: Cluster, name: SecretName, now: int)
    requires Ready(cfg, c, name) && CaValid(cfg, c, now) && CaMatches(cfg, c) && !Settled(cfg, c, name, now)
    ensures var secret := PassOver(cfg, c, name, now).0.secrets[name];
            var ca := c.secrets[cfg.CaName()].data["public-cert.pem"];
            && secret == c.secrets[name].(data := secret.data)
            && secret.data.Keys == {"tls.crt", "tls.key", "ca.crt", "public-cert.pem", "private-key.pem", "ca-cert.pem"}
            && secret.data["ca.crt"] == secret.data["ca-cert.pem"] == ca
            && secret.data["tls.crt"] == secret.data["public-cert.pem"] && secret.data["tls.crt"].CertPem?
            && var cert := secret.data["tls.crt"].cert;
               && secret.data["tls.key"] == secret.data["private-key.pem"] == KeyPem(cert.key) && cert.key == c.nextKey
               && !cert.isCA && cert.notBefore == now && cert.notAfter == now + 30 * 86400
               && SetOf(cert.dnsNames) == NamesOfType(secret, secret.labels[cfg.typeLabel])
  {
    var secret := c.secrets[name];
    SansAreNames(secret, secret.labels[cfg.typeLabel]);
    hide SansFor, NamesOfType;
    PassRenewsSecret(cfg, c, name, now);
    var ca := ParseAndValidateSecret(c.secrets[cfg.CaName()], None, [], now).value;
    var p := CreateCert(c.nextKey, ca, now, SansOf(cfg, secret)).value;
    var data := UpdatedData(p, CaBytes(cfg, c));
    NamesIgnoreData(secret, secret.labels[cfg.typeLabel], data);
    assert PassOver(cfg, c, name, now).0.secrets[name] == secret.(data := data);
  }

  lemma NamesIgnoreData(secret: Secret, kind: string, data: map<string, Blob>)
    ensures NamesOfType(secret.(data := data), kind) == NamesOfType(secret, kind)
  {
  }

  /** What a renewed CA holds: a self-signed certificate for a new key, valid for 3650 days and without names. */
  lemma RenewedCa(cfg: Config, c: Cluster, name: SecretName, now: int)
    requires Ready(cfg, c, name) && !CaValid(cfg, c, now)
    ensures var ca := PassOver(cfg, c, name, now).0.secrets[cfg.CaName()];
            && ca == c.secrets[cfg.CaName()].(data := ca.data)
            && ca.data.Keys == {"tls.crt", "tls.key", "public-cert.pem", "private-key.pem"}
            && ca.data["tls.crt"] == ca.data["public-cert.pem"] && ca.data["tls.crt"].CertPem?
            && var cert := ca.data["tls.crt"].cert;
               && ca.data["tls.key"] == ca.data["private-key.pem"] == KeyPem(cert.key) && cert.key == c.nextKey
               && cert.signer == cert.key && cert.isCA && cert.dnsNames == []
               && cert.notBefore == now && cert.notAfter == now + 3650 * 86400
  {
    hide SansFor, Validates;
  }

  // ---- Rotation ----

  /** The cluster after the passes at the given times. */
  ghost function AfterPasses(cfg: Config, c: Cluster, name: SecretName, times: seq<int>): (c': Cluster)
    requires name in c.secrets
  {
    if times == [] then c
    else
      var before := AfterPasses(cfg, c, name, times[..|times| - 1]);
      if name in before.secrets then PassOver(cfg, before, name, times[|times| - 1]).0 else before
  }

  /** When the last pass, made at time `t`, asked to be run again. */
  function Due(c: Cluster, t: int): (when: int)
    requires c.scheduled != []
  {
    t + c.scheduled[|c.scheduled| - 1].1
  }

  /** Passes may happen at any time, but the next one at the latest less than 24h minus 1s after the time that the
      previous one asked for. */
  ghost predicate OnTime(cfg: Config, c: Cluster, name: SecretName, times: seq<int>)
    requires name in c.secrets
  {
    forall i :: 0 < i < |times| ==>
      var before := AfterPasses(cfg, c, name, times[..i]);
      before.scheduled != [] && times[i - 1] <= times[i] < Due(before, times[i - 1]) + ROTATION_THRESHOLD - 1
  }

  ghost predicate Stored(c: Cluster, name: SecretName) {
    name in c.secrets && SECRET_CERT_KEY in c.secrets[name].data && c.secrets[name].data[SECRET_CERT_KEY].CertPem?
  }

  function StoredCert(c: Cluster, name: SecretName): (cert: Cert)
    requires Stored(c, name)
  {
    c.secrets[name].data[SECRET_CERT_KEY].cert
  }

  /** After passes with a CA that stays valid, the secret is settled as of the last of them, which asked to be run again
      one second after the certificate stops outliving the threshold. */
  lemma {:induction false} RotationInvariant(cfg: Config, c: Cluster, name: SecretName, times: seq<int>)
    requires Ready(cfg, c, name) && times != [] && CaMatches(cfg, c)
    requires forall i :: 0 <= i < |times| ==> CaValid(cfg, c, times[i])
    ensures var c' := AfterPasses(cfg, c, name, times);
            var last := times[|times| - 1];
            && Ready(cfg, c', name) && c'.secrets[cfg.CaName()] == c.secrets[cfg.CaName()]
            && Settled(cfg, c', name, last)
            && Stored(c', name) && c'.scheduled != []
            && Due(c', last) == StoredCert(c', name).notAfter - ROTATION_THRESHOLD + 1
    decreases |times|
  {
    hide SansFor, Pass, UpdatedData;
    var last, init := times[|times| - 1], times[..|times| - 1];
    if init != [] {
      RotationInvariant(cfg, c, name, init);
    }
    var before := AfterPasses(cfg, c, name, init);
    if Settled(cfg, before, name, last) {
      PassKeepsSettled(cfg, before, name, last);
    } else {
      PassRenewsSecret(cfg, before, name, last);
    }
  }

  /** The window of a re-run: the stored certificate fails validation exactly from one second before the re-run is due,
      and is unexpired exactly until 24h minus 1s after. */
  lemma RotationWindow(cfg: Config, c: Cluster, name: SecretName, times: seq<int>, t: int)
    requires Ready(cfg, c, name) && times != [] && CaMatches(cfg, c)
    requires forall i :: 0 <= i < |times| ==> CaValid(cfg, c, times[i])
    ensures var c' := AfterPasses(cfg, c, name, times);
            && c'.scheduled != [] && Stored(c', name)
            && (!Outlives(StoredCert(c', name), t) <==> Due(c', times[|times| - 1]) - 1 <= t)
            && (Unexpired(StoredCert(c', name), t) <==> t < Due(c', times[|times| - 1]) + ROTATION_THRESHOLD - 1)
  {
    hide SansFor, Pass, Validates, AfterPasses;
    RotationInvariant(cfg, c, name, times);
  }

  /** Rotation never lapses: with a valid CA whose pair matches and every pass on time, however many come early, the
      certificate stored between two passes is unexpired at every moment up to the next one. That pass replaces it,
      by one that is valid for the full interval, exactly when it comes at the time the previous pass asked for, one
      second earlier, or later, which is when the certificate fails validation; an earlier pass writes nothing. */
  lemma RotationNeverLapses(cfg: Config, c: Cluster, name: SecretName, times: seq<int>, i: nat)
    requires Ready(cfg, c, name) && 0 < i < |times| && CaMatches(cfg, c)
    requires forall k :: 0 <= k < |times| ==> CaValid(cfg, c, times[k])
    requires OnTime(cfg, c, name, times)
    ensures var before, after := AfterPasses(cfg, c, name, times[..i]), AfterPasses(cfg, c, name, times[..i + 1]);
            && Stored(before, name) && Stored(after, name) && before.scheduled != []
            && (forall t :: times[i - 1] <= t <= times[i] ==> Unexpired(StoredCert(before, name), t))
            && var due := Due(before, times[i - 1]) - 1 <= times[i];
               && (due <==> !Outlives(StoredCert(before, name), times[i]))
               && after.writes == before.writes + (if due then [name] else [])
               && (due ==> StoredCert(after, name).notAfter == times[i] + EXPIRATION_INTERVAL)
               && (!due ==> after.secrets == before.secrets)
  {
    hide SansFor, Pass, Validates, CaMatches;
    RotationInvariant(cfg, c, name, times[..i]);
    RotationInvariant(cfg, c, name, times[..i + 1]);
    var before := AfterPasses(cfg, c, name, times[..i]);
    assert times[..i][i - 1] == times[i - 1];
    assert times[..i + 1][..i] == times[..i];
    SameCa(cfg, c, before, times[i]);
    if Outlives(StoredCert(before, name), times[i]) {
      StaysSettled(cfg, before, name, times[i - 1], times[i]);
      PassKeepsSettled(cfg, before, name, times[i]);
    } else {
      NotSettled(cfg, before, name, times[i]);
      PassRenewsSecret(cfg, before, name, times[i]);
    }
  }

  lemma SameCa(cfg: Config, c: Cluster, c': Cluster, now: int)
    requires cfg.CaName() in c.secrets && cfg.CaName() in c'.secrets
    requires c.secrets[cfg.CaName()] == c'.secrets[cfg.CaName()]
    ensures CaValid(cfg, c, now) == CaValid(cfg, c', now) && CaMatches(cfg, c) == CaMatches(cfg, c')
  {
    hide Validates;
  }

  /** Only the expiry of the certificates depends on the time. */
  lemma StaysSettled(cfg: Config, c: Cluster, name: SecretName, earlier: int, now: int)
    requires Settled(cfg, c, name, earlier) && CaValid(cfg, c, now)
    requires Stored(c, name) && Outlives(StoredCert(c, name), now)
    ensures Settled(cfg, c, name, now)
  {
    hide SansFor;
  }

  /** The matching pair is needed: while the CA is valid and its pair does not match, no pass ever writes anything, and
      each one fails unless the secret still validates as it was at first. */
  lemma {:induction false} MismatchedCaNeverWrites(cfg: Config, c: Cluster, name: SecretName, times: seq<int>, now: int)
    requires Ready(cfg, c, name) && !CaMatches(cfg, c)
    requires (forall i :: 0 <= i < |times| ==> CaValid(cfg, c, times[i])) && CaValid(cfg, c, now)
    ensures var c' := AfterPasses(cfg, c, name, times);
            && c'.secrets == c.secrets && c'.writes == c.writes
            && (PassOver(cfg, c', name, now).1 ==
                if Settled(cfg, c, name, now) then None else Some(SigningFailed))
    decreases |times|
  {
    hide SansFor, Pass, Validates, CaMatches, CaValid, Settled;
    if times != [] {
      var init, last := times[..|times| - 1], times[|times| - 1];
      MismatchedCaNeverWrites(cfg, c, name, init, last);
      MismatchedPass(cfg, c, AfterPasses(cfg, c, name, init), name, last);
    }
    MismatchedPass(cfg, c, AfterPasses(cfg, c, name, times), name, now);
  }

  lemma MismatchedPass(cfg: Config, c: Cluster, c': Cluster, name: SecretName, now: int)
    requires Ready(cfg, c, name) && !CaMatches(cfg, c) && CaValid(cfg, c, now) && c'.secrets == c.secrets
    ensures name in c'.secrets
    ensures var (d, err) := PassOver(cfg, c', name, now);
            && d.secrets == c'.secrets && d.writes == c'.writes
            && err == if Settled(cfg, c, name, now) then None else Some(SigningFailed)
  {
    hide SansFor, Pass, Validates, CaMatches, CaValid, Settled;
    SameSecrets(cfg, c, c', name, now);
    if Settled(cfg, c, name, now) {
      PassKeepsSettled(cfg, c', name, now);
    } else {
      PassCannotSign(cfg, c', name, now);
    }
  }

  lemma NotSettled(cfg: Config, c: Cluster, name: SecretName, now: int)
    requires Stored(c, name) && !Outlives(StoredCert(c, name), now)
    ensures !Settled(cfg, c, name, now)
  {
  }
}

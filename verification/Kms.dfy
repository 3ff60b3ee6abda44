/** Secrets at rest (kms/kms.go, kms/local.go, kms/basegocloud.go, kms/builtin.go).

    Ciphers, hashes, key derivation and text encodings are parameters of which only the inverse laws
    are known.  Random keys are arguments. */
module Kms {
  import opened Options

  datatype Status = StatusEmpty | StatusPlain | StatusAES256GCM | StatusSecretBox | StatusGCP | StatusAWS | StatusVaultTransit | StatusRedacted

  datatype BaseSecret = BaseSecret(status: Status, payload: string, key: string, additionalData: string, mode: int)

  /** The primitives.  `nonce` makes encryption randomised. */
  datatype Crypto = Crypto(
    seal: (string, string, string) -> string,      // key, nonce, plaintext
    unseal: (string, string) -> Option<string>,    // key, ciphertext
    cloudSeal: (string, string, string) -> string, // url, nonce, plaintext
    cloudUnseal: (string, string) -> Option<string>,
    gcmSeal: (string, string, string, string) -> string,   // key, nonce, additional data, plaintext
    gcmOpen: (string, string, string) -> Option<string>,   // key, additional data, nonce and ciphertext
    hkdf: (string, string, string) -> string,      // master key, salt, info
    sha256: string -> string,
    toText: string -> string,
    fromText: string -> Option<string>)

  /** Decryption inverts encryption, decoding inverts encoding, and the text of something is not
      empty. */
  ghost predicate Lawful(c: Crypto) {
    && (forall k, n, p :: c.unseal(k, c.seal(k, n, p)) == Some(p))
    && (forall u, n, p :: c.cloudUnseal(u, c.cloudSeal(u, n, p)) == Some(p))
    && (forall k, n, a, p :: c.gcmOpen(k, a, c.gcmSeal(k, n, a, p)) == Some(p))
    && (forall x :: c.fromText(c.toText(x)) == Some(x))
    && (forall x :: x != "" ==> c.toText(x) != "")
  }

  // ---------------------------------------------------------------------------------------------
  // The local provider

  /** localSecret.deriveKey.  A secret that was encrypted without a master key is decrypted without
      one even when a master key has been configured since. */
  function DeriveKey(c: Crypto, s: BaseSecret, masterKey: string, key: string, isForDecryption: bool): string {
    var master := if masterKey == "" || (isForDecryption && s.mode == 0) then c.sha256(key + s.additionalData + key) else masterKey;
    c.hkdf(master, key, s.additionalData)
  }

  /** localSecret.Encrypt. */
  function LocalEncrypt(c: Crypto, s: BaseSecret, masterKey: string, secretKey: string, nonce: string): Option<BaseSecret> {
    if s.status != StatusPlain || s.payload == "" then None
    else
      var key := DeriveKey(c, s, masterKey, secretKey, false);
      Some(s.(key := c.toText(secretKey), payload := c.toText(c.seal(key, nonce, s.payload)), status := StatusSecretBox,
              mode := if masterKey == "" then 0 else 1))
  }

  /** localSecret.Decrypt. */
  function LocalDecrypt(c: Crypto, s: BaseSecret, masterKey: string): Option<BaseSecret> {
    if s.status != StatusSecretBox then None
    else match (c.fromText(s.payload), c.fromText(s.key))
      case (Some(encrypted), Some(secretKey)) =>
        (match c.unseal(DeriveKey(c, s, masterKey, secretKey, true), encrypted)
         case Some(plaintext) => Some(BaseSecret(StatusPlain, plaintext, "", "", 0))
         case None => None)
      case _ => None
  }

  /** The key that decrypts is the key that encrypted. */
  predicate SameOrLaterMasterKey(before: string, after: string) {
    before == after || before == ""
  }

  lemma LocalRoundTrip(c: Crypto, s: BaseSecret, before: string, after: string, secretKey: string, nonce: string)
    requires Lawful(c) && s.status == StatusPlain && s.payload != "" && SameOrLaterMasterKey(before, after)
    ensures var e := LocalEncrypt(c, s, before, secretKey, nonce);
            && e.Some? && e.value.status == StatusSecretBox && e.value.additionalData == s.additionalData
            && LocalDecrypt(c, e.value, after) == Some(BaseSecret(StatusPlain, s.payload, "", "", 0))
  {
  }

  // ---------------------------------------------------------------------------------------------
  // The cloud providers, layered over the local one

  /** baseGCloudSecret.Encrypt followed by the status of the provider: with a master key the payload
      is first encrypted locally. */
  function CloudEncrypt(
      c: Crypto, s: BaseSecret, url: string, masterKey: string, status: Status, secretKey: string, nonce: string): Option<BaseSecret>
  {
    if s.status != StatusPlain || s.payload == "" then None
    else
      var inner := if masterKey == "" then Some(s.(key := "", mode := 0)) else LocalEncrypt(c, s, masterKey, secretKey, nonce);
      match inner
      case None => None
      case Some(l) =>
        Some(s.(payload := c.toText(c.cloudSeal(url, nonce, l.payload)), key := l.key, mode := l.mode, status := status))
  }

  /** baseGCloudSecret.Decrypt behind the status check of the provider. */
  function CloudDecrypt(c: Crypto, s: BaseSecret, url: string, masterKey: string, status: Status): Option<BaseSecret> {
    if s.status != status then None
    else match c.fromText(s.payload)
      case None => None
      case Some(encrypted) =>
        match c.cloudUnseal(url, encrypted)
        case None => None
        case Some(plaintext) =>
          if s.key == "" then Some(BaseSecret(StatusPlain, plaintext, "", "", 0))
          else
            match LocalDecrypt(c, BaseSecret(StatusSecretBox, plaintext, s.key, s.additionalData, s.mode), masterKey)
            case None => None
            case Some(l) => Some(BaseSecret(StatusPlain, l.payload, "", "", 0))
  }

  lemma CloudRoundTrip(
      c: Crypto, s: BaseSecret, url: string, before: string, after: string, status: Status, secretKey: string, nonce: string)
    requires Lawful(c) && s.status == StatusPlain && s.payload != "" && secretKey != "" && SameOrLaterMasterKey(before, after)
    ensures var e := CloudEncrypt(c, s, url, before, status, secretKey, nonce);
            && e.Some? && e.value.status == status
            && CloudDecrypt(c, e.value, url, after, status) == Some(BaseSecret(StatusPlain, s.payload, "", "", 0))
  {
  }

  // ---------------------------------------------------------------------------------------------
  // The builtin provider

  /** builtinSecret.deriveKey. */
  function BuiltinKey(c: Crypto, s: BaseSecret, key: string): string {
    c.sha256(key + s.additionalData + key)
  }

  /** builtinSecret.Encrypt: the additional data is authenticated as well.  The mode is left alone. */
  function BuiltinEncrypt(c: Crypto, s: BaseSecret, secretKey: string, nonce: string): Option<BaseSecret> {
    if s.payload == "" || s.status != StatusPlain then None
    else
      Some(s.(key := c.toText(secretKey), status := StatusAES256GCM,
              payload := c.toText(c.gcmSeal(BuiltinKey(c, s, secretKey), nonce, s.additionalData, s.payload))))
  }

  /** builtinSecret.Decrypt. */
  function BuiltinDecrypt(c: Crypto, s: BaseSecret): Option<BaseSecret> {
    if s.status != StatusAES256GCM then None
    else match (c.fromText(s.payload), c.fromText(s.key))
      case (Some(encrypted), Some(secretKey)) =>
        (match c.gcmOpen(BuiltinKey(c, s, secretKey), s.additionalData, encrypted)
         case Some(plaintext) => Some(BaseSecret(StatusPlain, plaintext, "", "", s.mode))
         case None => None)
      case _ => None
  }

  lemma BuiltinRoundTrip(c: Crypto, s: BaseSecret, secretKey: string, nonce: string)
    requires Lawful(c) && s.status == StatusPlain && s.payload != ""
    ensures var e := BuiltinEncrypt(c, s, secretKey, nonce);
            && e.Some? && e.value.status == StatusAES256GCM
            && BuiltinDecrypt(c, e.value) == Some(BaseSecret(StatusPlain, s.payload, "", "", s.mode))
  {
  }

  // ---------------------------------------------------------------------------------------------
  // The providers themselves overwrite their fields

  /** A secret of the local provider or, with a url, of a cloud provider. */
  class SecretProvider {
    const c: Crypto
    const masterKey: string
    const url: string
    const encryptedStatus: Status
    var status: Status
    var payload: string
    var key: string
    var additionalData: string
    var mode: int

    constructor (c: Crypto, base: BaseSecret, masterKey: string, url: string, encryptedStatus: Status)
      ensures Base() == base && this.c == c && this.masterKey == masterKey && this.url == url
      ensures this.encryptedStatus == encryptedStatus
    {
      this.c, this.masterKey, this.url, this.encryptedStatus := c, masterKey, url, encryptedStatus;
      status, payload, key, additionalData, mode := base.status, base.payload, base.key, base.additionalData, base.mode;
    }

    function Base(): BaseSecret
      reads this
    {
      BaseSecret(status, payload, key, additionalData, mode)
    }

    /** localSecret.Encrypt: on an error nothing is changed. */
    method EncryptLocally(secretKey: string, nonce: string) returns (ok: bool)
      modifies this
      ensures var e := LocalEncrypt(c, old(Base()), masterKey, secretKey, nonce);
              ok == e.Some? && Base() == if ok then e.value else old(Base())
    {
      if status != StatusPlain {
        return false;
      }
      if payload == "" {
        return false;
      }
      var k := DeriveKey(c, Base(), masterKey, secretKey, false);
      var ciphertext := c.seal(k, nonce, payload);
      key := c.toText(secretKey);
      payload := c.toText(ciphertext);
      status := StatusSecretBox;
      mode := if masterKey == "" then 0 else 1;
      ok := true;
    }

    method DecryptLocally() returns (ok: bool)
      modifies this
      ensures var d := LocalDecrypt(c, old(Base()), masterKey);
              ok == d.Some? && Base() == if ok then d.value else old(Base())
    {
      if status != StatusSecretBox {
        return false;
      }
      var encrypted := c.fromText(payload);
      if encrypted.None? {
        return false;
      }
      var secretKey := c.fromText(key);
      if secretKey.None? {
        return false;
      }
      var plaintext := c.unseal(DeriveKey(c, Base(), masterKey, secretKey.value, true), encrypted.value);
      if plaintext.None? {
        return false;
      }
      status, payload, key, additionalData, mode := StatusPlain, plaintext.value, "", "", 0;
      ok := true;
    }

    /** baseGCloudSecret.Encrypt: the inner secret is a local one with the same fields. */
    method EncryptInCloud(secretKey: string, nonce: string) returns (ok: bool)
      modifies this
      ensures var e := CloudEncrypt(c, old(Base()), url, masterKey, encryptedStatus, secretKey, nonce);
              ok == e.Some? && Base() == if ok then e.value else old(Base())
    {
      if status != StatusPlain || payload == "" {
        return false;
      }
      var innerPayload, innerKey, innerMode := payload, "", 0;
      if masterKey != "" {
        var inner := new SecretProvider(c, Base(), masterKey, "", StatusSecretBox);
        var encrypted := inner.EncryptLocally(secretKey, nonce);
        if !encrypted {
          return false;
        }
        innerPayload, innerKey, innerMode := inner.payload, inner.key, inner.mode;
      }
      payload := c.toText(c.cloudSeal(url, nonce, innerPayload));
      key := innerKey;
      mode := innerMode;
      status := encryptedStatus;
      ok := true;
    }

    method DecryptInCloud() returns (ok: bool)
      modifies this
      ensures var d := CloudDecrypt(c, old(Base()), url, masterKey, encryptedStatus);
              ok == d.Some? && Base() == if ok then d.value else old(Base())
    {
      if status != encryptedStatus {
        return false;
      }
      var encrypted := c.fromText(payload);
      if encrypted.None? {
        return false;
      }
      var plaintext := c.cloudUnseal(url, encrypted.value);
      if plaintext.None? {
        return false;
      }
      var clear := plaintext.value;
      if key != "" {
        var inner := new SecretProvider(c, BaseSecret(StatusSecretBox, clear, key, additionalData, mode), masterKey, "", StatusSecretBox);
        var decrypted := inner.DecryptLocally();
        if !decrypted {
          return false;
        }
        clear := inner.payload;
      }
      status, payload, key, additionalData, mode := StatusPlain, clear, "", "", 0;
      ok := true;
    }
  }

  // ---------------------------------------------------------------------------------------------
  // Stored form

  /** The JSON object of a secret; empty fields are omitted. */
  datatype Json = Json(
    status: Option<string>, payload: Option<string>, key: Option<string>, additionalData: Option<string>, mode: Option<int>)

  function StatusText(s: Status): string {
    match s
    case StatusEmpty => ""
    case StatusPlain => "Plain"
    case StatusAES256GCM => "AES-256-GCM"
    case StatusSecretBox => "Secretbox"
    case StatusGCP => "GCP"
    case StatusAWS => "AWS"
    case StatusVaultTransit => "VaultTransit"
    case StatusRedacted => "Redacted"
  }

  /** The status with the given text, if it is a valid one. */
  function TextStatus(t: string): (r: Option<Status>)
    ensures forall s :: r == Some(s) <==> StatusText(s) == t
  {
    if t == "" then Some(StatusEmpty)
    else if t == "Plain" then Some(StatusPlain)
    else if t == "AES-256-GCM" then Some(StatusAES256GCM)
    else if t == "Secretbox" then Some(StatusSecretBox)
    else if t == "GCP" then Some(StatusGCP)
    else if t == "AWS" then Some(StatusAWS)
    else if t == "VaultTransit" then Some(StatusVaultTransit)
    else if t == "Redacted" then Some(StatusRedacted)
    else None
  }

  function Omit<T(==)>(value: T, empty: T): Option<T> {
    if value == empty then None else Some(value)
  }

  function Restore<T>(field: Option<T>, empty: T): T {
    if field.Some? then field.value else empty
  }

  /** Secret.MarshalJSON. */
  function Marshal(s: BaseSecret): Json {
    Json(Omit(StatusText(s.status), ""), Omit(s.payload, ""), Omit(s.key, ""), Omit(s.additionalData, ""), Omit(s.mode, 0))
  }

  function Unmarshal(j: Json): Option<BaseSecret> {
    match TextStatus(Restore(j.status, ""))
    case None => None
    case Some(status) =>
      Some(BaseSecret(status, Restore(j.payload, ""), Restore(j.key, ""), Restore(j.additionalData, ""), Restore(j.mode, 0)))
  }

  lemma MarshalRoundTrip(s: BaseSecret)
    ensures Unmarshal(Marshal(s)) == Some(s)
  {
  }

  // ---------------------------------------------------------------------------------------------
  // Secrets under a configuration

  datatype Service = Local | Builtin | GCP | AWS | VaultTransit

  datatype Configuration = Configuration(url: string, masterKey: string)

  /** Configuration.getSecretProvider. */
  function ServiceFor(url: string): Service {
    if "hashivault://" <= url then VaultTransit
    else if "awskms://" <= url then AWS
    else if "gcpkms://" <= url then GCP
    else Local
  }

  function EncryptedStatus(service: Service): Status {
    match service
    case Local => StatusSecretBox
    case Builtin => StatusAES256GCM
    case GCP => StatusGCP
    case AWS => StatusAWS
    case VaultTransit => StatusVaultTransit
  }

  /** A secret with the provider that handles it and the parameters of that provider. */
  datatype Secret = Secret(service: Service, url: string, masterKey: string, base: BaseSecret)

  function NewSecret(cfg: Configuration, base: BaseSecret): Secret {
    Secret(ServiceFor(cfg.url), cfg.url, cfg.masterKey, base)
  }

  /** Secret.UnmarshalJSON: the stored status chooses the provider, the current configuration its
      parameters.  A secret without a status has to be empty. */
  function Load(cfg: Configuration, j: Json): Option<Secret> {
    match Unmarshal(j)
    case None => None
    case Some(base) =>
      match base.status
      case StatusEmpty =>
        if base.payload == "" && base.key == "" && base.additionalData == "" then Some(NewSecret(cfg, base)) else None
      case StatusPlain => Some(NewSecret(cfg, base))
      case StatusRedacted => Some(NewSecret(cfg, base))
      case StatusAES256GCM => Some(Secret(Builtin, cfg.url, cfg.masterKey, base))
      case StatusSecretBox => Some(Secret(Local, cfg.url, cfg.masterKey, base))
      case StatusGCP => Some(Secret(GCP, cfg.url, cfg.masterKey, base))
      case StatusAWS => Some(Secret(AWS, cfg.url, cfg.masterKey, base))
      case StatusVaultTransit => Some(Secret(VaultTransit, cfg.url, cfg.masterKey, base))
  }

  /** Secret.Clone: the same provider with the parameters of the current configuration. */
  function Clone(cfg: Configuration, s: Secret): Secret {
    Secret(s.service, cfg.url, cfg.masterKey, s.base)
  }

  function Encrypt(c: Crypto, s: Secret, secretKey: string, nonce: string): Option<Secret> {
    var r := match s.service
      case Local => LocalEncrypt(c, s.base, s.masterKey, secretKey, nonce)
      case Builtin => BuiltinEncrypt(c, s.base, secretKey, nonce)
      case _ => CloudEncrypt(c, s.base, s.url, s.masterKey, EncryptedStatus(s.service), secretKey, nonce);
    if r.None? then None else Some(s.(base := r.value))
  }

  function Decrypt(c: Crypto, s: Secret): Option<Secret> {
    var r := match s.service
      case Local => LocalDecrypt(c, s.base, s.masterKey)
      case Builtin => BuiltinDecrypt(c, s.base)
      case _ => CloudDecrypt(c, s.base, s.url, s.masterKey, EncryptedStatus(s.service));
    if r.None? then None else Some(s.(base := r.value))
  }

  /** The later configuration can still decrypt: it keeps the location of the keys of a cloud
      provider, and the master key, or adds a master key that was missing. */
  predicate StillDecrypts(s: Secret, cfg: Configuration) {
    && (s.service in {GCP, AWS, VaultTransit} ==> s.url == cfg.url)
    && SameOrLaterMasterKey(s.masterKey, cfg.masterKey)
  }

  lemma ProviderRoundTrip(c: Crypto, s: Secret, cfg: Configuration, secretKey: string, nonce: string)
    requires Lawful(c) && secretKey != "" && s.base.status == StatusPlain && s.base.payload != "" && s.base.mode == 0
    requires StillDecrypts(s, cfg)
    ensures var e := Encrypt(c, s, secretKey, nonce);
            && e.Some? && e.value.service == s.service && e.value.base.status == EncryptedStatus(s.service)
            && Decrypt(c, Secret(s.service, cfg.url, cfg.masterKey, e.value.base)) ==
               Some(Secret(s.service, cfg.url, cfg.masterKey, BaseSecret(StatusPlain, s.base.payload, "", "", 0)))
  {
    hide Lawful, LocalEncrypt, LocalDecrypt, BuiltinEncrypt, BuiltinDecrypt, CloudEncrypt, CloudDecrypt;
    match s.service
    case Local => LocalRoundTrip(c, s.base, s.masterKey, cfg.masterKey, secretKey, nonce);
    case Builtin => BuiltinRoundTrip(c, s.base, secretKey, nonce);
    case _ => CloudRoundTrip(c, s.base, s.url, s.masterKey, cfg.masterKey, EncryptedStatus(s.service), secretKey, nonce);
  }

  /** Loading a stored secret chooses the provider that encrypted it. */
  lemma LoadFindsProvider(cfg: Configuration, service: Service, base: BaseSecret)
    requires base.status == EncryptedStatus(service)
    ensures Load(cfg, Marshal(base)) == Some(Secret(service, cfg.url, cfg.masterKey, base))
  {
  }

  /** A plain or redacted secret is loaded for the provider that is configured now. */
  lemma LoadsForCurrentProvider(cfg: Configuration, base: BaseSecret)
    requires base.status in {StatusPlain, StatusRedacted}
    ensures Load(cfg, Marshal(base)) == Some(Secret(ServiceFor(cfg.url), cfg.url, cfg.masterKey, base))
  {
    hide Marshal, Unmarshal, ServiceFor;
    MarshalRoundTrip(base);
  }

  /** Encrypting a plain secret, storing it, loading it under a later configuration, cloning it and
      decrypting the clone gives back the payload as a plain secret with nothing else in it. */
  lemma SecretRoundTrip(c: Crypto, s: Secret, cfg: Configuration, secretKey: string, nonce: string)
    requires Lawful(c) && secretKey != "" && s.base.status == StatusPlain && s.base.payload != "" && s.base.mode == 0
    requires StillDecrypts(s, cfg)
    ensures var e := Encrypt(c, s, secretKey, nonce);
            && e.Some?
            && var loaded := Load(cfg, Marshal(e.value.base));
            && loaded.Some? && Clone(cfg, loaded.value) == loaded.value
            && var d := Decrypt(c, Clone(cfg, loaded.value));
            && d.Some? && d.value.base == BaseSecret(StatusPlain, s.base.payload, "", "", 0)
  {
    hide Lawful, Encrypt, Decrypt, Load, Marshal, EncryptedStatus, StillDecrypts;
    ProviderRoundTrip(c, s, cfg, secretKey, nonce);
    var e := Encrypt(c, s, secretKey, nonce).value;
    LoadFindsProvider(cfg, s.service, e.base);
  }

  // ---------------------------------------------------------------------------------------------
  // What is stored

  /** A secret is encrypted only when it is plain and not empty. */
  lemma EncryptsIff(c: Crypto, s: Secret, secretKey: string, nonce: string)
    ensures Encrypt(c, s, secretKey, nonce).Some? <==> s.base.status == StatusPlain && s.base.payload != ""
  {
  }

  /** A provider decrypts only what it encrypted. */
  lemma DecryptsOnlyItsOwn(c: Crypto, s: Secret)
    requires Decrypt(c, s).Some?
    ensures s.service == Local ==> s.base.status == StatusSecretBox
    ensures s.service == Builtin ==> s.base.status == StatusAES256GCM
    ensures s.service == GCP ==> s.base.status == StatusGCP
    ensures s.service == AWS ==> s.base.status == StatusAWS
    ensures s.service == VaultTransit ==> s.base.status == StatusVaultTransit
  {
  }

  /** What the local provider stores: the payload sealed under a key derived from the master key, or
      from the secret's own key and data when there is none; and the mode that tells which. */
  lemma SealedLocally(c: Crypto, s: BaseSecret, masterKey: string, secretKey: string, nonce: string)
    requires s.status == StatusPlain && s.payload != ""
    ensures var e := LocalEncrypt(c, s, masterKey, secretKey, nonce).value;
            && (masterKey != "" ==>
                  e.payload == c.toText(c.seal(c.hkdf(masterKey, secretKey, s.additionalData), nonce, s.payload)) && e.mode == 1)
            && (masterKey == "" ==>
                  && e.payload == c.toText(c.seal(c.hkdf(c.sha256(secretKey + s.additionalData + secretKey), secretKey, s.additionalData), nonce, s.payload))
                  && e.mode == 0)
            && e.key == c.toText(secretKey) && e.additionalData == s.additionalData
  {
  }

  /** What a cloud provider stores: the payload sealed by the key service, and with a master key
      sealed locally before that. */
  lemma SealedInCloud(c: Crypto, s: BaseSecret, url: string, masterKey: string, status: Status, secretKey: string, nonce: string)
    requires s.status == StatusPlain && s.payload != ""
    ensures var e := CloudEncrypt(c, s, url, masterKey, status, secretKey, nonce).value;
            && (masterKey == "" ==> e.payload == c.toText(c.cloudSeal(url, nonce, s.payload)) && e.key == "" && e.mode == 0)
            && (masterKey != "" ==>
                  && e.payload == c.toText(c.cloudSeal(url, nonce,
                                             c.toText(c.seal(c.hkdf(masterKey, secretKey, s.additionalData), nonce, s.payload))))
                  && e.key == c.toText(secretKey) && e.mode == 1)
  {
  }

  /** What the builtin provider stores: the payload sealed together with the additional data. */
  lemma SealedBuiltin(c: Crypto, s: BaseSecret, secretKey: string, nonce: string)
    requires s.status == StatusPlain && s.payload != ""
    ensures var e := BuiltinEncrypt(c, s, secretKey, nonce).value;
            && e.payload == c.toText(c.gcmSeal(c.sha256(secretKey + s.additionalData + secretKey), nonce, s.additionalData, s.payload))
            && e.key == c.toText(secretKey) && e.additionalData == s.additionalData
  {
  }

  /** Which status a new secret is stored with, by the location of the keys. */
  lemma StoredStatus(c: Crypto, cfg: Configuration, base: BaseSecret, secretKey: string, nonce: string)
    requires base.status == StatusPlain && base.payload != ""
    ensures var e := Encrypt(c, NewSecret(cfg, base), secretKey, nonce);
            && e.Some?
            && Marshal(e.value.base).status ==
               Some(if "hashivault://" <= cfg.url then "VaultTransit"
                    else if "awskms://" <= cfg.url then "AWS"
                    else if "gcpkms://" <= cfg.url then "GCP"
                    else "Secretbox")
  {
    hide LocalEncrypt, CloudEncrypt;
    SealedStatus(c, NewSecret(cfg, base), secretKey, nonce);
    assert |"VaultTransit"| > 0 && |"AWS"| > 0 && |"GCP"| > 0 && |"Secretbox"| > 0;
  }

  lemma SealedStatus(c: Crypto, s: Secret, secretKey: string, nonce: string)
    requires s.base.status == StatusPlain && s.base.payload != ""
    ensures Encrypt(c, s, secretKey, nonce).Some? && Encrypt(c, s, secretKey, nonce).value.base.status == EncryptedStatus(s.service)
  {
  }

  /** What cannot be loaded: an unknown status, or fields without a status. */
  lemma LoadsIff(cfg: Configuration, j: Json)
    ensures var known := {"", "Plain", "AES-256-GCM", "Secretbox", "GCP", "AWS", "VaultTransit", "Redacted"};
            Load(cfg, j).Some? <==>
              && Restore(j.status, "") in known
              && (Restore(j.status, "") == "" ==> Restore(j.payload, "") == Restore(j.key, "") == Restore(j.additionalData, "") == "")
  {
    hide ServiceFor;
  }
}

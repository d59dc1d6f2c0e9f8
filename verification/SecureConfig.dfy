/** Encrypted configuration at rest (internal/config/secure_config.go) and the framing of its
    vaults (internal/crypto/device_crypto.go). AES-GCM, base64 and YAML are parameters with the
    laws that opening undoes sealing, decoding undoes encoding and parsing undoes printing. */
module SecureConfig {
  import opened Text

  datatype Server = Server(
    bind: string, sharedSecret: string, allowedCIDRs: seq<string>, auditLog: string, wanInterface: string)

  datatype Config = Config(
    region: string, accessKey: string, secretKey: string, hostedZoneID: string, hostname: string, ttl: int,
    ipCacheFile: string, ipSource: string, updateInterval: string, updateTimeout: string, server: Option<Server>)

  datatype SecureServer = SecureServer(
    bind: string, secretVault: string, allowedCIDRs: seq<string>, auditLog: string, wanInterface: string)

  datatype Secured = Secured(
    region: string, vault: string, hostedZoneID: string, hostname: string, ttl: int,
    ipCacheFile: string, ipSource: string, server: Option<SecureServer>)

  /** `keyed` says whether a device key could be derived. */
  datatype Codec = Codec(
    keyed: bool, nonceSize: nat, seal: (string, string) -> string, open: (string, string) -> Option<string>,
    encode: string -> string, decode: string -> Option<string>,
    render: Secured -> string, parse: string -> Option<Secured>)

  ghost predicate Lawful(c: Codec) {
    && (forall n, p :: |n| == c.nonceSize ==> c.open(n, c.seal(n, p)) == Some(p))
    && (forall x :: c.decode(c.encode(x)) == Some(x))
    && (forall x :: c.parse(c.render(x)) == Some(x))
  }

  // ---------------------------------------------------------------- vaults

  /** The nonce is absent when the random source failed. */
  function EncryptString(c: Codec, nonce: Option<string>, plaintext: string): Result<string> {
    if !c.keyed then Err("device key")
    else if nonce.None? then Err("nonce")
    else Ok(c.encode(nonce.value + c.seal(nonce.value, plaintext)))
  }

  function DecryptString(c: Codec, encoded: string): Result<string> {
    if !c.keyed then Err("device key") else
      var ciphertext := c.decode(encoded);
      if ciphertext.None? then Err("base64")
      else if |ciphertext.value| < c.nonceSize then Err("ciphertext too short")
      else
        var plaintext := c.open(ciphertext.value[..c.nonceSize], ciphertext.value[c.nonceSize..]);
        if plaintext.None? then Err("authentication failed") else Ok(plaintext.value)
  }

  function EncryptCredentials(c: Codec, nonce: Option<string>, accessKey: string, secretKey: string): Result<string> {
    EncryptString(c, nonce, accessKey + ":" + secretKey)
  }

  function DecryptCredentials(c: Codec, encrypted: string): Result<(string, string)> {
    var plaintext := DecryptString(c, encrypted);
    if plaintext.Err? then Err(plaintext.error) else
      var parts := Cut(plaintext.value, ':');
      if parts.None? then Err("invalid credential format") else Ok(parts.value)
  }

  /** Decoded, a vault is the nonce it was sealed with, and after it the sealed text. */
  lemma VaultShape(c: Codec, nonce: Option<string>, plaintext: string, vault: string)
    requires Lawful(c) && EncryptString(c, nonce, plaintext) == Ok(vault)
    ensures nonce.Some? && c.decode(vault) == Some(nonce.value + c.seal(nonce.value, plaintext))
  {
  }

  lemma StringRoundTrip(c: Codec, nonce: Option<string>, plaintext: string)
    requires Lawful(c) && (nonce.Some? ==> |nonce.value| == c.nonceSize)
    requires EncryptString(c, nonce, plaintext).Ok?
    ensures DecryptString(c, EncryptString(c, nonce, plaintext).value) == Ok(plaintext)
  {
    var n := nonce.value;
    var framed := n + c.seal(n, plaintext);
    assert framed[..|n|] == n && framed[|n|..] == c.seal(n, plaintext);
  }

  /** Credentials come back exactly when the access key has no colon; with one, they come back cut
      at its first colon. */
  lemma CredentialsRoundTrip(c: Codec, nonce: Option<string>, accessKey: string, secretKey: string)
    requires Lawful(c) && (nonce.Some? ==> |nonce.value| == c.nonceSize)
    requires EncryptCredentials(c, nonce, accessKey, secretKey).Ok?
    ensures var back := DecryptCredentials(c, EncryptCredentials(c, nonce, accessKey, secretKey).value);
            back.Ok? && (back == Ok((accessKey, secretKey)) <==> ':' !in accessKey)
  {
    StringRoundTrip(c, nonce, accessKey + ":" + secretKey);
    assert (accessKey + ":" + secretKey)[|accessKey|] == ':';
    if ':' !in accessKey {
      CutAt(accessKey, secretKey, ':');
    }
  }

  // ---------------------------------------------------------------- the record

  /** The two nonces drawn while saving. */
  datatype Nonces = Nonces(credentials: Option<string>, secret: Option<string>)

  ghost predicate Sized(c: Codec, n: Nonces) {
    (n.credentials.Some? ==> |n.credentials.value| == c.nonceSize) && (n.secret.Some? ==> |n.secret.value| == c.nonceSize)
  }

  function Secure(c: Codec, n: Nonces, cfg: Config): Result<Secured> {
    var vault := EncryptCredentials(c, n.credentials, cfg.accessKey, cfg.secretKey);
    if vault.Err? then Err(vault.error) else
      var s := Secured(cfg.region, vault.value, cfg.hostedZoneID, cfg.hostname, cfg.ttl,
                       cfg.ipCacheFile, cfg.ipSource, None);
      if cfg.server.None? then Ok(s) else
        var secret := EncryptString(c, n.secret, cfg.server.value.sharedSecret);
        if secret.Err? then Err(secret.error) else
          var v := cfg.server.value;
          Ok(s.(server := Some(SecureServer(v.bind, secret.value, v.allowedCIDRs, v.auditLog, v.wanInterface))))
  }

  function Unsecure(c: Codec, s: Secured): Result<Config> {
    var credentials := DecryptCredentials(c, s.vault);
    if credentials.Err? then Err(credentials.error) else
      var cfg := Config(s.region, credentials.value.0, credentials.value.1, s.hostedZoneID, s.hostname, s.ttl,
                        s.ipCacheFile, s.ipSource, "", "", None);
      if s.server.None? then Ok(cfg) else
        var secret := DecryptString(c, s.server.value.secretVault);
        if secret.Err? then Err(secret.error) else
          var v := s.server.value;
          Ok(cfg.(server := Some(Server(v.bind, secret.value, v.allowedCIDRs, v.auditLog, v.wanInterface))))
  }

  /** What a trip through the encrypted form keeps. */
  function Kept(cfg: Config): Config {
    cfg.(updateInterval := "", updateTimeout := "")
  }

  /** What is stored: every open field under its own name, the credentials and the shared secret only in
      vaults, which open to them. */
  lemma SecuredShows(c: Codec, n: Nonces, cfg: Config)
    requires Lawful(c) && Sized(c, n) && Secure(c, n, cfg).Ok?
    ensures var s := Secure(c, n, cfg).value;
            && s.region == cfg.region && s.hostedZoneID == cfg.hostedZoneID && s.hostname == cfg.hostname
            && s.ttl == cfg.ttl && s.ipCacheFile == cfg.ipCacheFile && s.ipSource == cfg.ipSource
            && DecryptString(c, s.vault) == Ok(cfg.accessKey + ":" + cfg.secretKey)
            && (s.server.Some? <==> cfg.server.Some?)
            && (cfg.server.Some? ==>
                 var v, u := cfg.server.value, s.server.value;
                 && u.bind == v.bind && u.allowedCIDRs == v.allowedCIDRs && u.auditLog == v.auditLog
                 && u.wanInterface == v.wanInterface && DecryptString(c, u.secretVault) == Ok(v.sharedSecret))
  {
    StringRoundTrip(c, n.credentials, cfg.accessKey + ":" + cfg.secretKey);
    if cfg.server.Some? {
      StringRoundTrip(c, n.secret, cfg.server.value.sharedSecret);
    }
  }

  /** A trip loads again; it loses exactly the update schedule and timeout if and only if the access
      key has no colon. */
  lemma SecureRoundTrip(c: Codec, n: Nonces, cfg: Config)
    requires Lawful(c) && Sized(c, n) && Secure(c, n, cfg).Ok?
    ensures var back := Unsecure(c, Secure(c, n, cfg).value);
            back.Ok? && (back == Ok(Kept(cfg)) <==> ':' !in cfg.accessKey)
  {
    CredentialsRoundTrip(c, n.credentials, cfg.accessKey, cfg.secretKey);
    if cfg.server.Some? {
      StringRoundTrip(c, n.secret, cfg.server.value.sharedSecret);
    }
  }

  /** A second trip, with whatever nonces, changes nothing more. */
  lemma SecondTripIsIdentity(c: Codec, n: Nonces, m: Nonces, cfg: Config)
    requires Lawful(c) && Sized(c, n) && Sized(c, m) && ':' !in cfg.accessKey
    requires Secure(c, n, cfg).Ok? && Unsecure(c, Secure(c, n, cfg).value).Ok?
    requires Secure(c, m, Unsecure(c, Secure(c, n, cfg).value).value).Ok?
    ensures var once := Unsecure(c, Secure(c, n, cfg).value).value;
            Unsecure(c, Secure(c, m, once).value) == Ok(once)
  {
    SecureRoundTrip(c, n, cfg);
    SecureRoundTrip(c, m, Unsecure(c, Secure(c, n, cfg).value).value);
  }

  // ---------------------------------------------------------------- files

  const CONFIG_PERM := 384   // 0600
  const SECURE_PERM := 256   // 0400

  datatype File = File(content: string, mode: int)

  type Files = map<string, File>

  /** `stat` and `read` say whether those calls work on a file that exists. */
  function LoadSecure(c: Codec, fs: Files, path: string, stat: bool, read: bool): Result<Config> {
    if path !in fs || !stat then Err("stat")
    else if fs[path].mode != CONFIG_PERM && fs[path].mode != SECURE_PERM then Err("insecure permissions")
    else if !read then Err("read")
    else
      var s := c.parse(fs[path].content);
      if s.None? then Err("parse") else Unsecure(c, s.value)
  }

  /** A file loads only if it is its owner's alone, to read or to read and write. */
  lemma LoadsOnlyPrivate(c: Codec, fs: Files, path: string, stat: bool, read: bool)
    ensures LoadSecure(c, fs, path, stat, read).Ok? ==>
              path in fs && (fs[path].mode == 4 * 0x40 || fs[path].mode == 6 * 0x40)
  {
  }

  /** How far an os.WriteFile gets: it fails to open the file, it truncates it and writes only so
      many bytes, or it writes everything. */
  datatype Write = NotOpened | Torn(n: nat) | Whole

  predicate Complete(w: Write, size: nat) {
    w.Whole? || (w.Torn? && w.n >= size)
  }

  /** Which calls of SaveSecure and of the wipe succeed. */
  datatype Calls = Calls(
    mkdir: bool, statSecure: bool, rewritable: bool, write: Write, chmod: bool, stat: bool, zero: Write, remove: bool)

  /** What a save needs to succeed. */
  predicate Saves(c: Codec, n: Nonces, cfg: Config, fs: Files, path: string, k: Calls) {
    var secured := Secure(c, n, cfg);
    && secured.Ok? && k.mkdir && k.chmod && Complete(k.write, |c.render(secured.value)|)
    && (k.statSecure && path in fs && fs[path].mode == SECURE_PERM ==> k.rewritable)
  }

  /** What the wipe of the plaintext needs to succeed. */
  predicate Wipes(fs: Files, plain: string, k: Calls) {
    k.stat && (plain in fs ==> Complete(k.zero, |fs[plain].content|) && k.remove)
  }

  function Zeros(size: nat): string {
    seq(size, _ => '\0')
  }

  predicate AllZero(t: string) {
    forall i :: 0 <= i < |t| ==> t[i] == '\0'
  }

  /** The last step removed the file, and the step before had left zeros of its old size in it. */
  ghost predicate ZeroedThenRemoved(trace: seq<Files>, path: string, size: nat) {
    && |trace| >= 2 && path !in trace[|trace| - 1] && path in trace[|trace| - 2]
    && |trace[|trace| - 2][path].content| == size && AllZero(trace[|trace| - 2][path].content)
  }

  /** Every state since `from` differs from `before` at `path` alone. */
  ghost predicate OnlySince(trace: seq<Files>, from: nat, before: Files, path: string) {
    from <= |trace| && forall i :: from <= i < |trace| ==> trace[i] - {path} == before - {path}
  }

  lemma OnlyChain(early: seq<Files>, late: seq<Files>, from: nat, before: Files, between: Files, path: string)
    requires early <= late && OnlySince(early, from, before, path)
    requires OnlySince(late, |early|, between, path) && between - {path} == before - {path}
    ensures OnlySince(late, from, before, path)
  {
    forall i | from <= i < |late|
      ensures late[i] - {path} == before - {path}
    {
      if i < |early| {
        assert late[i] == early[i];
      }
    }
  }

  /** `trace` records every state of the files that a crash could leave behind. */
  class Disk {
    var files: Files
    ghost var trace: seq<Files>

    constructor (files: Files)
      ensures this.files == files && trace == [files]
    {
      this.files, trace := files, [files];
    }

    method Put(path: string, f: File)
      modifies this
      ensures files == old(files)[path := f] && trace == old(trace) + [files]
    {
      files := files[path := f];
      trace := trace + [files];
    }

    method Chmod(path: string, mode: int, works: bool) returns (ok: bool)
      requires path in files
      modifies this
      ensures ok == works && files == (if works then old(files)[path := old(files)[path].(mode := mode)] else old(files))
      ensures trace == old(trace) + [files]
    {
      if works {
        files := files[path := files[path].(mode := mode)];
      }
      trace := trace + [files];
      ok := works;
    }

    /** os.WriteFile: an existing file keeps its mode, and is empty before it is written. */
    method WriteFile(path: string, data: string, perm: int, w: Write) returns (ok: bool)
      modifies this
      ensures old(trace) <= trace && OnlySince(trace, |old(trace)|, old(files), path)
      ensures files - {path} == old(files) - {path}
      ensures ok <==> Complete(w, |data|)
      ensures ok ==> |trace| > 0 && trace[|trace| - 1] == files
      ensures ok ==> path in files && files[path] == File(data, if path in old(files) then old(files)[path].mode else perm)
    {
      if w.NotOpened? {
        return false;
      }
      var mode := if path in files then files[path].mode else perm;
      Put(path, File("", mode));
      if w.Torn? && w.n < |data| {
        Put(path, File(data[..w.n], mode));
        return false;
      }
      Put(path, File(data, mode));
      ok := true;
    }

    method SaveSecure(c: Codec, n: Nonces, cfg: Config, path: string, k: Calls) returns (ok: bool)
      modifies this
      ensures old(trace) <= trace && OnlySince(trace, |old(trace)|, old(files), path)
      ensures files - {path} == old(files) - {path}
      ensures ok <==> Saves(c, n, cfg, old(files), path, k)
      ensures ok ==> path in files && files[path] == File(c.render(Secure(c, n, cfg).value), 4 * 0x40)
    {
      var secured := Secure(c, n, cfg);
      if secured.Err? || !k.mkdir {
        return false;
      }
      if k.statSecure && path in files && files[path].mode == SECURE_PERM {
        ok := Chmod(path, CONFIG_PERM, k.rewritable);
        if !ok {
          return;
        }
      }
      ghost var early, between := trace, files;
      ok := WriteFile(path, c.render(secured.value), SECURE_PERM, k.write);
      OnlyChain(early, trace, |old(trace)|, old(files), between, path);
      if !ok {
        return;
      }
      early, between := trace, files;
      ok := Chmod(path, SECURE_PERM, k.chmod);
      OnlyChain(early, trace, |old(trace)|, old(files), between, path);
    }

    /** Overwrite with zeros, then remove. */
    method Wipe(path: string, k: Calls) returns (ok: bool)
      requires path in files
      modifies this
      ensures old(trace) <= trace && OnlySince(trace, |old(trace)|, old(files), path)
      ensures files - {path} == old(files) - {path}
      ensures ok <==> Complete(k.zero, |old(files)[path].content|) && k.remove
      ensures ok ==> path !in files && ZeroedThenRemoved(trace, path, |old(files)[path].content|)
    {
      var zeros := Zeros(|files[path].content|);
      ok := WriteFile(path, zeros, CONFIG_PERM, k.zero);
      if !ok {
        return;
      }
      if !k.remove {
        return false;
      }
      files := files - {path};
      trace := trace + [files];
    }

    /** The wipe step of the migration; the secure file already loads. */
    method WipePlain(c: Codec, ghost before: Files, ghost loaded: Result<Config>, plain: string,
                     ghost secure: string, k: Calls)
      returns (ok: bool)
      requires plain != secure && SecureLoads(c, files, loaded, secure)
      modifies this
      ensures old(trace) <= trace && SafeSince(c, |old(trace)|, before, loaded, plain, secure)
      ensures SecureLoads(c, files, loaded, secure) && (ok ==> plain !in files)
      ensures ok <==> Wipes(old(files), plain, k)
      ensures ok && plain in old(files) ==> ZeroedThenRemoved(trace, plain, |old(files)[plain].content|)
      ensures secure in files && files[secure] == old(files)[secure]
    {
      if !k.stat {
        return false;
      }
      if plain !in files {
        return true;
      }
      ok := Wipe(plain, k);
      SecureKept(c, old(files), files, loaded, plain, secure);
      forall i | |old(trace)| <= i < |trace|
        ensures Safe(c, before, trace[i], loaded, plain, secure)
      {
        SecureKept(c, old(files), trace[i], loaded, plain, secure);
      }
    }

    ghost predicate SafeSince(c: Codec, from: nat, before: Files, loaded: Result<Config>, plain: string, secure: string)
      reads this
    {
      forall i :: from <= i < |trace| ==> Safe(c, before, trace[i], loaded, plain, secure)
    }

    /** The save step of the migration; the plaintext is not touched. */
    method SaveSafely(c: Codec, n: Nonces, cfg: Config, plain: string, secure: string, k: Calls) returns (ok: bool)
      requires Lawful(c) && Sized(c, n) && plain != secure
      modifies this
      ensures old(trace) <= trace && SafeSince(c, |old(trace)|, old(files), Ok(cfg), plain, secure)
      ensures Safe(c, old(files), files, Ok(cfg), plain, secure)
      ensures ok ==> SecureLoads(c, files, Ok(cfg), secure) && files[secure].mode == 4 * 0x40
      ensures ok <==> Saves(c, n, cfg, old(files), secure, k)
      ensures (plain in files <==> plain in old(files)) && (plain in files ==> files[plain] == old(files)[plain])
    {
      ok := SaveSecure(c, n, cfg, secure, k);
      SameElsewhere(old(files), files, secure, plain);
      PlainKept(c, old(files), files, Ok(cfg), plain, secure);
      forall i | |old(trace)| <= i < |trace|
        ensures Safe(c, old(files), trace[i], Ok(cfg), plain, secure)
      {
        PlainKept(c, old(files), trace[i], Ok(cfg), plain, secure);
      }
      if ok {
        SecureRoundTrip(c, n, cfg);
      }
    }

    /** MigrateToSecure; `loaded` is what config.Load returned. At every crash point either the
        plaintext file is as it was or the complete secure file loads; success, exactly when every
        call does its part, means that the plaintext is gone and the read-only secure file loads. */
    method MigrateToSecure(c: Codec, n: Nonces, loaded: Result<Config>, plain: string, secure: string, k: Calls)
      returns (ok: bool)
      requires Lawful(c) && Sized(c, n) && plain != secure
      modifies this
      ensures old(trace) <= trace && SafeSince(c, |old(trace)|, old(files), loaded, plain, secure)
      ensures Safe(c, old(files), files, loaded, plain, secure)
      ensures ok ==> plain !in files && SecureLoads(c, files, loaded, secure) && files[secure].mode == 4 * 0x40
      ensures ok <==> loaded.Ok? && Saves(c, n, loaded.value, old(files), secure, k) && Wipes(old(files), plain, k)
      ensures ok && plain in old(files) ==> ZeroedThenRemoved(trace, plain, |old(files)[plain].content|)
    {
      if loaded.Err? {
        return false;
      }
      ok := SaveSafely(c, n, loaded.value, plain, secure, k);
      if !ok {
        return;
      }
      ok := WipePlain(c, old(files), loaded, plain, secure, k);
    }
  }

  /** The secure file loads, and gives back what was loaded but for the update settings. */
  ghost predicate SecureLoads(c: Codec, fs: Files, loaded: Result<Config>, secure: string) {
    && secure in fs && loaded.Ok? && LoadSecure(c, fs, secure, true, true).Ok?
    && (':' !in loaded.value.accessKey ==> LoadSecure(c, fs, secure, true, true) == Ok(Kept(loaded.value)))
  }

  /** The plaintext is as it was, or the secure file loads. */
  ghost predicate Safe(c: Codec, before: Files, now: Files, loaded: Result<Config>, plain: string, secure: string) {
    (plain in before ==> plain in now && now[plain] == before[plain]) || SecureLoads(c, now, loaded, secure)
  }

  lemma PlainKept(c: Codec, before: Files, now: Files, loaded: Result<Config>, plain: string, secure: string)
    requires plain != secure && now - {secure} == before - {secure}
    ensures Safe(c, before, now, loaded, plain, secure)
  {
    SameElsewhere(before, now, secure, plain);
  }

  lemma SecureKept(c: Codec, saved: Files, now: Files, loaded: Result<Config>, plain: string, secure: string)
    requires plain != secure && now - {plain} == saved - {plain} && SecureLoads(c, saved, loaded, secure)
    ensures SecureLoads(c, now, loaded, secure) && now[secure] == saved[secure]
  {
    SameElsewhere(saved, now, plain, secure);
  }

  lemma SameElsewhere(a: Files, b: Files, changed: string, other: string)
    requires a - {changed} == b - {changed} && other != changed
    ensures other in a <==> other in b
    ensures other in a ==> a[other] == b[other]
  {
    assert other in a <==> other in a - {changed};
    assert other in b <==> other in b - {changed};
    if other in a {
      assert (a - {changed})[other] == a[other] && (b - {changed})[other] == b[other];
    }
  }
}

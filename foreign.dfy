/** Values exchanged with the libraries the vault model calls but does not
    implement: the OTP descriptor built by pyotp, and the cryptographic,
    JSON and OTP-URI routines, given as total functions so that every model
    member can be stated for whatever those libraries compute. */
module Foreign {

  newtype byte = x: int | 0 <= x < 256

  type Bytes = seq<byte>

  datatype Option<+T> = None | Some(value: T)

  /** The HMAC digest a descriptor uses. */
  datatype Digest = Sha1 | Sha256 | Sha512

  /** A time-based OTP descriptor (a `pyotp.TOTP`). An absent issuer or
      account name is the empty string. */
  datatype Totp = Totp(
    secret: string,
    issuer: string,
    name: string,
    digits: int,
    interval: int,
    digest: Digest)

  /** The routines of the cryptography, json and pyotp libraries:
      - newTotp: `pyotp.TOTP(secret, issuer=issuer, name=name)`, which
        fills in the library's defaults, does not check the secret and is
        assumed not to raise;
      - derive: PBKDF2-HMAC-SHA256 (480000 iterations, 32 bytes) of the
        UTF-8 password under the salt, then URL-safe base64;
      - encrypt / decrypt: Fernet under that key; decrypt yields None for
        an invalid token (wrong key or damaged ciphertext);
      - dumps: `json.dumps(list).encode()` of a list of strings;
      - loads: `json.loads`, None when it raises or the payload is not a
        list of strings;
      - parseUri: `pyotp.parse_uri`, None when it raises ValueError (the
        only exception it is assumed to raise);
      - generates: `totp.now()` returns a code instead of raising
        ValueError (the only exception it is assumed to raise);
      - provisioningUri: `totp.provisioning_uri()`. */
  datatype Primitives = Primitives(
    derive: (string, Bytes) -> Bytes,
    encrypt: (Bytes, Bytes) -> Bytes,
    decrypt: (Bytes, Bytes) -> Option<Bytes>,
    dumps: seq<string> -> Bytes,
    loads: Bytes -> Option<seq<string>>,
    newTotp: (string, string, string) -> Totp,
    parseUri: string -> Option<Totp>,
    generates: Totp -> bool,
    provisioningUri: Totp -> string)

  /** Authenticated encryption: decrypting under the encrypting key gives
      the plaintext back, and a Fernet token is never empty. */
  ghost predicate DecryptsOwnTokens(p: Primitives)
  {
    && (forall k, m :: p.decrypt(k, p.encrypt(k, m)) == Some(m))
    && (forall k, m :: |p.encrypt(k, m)| > 0)
  }

  /** A token made under one key does not decrypt under another. */
  ghost predicate RejectsOtherKeys(p: Primitives)
  {
    forall k, k', m :: k != k' ==> p.decrypt(k', p.encrypt(k, m)) == None
  }

  /** Loading what was dumped gives the same list of strings. */
  ghost predicate JsonRoundTrips(p: Primitives)
  {
    forall uris :: p.loads(p.dumps(uris)) == Some(uris)
  }

  /** The provisioning URI of `t` parses again, to a descriptor with the
      same URI. */
  ghost predicate UriRoundTrips(p: Primitives, t: Totp)
  {
    && p.parseUri(p.provisioningUri(t)).Some?
    && p.provisioningUri(p.parseUri(p.provisioningUri(t)).value) == p.provisioningUri(t)
  }

  /** Python's `s.startswith(prefix)`. */
  predicate StartsWith(s: string, prefix: string)
  {
    |prefix| <= |s| && s[..|prefix|] == prefix
  }

  /** Python's `s.endswith(suffix)`. */
  predicate EndsWith(s: string, suffix: string)
  {
    |suffix| <= |s| && s[|s| - |suffix|..] == suffix
  }
}

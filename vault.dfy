/** The state of the TOTP list model and the vault file, and the effect of
    each of its operations on that state, as functions of the old state.
    The class in module Miniauthy performs these steps imperatively. */
module Vault {
  import opened Foreign
  import opened Importer

  /** Length of the salt that heads the vault file. */
  const SALT_LENGTH := 16

  /** The fields of the model and the contents of the vault file (None
      while the file does not exist). */
  datatype VaultState = VaultState(
    totps: seq<Totp>,
    salt: Bytes,
    key: Bytes,
    unlocked: bool,
    failedToLoad: bool,
    file: Option<Bytes>)

  /** A fresh model: no entries, empty salt and key, locked, not failed. */
  function Initial(file: Option<Bytes>): VaultState
  {
    VaultState([], [], [], false, false, file)
  }

  /** While the model is unlocked, the vault file exists and its first
      SALT_LENGTH bytes are the salt the key was derived with. */
  predicate Consistent(s: VaultState)
  {
    s.unlocked ==>
      && s.file.Some?
      && |s.salt| == SALT_LENGTH
      && |s.file.value| >= SALT_LENGTH
      && s.file.value[..SALT_LENGTH] == s.salt
  }

  /** The provisioning URI of every entry, in list order. */
  function Uris(p: Primitives, totps: seq<Totp>): seq<string>
  {
    seq(|totps|, i requires 0 <= i < |totps| => p.provisioningUri(totps[i]))
  }

  /** The vault file layout: salt, then the token of the JSON list of URIs. */
  function Image(p: Primitives, salt: Bytes, key: Bytes, totps: seq<Totp>): Bytes
  {
    salt + p.encrypt(key, p.dumps(Uris(p, totps)))
  }

  /** `_save`: overwrite the vault file with the image of the current state.
      Only reached once a key has been derived; under the empty key the
      source raises, as the empty string is not a Fernet key. */
  function SaveStep(p: Primitives, s: VaultState): (r: VaultState)
    ensures r.(file := s.file) == s
    ensures r.file.Some? && |r.file.value| >= |s.salt| && r.file.value[..|s.salt|] == s.salt
    ensures DecryptsOwnTokens(p) ==>
      p.decrypt(s.key, r.file.value[|s.salt|..]) == Some(p.dumps(Uris(p, s.totps)))
  {
    var image := Image(p, s.salt, s.key, s.totps);
    assert image[|s.salt|..] == p.encrypt(s.key, p.dumps(Uris(p, s.totps)));
    s.(file := Some(image))
  }

  /** `[pyotp.parse_uri(u) for u in uris]`: None when any URI fails to parse. */
  function ParseAll(p: Primitives, uris: seq<string>): (r: Option<seq<Totp>>)
    ensures r.Some? <==> forall i :: 0 <= i < |uris| ==> p.parseUri(uris[i]).Some?
    ensures r.Some? ==>
      && |r.value| == |uris|
      && forall i :: 0 <= i < |uris| ==> p.parseUri(uris[i]) == Some(r.value[i])
  {
    if uris == [] then Some([])
    else
      match p.parseUri(uris[0])
      case None => None
      case Some(t) =>
        match ParseAll(p, uris[1..])
        case None => None
        case Some(ts) => Some([t] + ts)
  }

  datatype UnlockOutcome =
    | Ignored   // the file is shorter than the salt: nothing happens
    | Rejected  // the token did not decrypt: failedToLoad is set
    | Raised    // the payload did not load or a URI did not parse: the exception escapes
    | Created   // there was no file: an empty vault is created and saved
    | Opened    // the vault was read and replaces the list

  datatype Unlocking = Unlocking(outcome: UnlockOutcome, state: VaultState)

  /** `unlock(password)`; `random` is what `os.urandom(16)` returns. */
  function UnlockStep(p: Primitives, s: VaultState, password: string, random: Bytes): (r: Unlocking)
    requires |random| == SALT_LENGTH
    // which of the five outcomes happens
    ensures r.outcome == Ignored <==> s.file.Some? && |s.file.value| < SALT_LENGTH
    ensures r.outcome == Created <==> s.file.None?
    ensures r.outcome in {Rejected, Raised} ==> s.file.Some? && |s.file.value| > SALT_LENGTH
    ensures s.file.Some? && |s.file.value| == SALT_LENGTH ==> r.outcome == Opened && r.state.totps == []
    // the failure outcomes change nothing but failedToLoad
    ensures r.outcome in {Ignored, Raised} ==> r.state == s
    ensures r.outcome == Rejected ==> r.state == s.(failedToLoad := true)
    ensures s.failedToLoad ==> r.state.failedToLoad
    // success: unlocked, keyed from the password and the salt that heads the file
    ensures r.outcome in {Created, Opened} ==>
      && r.state.unlocked
      && r.state.failedToLoad == s.failedToLoad
      && r.state.key == p.derive(password, r.state.salt)
      && Consistent(r.state)
    ensures r.outcome == Created ==>
      && r.state.salt == random
      && r.state.totps == []
      && r.state.file == Some(random + p.encrypt(r.state.key, p.dumps([])))
    ensures r.outcome == Opened ==> r.state.file == s.file
    // a file longer than the salt: the token under the derived key decides
    ensures s.file.Some? && |s.file.value| > SALT_LENGTH ==>
      var salt := s.file.value[..SALT_LENGTH];
      var plain := p.decrypt(p.derive(password, salt), s.file.value[SALT_LENGTH..]);
      && (r.outcome == Rejected <==> plain.None?)
      && (r.outcome == Opened <==>
            plain.Some? && p.loads(plain.value).Some? && ParseAll(p, p.loads(plain.value).value).Some?)
      && (r.outcome == Opened ==>
            Some(r.state.totps) == ParseAll(p, p.loads(plain.value).value) && r.state.salt == salt)
    // an unlocked vault stays unlocked with the same salt
    ensures s.unlocked && Consistent(s) ==> r.state.unlocked && r.state.salt == s.salt
  {
    if s.file.Some? && |s.file.value| < SALT_LENGTH then Unlocking(Ignored, s)
    else
      var data := if s.file.Some? then s.file.value else random;
      var salt := data[..SALT_LENGTH];
      var key := p.derive(password, salt);
      if |data| > SALT_LENGTH then
        match p.decrypt(key, data[SALT_LENGTH..])
        case None => Unlocking(Rejected, s.(failedToLoad := true))
        case Some(plain) =>
          match p.loads(plain)
          case None => Unlocking(Raised, s)
          case Some(uris) =>
            match ParseAll(p, uris)
            case None => Unlocking(Raised, s)
            case Some(totps) =>
              Unlocking(Opened, s.(totps := totps, salt := salt, key := key, unlocked := true))
      else
        var loaded := s.(totps := [], salt := salt, key := key);
        if s.file.None? then
          var saved := SaveStep(p, loaded);
          assert [] + p.encrypt(key, p.dumps([])) == p.encrypt(key, p.dumps([]));
          assert Uris(p, []) == [];
          Unlocking(Created, saved.(unlocked := true))
        else Unlocking(Opened, loaded.(unlocked := true))
  }

  datatype Adding = Adding(index: int, state: VaultState)

  /** `add(issuer, name, secret)`. On a locked model an entry that would be
      appended makes `_save` raise, so that path is excluded. */
  function AddStep(p: Primitives, s: VaultState, issuer: string, name: string, secret: string): (r: Adding)
    requires s.unlocked || !p.generates(p.newTotp(secret, issuer, name))
    ensures r.index == -1 <==> !p.generates(p.newTotp(secret, issuer, name))
    ensures r.index == -1 ==> r.state == s
    ensures r.index != -1 ==>
      && r.state.totps == s.totps + [p.newTotp(secret, issuer, name)]
      && r.index == |s.totps| == |r.state.totps| - 1
      && r.state.file == Some(Image(p, s.salt, s.key, r.state.totps))
      && r.state.(totps := s.totps, file := s.file) == s
    ensures Consistent(s) ==> Consistent(r.state)
  {
    var t := p.newTotp(secret, issuer, name);
    if !p.generates(t) then Adding(-1, s)
    else
      var s' := SaveStep(p, s.(totps := s.totps + [t]));
      Adding(|s'.totps| - 1, s')
  }

  /** `importFromFile`, given the parsed document. On a locked model a
      non-empty find makes `_save` raise, so that path is excluded. */
  function ImportStep(p: Primitives, s: VaultState, doc: Json): (r: VaultState)
    requires s.unlocked || Search(p, doc) == []
    ensures r.totps == s.totps + Search(p, doc)
    ensures Search(p, doc) == [] ==> r == s
    ensures Search(p, doc) != [] ==> r.file == Some(Image(p, s.salt, s.key, r.totps))
    ensures r.(totps := s.totps, file := s.file) == s
    ensures Consistent(s) ==> Consistent(r)
  {
    var found := Search(p, doc);
    if found == [] then s else SaveStep(p, s.(totps := s.totps + found))
  }

  /** The display-role text of a row: "issuer for name", or whichever of
      the two is non-empty. */
  function Label(t: Totp): (r: string)
    ensures r == "" <==> t.issuer == "" && t.name == ""
    ensures t.issuer == "" ==> r == t.name
    ensures t.name == "" ==> r == t.issuer
    ensures t.issuer != "" ==> StartsWith(r, t.issuer)
    ensures t.name != "" ==> EndsWith(r, t.name)
    ensures t.issuer != "" && t.name != "" ==>
      |r| == |t.issuer| + 5 + |t.name| && r[|t.issuer|..|t.issuer| + 5] == " for "
  {
    if t.issuer != "" then
      if t.name != "" then t.issuer + " for " + t.name else t.issuer
    else t.name
  }
}

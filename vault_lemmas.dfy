/** Properties that relate several operations of the vault: what unlocking
    a saved file reads back, and what a whole session of calls keeps. */
module VaultLemmas {
  import opened Foreign
  import opened Importer
  import opened Vault

  /** Unlocking a file written by `_save` with the password its key came
      from decrypts and loads exactly the saved URI list, then parses it. */
  lemma ImageOpens(p: Primitives, t: VaultState, salt: Bytes, key: Bytes, totps: seq<Totp>,
                   password: string, random: Bytes)
    requires DecryptsOwnTokens(p) && JsonRoundTrips(p)
    requires |salt| == SALT_LENGTH && |random| == SALT_LENGTH
    requires key == p.derive(password, salt)
    requires t.file == Some(Image(p, salt, key, totps))
    ensures UnlockStep(p, t, password, random) ==
      match ParseAll(p, Uris(p, totps))
      case None => Unlocking(Raised, t)
      case Some(ts) => Unlocking(Opened, t.(totps := ts, salt := salt, key := key, unlocked := true))
  {
  }

  /** Persistence fidelity: after a save, unlocking the file with the same
      password, in this model or a fresh one, gives back the same salt, the
      same key and the same list of entries, compared by provisioning URI. */
  lemma ReopenRestoresEntries(p: Primitives, t: VaultState, salt: Bytes, key: Bytes, totps: seq<Totp>,
                              password: string, random: Bytes)
    requires DecryptsOwnTokens(p) && JsonRoundTrips(p)
    requires forall u :: u in totps ==> UriRoundTrips(p, u)
    requires |salt| == SALT_LENGTH && |random| == SALT_LENGTH
    requires key == p.derive(password, salt)
    requires t.file == Some(Image(p, salt, key, totps))
    ensures UnlockStep(p, t, password, random).outcome == Opened
    ensures UnlockStep(p, t, password, random).state.salt == salt
    ensures UnlockStep(p, t, password, random).state.key == key
    ensures Uris(p, UnlockStep(p, t, password, random).state.totps) == Uris(p, totps)
  {
    var uris := Uris(p, totps);
    forall i | 0 <= i < |uris|
      ensures p.parseUri(uris[i]).Some?
    {
      assert UriRoundTrips(p, totps[i]);
    }
    var parsed := ParseAll(p, uris).value;
    forall i | 0 <= i < |totps|
      ensures p.provisioningUri(parsed[i]) == uris[i]
    {
      assert UriRoundTrips(p, totps[i]);
    }
  }

  /** A password whose key differs from the one the file was saved under
      only sets failedToLoad: the entries, salt, key and file stay. */
  lemma WrongPasswordOnlyFails(p: Primitives, t: VaultState, salt: Bytes, key: Bytes, totps: seq<Totp>,
                               password: string, random: Bytes)
    requires DecryptsOwnTokens(p) && RejectsOtherKeys(p)
    requires |salt| == SALT_LENGTH && |random| == SALT_LENGTH
    requires p.derive(password, salt) != key
    requires t.file == Some(Image(p, salt, key, totps))
    ensures UnlockStep(p, t, password, random) == Unlocking(Rejected, t.(failedToLoad := true))
  {
  }

  /** First run creates the file, so `firstTime` turns false, and unlocking
      it again with the same password opens an empty vault under the same
      salt and key. */
  lemma FirstRunThenReopen(p: Primitives, s: VaultState, password: string, random: Bytes, random': Bytes)
    requires DecryptsOwnTokens(p) && JsonRoundTrips(p)
    requires s.file.None?
    requires |random| == SALT_LENGTH && |random'| == SALT_LENGTH
    ensures UnlockStep(p, s, password, random).outcome == Created
    ensures UnlockStep(p, s, password, random).state.file.Some?
    ensures
      var first := UnlockStep(p, s, password, random).state;
      var again := UnlockStep(p, first, password, random');
      again.outcome == Opened && again.state.totps == [] &&
      again.state.salt == first.salt == random && again.state.key == first.key
  {
  }

  /** A call the window can make on the model. */
  datatype Call =
    | UnlockCall(password: string, random: Bytes)
    | AddCall(issuer: string, name: string, secret: string)
    | ImportCall(doc: Json)

  predicate WellFormed(c: Call)
  {
    c.UnlockCall? ==> |c.random| == SALT_LENGTH
  }

  /** A session of calls on an unlocked model: it stays unlocked, the salt
      is never rotated and keeps heading the file, and failedToLoad is
      never reset. */
  function Run(p: Primitives, s: VaultState, calls: seq<Call>): (r: VaultState)
    requires s.unlocked && Consistent(s)
    requires forall i :: 0 <= i < |calls| ==> WellFormed(calls[i])
    ensures r.unlocked && Consistent(r)
    ensures r.salt == s.salt
    ensures s.failedToLoad ==> r.failedToLoad
    decreases |calls|
  {
    if calls == [] then s
    else
      assert WellFormed(calls[0]);
      var next :=
        match calls[0]
        case UnlockCall(password, random) => UnlockStep(p, s, password, random).state
        case AddCall(issuer, name, secret) => AddStep(p, s, issuer, name, secret).state
        case ImportCall(doc) => ImportStep(p, s, doc);
      assert forall i :: 0 <= i < |calls[1..]| ==> WellFormed(calls[1..][i]) by {
        forall i | 0 <= i < |calls[1..]| ensures WellFormed(calls[1..][i]) {
          assert calls[1..][i] == calls[i + 1];
        }
      }
      Run(p, next, calls[1..])
  }
}

/** The list model behind the authenticator's window: the ordered OTP
    entries, the salt and key of the encrypted vault file, and the unlocked
    and failed-to-load flags, updated in place by unlock, add and import. */
module Miniauthy {
  import opened Foreign
  import opened Importer
  import opened Vault

  /** The item-data roles the model answers. */
  datatype Role = DisplayRole | UserRole | OtherRole

  datatype Cell = Text(text: string) | Descriptor(totp: Totp)

  class TotpModel {
    /** The library routines the model calls. */
    const prims: Primitives

    var totps: seq<Totp>
    var salt: Bytes
    var key: Bytes
    var unlocked: bool
    var failedToLoad: bool
    /** Contents of the vault file; None while it does not exist. */
    var file: Option<Bytes>

    function State(): VaultState
      reads this
    {
      VaultState(totps, salt, key, unlocked, failedToLoad, file)
    }

    ghost predicate Valid()
      reads this
    {
      Consistent(State())
    }

    constructor (prims: Primitives, file: Option<Bytes>)
      ensures this.prims == prims
      ensures State() == Initial(file) && Valid()
    {
      this.prims := prims;
      totps, salt, key := [], [], [];
      unlocked, failedToLoad := false, false;
      this.file := file;
    }

    /** `firstTime`: the vault file does not exist yet. */
    predicate FirstTime()
      reads this
      ensures FirstTime() <==> file.None?
      ensures Valid() && unlocked ==> !FirstTime()
    {
      file.None?
    }

    method Unlock(password: string, random: Bytes) returns (outcome: UnlockOutcome)
      requires Valid() && |random| == SALT_LENGTH
      modifies this
      ensures Valid()
      ensures Unlocking(outcome, State()) == UnlockStep(prims, old(State()), password, random)
      ensures old(failedToLoad) ==> failedToLoad
      ensures outcome == Created ==> old(FirstTime()) && !FirstTime()
    {
      var data: Bytes;
      if file.Some? {
        data := file.value;
        if |data| < SALT_LENGTH {
          return Ignored;
        }
      } else {
        data := random;
      }
      var newSalt := data[..SALT_LENGTH];
      var newKey := prims.derive(password, newSalt);
      var uris: seq<string> := [];
      if |data| > SALT_LENGTH {
        var plain := prims.decrypt(newKey, data[SALT_LENGTH..]);
        if plain.None? {
          failedToLoad := true;
          return Rejected;
        }
        var decoded := prims.loads(plain.value);
        if decoded.None? {
          return Raised;
        }
        uris := decoded.value;
      }
      var parsed: seq<Totp> := [];
      var i := 0;
      while i < |uris|
        invariant 0 <= i <= |uris|
        invariant |parsed| == i
        invariant forall k :: 0 <= k < i ==> prims.parseUri(uris[k]) == Some(parsed[k])
      {
        var t := prims.parseUri(uris[i]);
        if t.None? {
          return Raised;
        }
        parsed := parsed + [t.value];
        i := i + 1;
      }
      ghost var all := ParseAll(prims, uris);
      assert all.Some? && |all.value| == |parsed|;
      assert forall k :: 0 <= k < |parsed| ==> all.value[k] == parsed[k];
      assert all.value == parsed;
      var firstRun := file.None?;
      totps := parsed;
      salt, key := newSalt, newKey;
      if firstRun {
        Save();
      }
      unlocked := true;
      outcome := if firstRun then Created else Opened;
    }

    /** `_save`: overwrite the vault file with the salt and the token of the
        JSON list of provisioning URIs. It is only called once unlocking has
        derived a key: under the empty key of a never-unlocked model the
        source raises, as the empty string is not a Fernet key. */
    method Save()
      modifies this`file
      ensures State() == SaveStep(prims, old(State()))
    {
      file := Some(Image(prims, salt, key, totps));
    }

    /** `rowCount`: the number of entries for the (invalid) root parent, none
        under a valid parent; the rows are exactly those `Data` answers. */
    function RowCount(parentValid: bool): (n: nat)
      reads this
      ensures parentValid ==> n == 0
      ensures !parentValid ==> forall row :: 0 <= row < n <==> Data(row, DisplayRole).Some?
    {
      if parentValid then 0 else |totps|
    }

    /** `add(issuer, name, secret)`: -1 when the new descriptor cannot
        generate a code, otherwise its row after appending and saving. */
    method Add(issuer: string, name: string, secret: string) returns (index: int)
      requires Valid() && (unlocked || !prims.generates(prims.newTotp(secret, issuer, name)))
      modifies this
      ensures Valid()
      ensures Adding(index, State()) == AddStep(prims, old(State()), issuer, name, secret)
    {
      var newTotp := prims.newTotp(secret, issuer, name);
      if !prims.generates(newTotp) {
        return -1;
      }
      totps := totps + [newTotp];
      Save();
      index := |totps| - 1;
    }

    /** `importFromFile` on the document the file parses to: append every
        descriptor the search finds and save once if there was any. */
    method ImportFromFile(doc: Json)
      requires Valid() && (unlocked || Search(prims, doc) == [])
      modifies this
      ensures Valid()
      ensures State() == ImportStep(prims, old(State()), doc)
    {
      var found := Search(prims, doc);
      if found != [] {
        totps := totps + found;
        Save();
      }
    }

    /** `data(index, role)`: nothing for a row outside the list or another
        role; the label for the display role; the descriptor for the user role. */
    function Data(row: int, role: Role): (r: Option<Cell>)
      reads this
      ensures r.Some? <==> 0 <= row < |totps| && role != OtherRole
      ensures r.Some? && role == DisplayRole ==> r.value == Text(Label(totps[row]))
      ensures r.Some? && role == UserRole ==> r.value == Descriptor(totps[row])
    {
      if !(0 <= row < |totps|) then None
      else
        match role
        case DisplayRole => Some(Text(Label(totps[row])))
        case UserRole => Some(Descriptor(totps[row]))
        case OtherRole => None
    }
  }
}

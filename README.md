# miniauthy vault model in Dafny

A model of `TOTPModel`, the list model at the heart of miniauthy, a small
desktop TOTP authenticator. The model keeps an ordered list of OTP
descriptors and the salt and key of an encrypted vault file. It also keeps
two flags: `unlocked` and `failedToLoad`.

- `unlock(password)` reads the vault file. The file's first 16 bytes are the
  salt. The key is derived from the password and that salt. The rest of the
  file is decrypted and parsed into the list.
- With no file, `unlock` creates an empty vault under a random salt and saves
  it.
- A file shorter than 16 bytes is ignored.
- A token that does not decrypt only sets `failedToLoad`.
- `add` and `importFromFile` append descriptors. Then they rewrite the whole
  file as `salt ++ encrypt(key, json(list of provisioning URIs))`.
- `rowCount` and `data` give the view its rows and labels.

Files:

- `foreign.dfy` (module `Foreign`): bytes, `Option`, and the descriptor
  `Totp`. It also holds `Primitives`, the library routines the model calls:
  key derivation, Fernet encryption and decryption, JSON dump and load,
  the `pyotp.TOTP` constructor, `pyotp.parse_uri`, the `.now()` check and `provisioning_uri`. Each one is a
  total function passed in as a value. The properties assumed of them are
  ghost predicates (`DecryptsOwnTokens`, `RejectsOtherKeys`,
  `JsonRoundTrips`, and `UriRoundTrips` for a single descriptor). Only the
  lemmas that need them take them as preconditions. The string predicates
  `StartsWith` and `EndsWith` live here too.
- `importer.dfy` (module `Importer`): the JSON value and the recursive
  search of `importFromFile`. It also holds a reference definition that
  flattens the document to its string leaves and then selects the accepted
  ones. Lemmas connect the search to that reference.
- `vault.dfy` (module `Vault`): the model's fields as a value, `VaultState`.
  Each operation is a function from the old state: `UnlockStep`, `SaveStep`,
  `AddStep`, `ImportStep`. Each function's contract states the operation's
  behaviour. `Consistent` is the invariant that, while unlocked, the file
  exists and starts with the salt. `Label` is the display text.
- `miniauthy.dfy` (module `Miniauthy`): the class `TotpModel`. Its fields
  are updated in place by `Unlock`, `Save`, `Add` and `ImportFromFile`. Each
  method is proved to produce exactly the state its `Vault` function gives.
  `Unlock` parses the URI list in a loop, as the source's list comprehension
  does. `RowCount`, `Data` and the `FirstTime` predicate read the state.
- `vault_lemmas.dfy` (module `VaultLemmas`): properties that span several
  calls. These cover reopening a saved file, the wrong-password case, first
  run then reopen, and a whole session of calls.

## Model

| member | source | states |
|---|---|---|
| Importer.Search | miniauthy.py:107-121 | The search recurses into lists and dictionary values and yields a descriptor only from a string. Every descriptor it yields can generate a code. |
| Importer.SearchItems | miniauthy.py:108-110 | A list is searched element by element; everything yielded can generate a code. |
| Importer.SearchValues | miniauthy.py:111-113 | A dictionary is searched value by value, in entry order; everything yielded can generate a code. |
| Importer.SearchIsSelectOfLeaves | miniauthy.py:107-121 | The generator yields, in depth-first document order, exactly the sequence obtained by flattening the document to its string leaves and keeping the accepted ones. |
| Importer.SearchItemsIsSelect | miniauthy.py:108-110 | For a list, the search equals selection over the list's flattened string leaves. |
| Importer.SearchValuesIsSelect | miniauthy.py:111-113 | For dictionary values, the search equals selection over their flattened string leaves. |
| Importer.Yield | miniauthy.py:114-121 | A string yields at most one descriptor, and yields t exactly when it starts with `otpauth://totp`, parses to t, and t generates a code; a failed parse or code is swallowed. |
| Importer.SelectKeepsExactlyAccepted | miniauthy.py:114-121 | Selection gives t if and only if some input string starts with `otpauth://totp`, parses to t, and t generates a code. |
| Importer.SearchFindsExactlyAccepted | miniauthy.py:107-121 | A descriptor is found if and only if some string leaf of the document starts with the scheme, parses to it, and it generates a code. |
| Importer.SearchIgnoresKeys | miniauthy.py:111-113 | Dictionary keys play no part: the same values in the same order yield the same descriptors. |
| Vault.SaveStep | miniauthy.py:81-84 | Saving changes only the file. The new file starts with the salt. With authenticated encryption, the rest decrypts under the key to the JSON list of the entries' URIs. |
| Vault.ParseAll | miniauthy.py:73 | Parsing the URI list succeeds if and only if every URI parses. The result then has one descriptor per URI, in order. |
| Vault.UnlockStep | miniauthy.py:48-79 | The outcome is Ignored exactly for an existing file shorter than 16 bytes, which changes nothing. It is Created exactly when there is no file. Rejected sets only failedToLoad. Raised (an escaping exception) changes nothing. A 16-byte file opens to an empty list without decrypting. Success sets unlocked, keeps failedToLoad, derives the key from the password and the salt, and leaves the salt at the head of the file. First run saves salt ++ encrypt(key, json([])) under the random salt. For a file longer than 16 bytes, the token under the key derived from the password and the file's salt decides: Rejected exactly when it does not decrypt, Opened exactly when it decrypts, loads as a list of strings and every URI parses, and the list is then exactly those parsed URIs, under the file's salt. failedToLoad is never reset. An unlocked vault stays unlocked with the same salt. |
| Vault.AddStep | miniauthy.py:90-100 | On an unlocked model, or on a locked one when the new descriptor fails (the path that does not reach `_save`): the result is -1 exactly when the new descriptor cannot generate a code, and then nothing changes. Otherwise exactly one entry is appended after the old ones, the result is the old length (the new length minus one), and the file is rewritten from the new list. Nothing else changes, and the salt stays at the head of the file. |
| Vault.ImportStep | miniauthy.py:123-132 | On an unlocked model, or on a locked one when nothing is found: the list becomes the old list followed by what the search found. The file is rewritten, once, exactly when something was found. Nothing else changes. |
| Vault.Label | miniauthy.py:146-155 | The label is empty exactly when issuer and name are both empty. It is the name when there is no issuer and the issuer when there is no name. Otherwise it is the issuer, then " for ", then the name. |
| Miniauthy.TotpModel.constructor | miniauthy.py:23-29 | A new model has no entries, empty salt and key, and is neither unlocked nor failed. |
| Miniauthy.TotpModel.FirstTime | miniauthy.py:37-39 | firstTime holds exactly when the vault file does not exist, so it is false whenever the model is unlocked and consistent. |
| Miniauthy.TotpModel.Unlock | miniauthy.py:48-79 | The fields and file after the call, and the outcome, are those of UnlockStep. The invariant is kept, failedToLoad is never reset, and a Created outcome turns firstTime from true to false. |
| Miniauthy.TotpModel.Save | miniauthy.py:81-84 | The file becomes salt ++ encrypt(key, dumps(URIs)); no other field changes. |
| Miniauthy.TotpModel.RowCount | miniauthy.py:86-87 | No rows under a valid parent. Under the root, the rows are exactly those for which `Data` answers. |
| Miniauthy.TotpModel.Add | miniauthy.py:90-100 | On the same inputs as AddStep, the returned index and the new state are those of AddStep, and the invariant is kept. |
| Miniauthy.TotpModel.ImportFromFile | miniauthy.py:103-132 | On the same inputs as ImportStep, the new state is that of ImportStep on the parsed document, and the invariant is kept. |
| Miniauthy.TotpModel.Data | miniauthy.py:134-157 | Data answers only for a row inside the list and the display or user role. It gives the row's label for the display role and the row's descriptor for the user role. |
| VaultLemmas.ImageOpens | miniauthy.py:55-73 | For a file written by `_save`, unlocking with the password the key came from decrypts and loads exactly the saved URI list. Then it opens with that list parsed, or raises if a URI does not parse. |
| VaultLemmas.ReopenRestoresEntries | miniauthy.py:48-84 | Persistence fidelity: after a save, unlocking with the same password opens the vault. This holds in the same model or a new one. The salt and key are the same, and the entries are the same by provisioning URI. The URI round trip is assumed only for the saved entries. |
| VaultLemmas.WrongPasswordOnlyFails | miniauthy.py:61-67 | A password whose derived key differs from the saving key is rejected. Only failedToLoad changes; entries, salt, key, unlocked and the file stay. |
| VaultLemmas.FirstRunThenReopen | miniauthy.py:48-84 | Unlocking with no file creates the file, so firstTime becomes false. Unlocking it again with the same password opens an empty vault under the same salt and key. |
| VaultLemmas.Run | miniauthy.py:48-132 | Over any session of unlock, add and import calls on an unlocked model, the model stays unlocked. The salt is never rotated and stays at the head of the file, and failedToLoad is never reset. |

## Left out

- OTP code computation (HMAC truncation, section 5.3 of RFC 4226, and time steps, section 4.2 of RFC 6238) lives in pyotp. The model uses only whether `.now()` returns a code (`Primitives.generates`). pyotp is not part of this model.
- PBKDF2-HMAC-SHA256 (section 5.2 of RFC 8018) with its base64 wrapping, and Fernet encryption, are foreign calls. They are the functions `derive`, `encrypt` and `decrypt`. Round trip, non-empty tokens and wrong-key rejection are assumed properties, passed to the lemmas that use them.
- Fernet's fresh IV and timestamp per token are not modelled: `encrypt` is a function of key and plaintext.
- `os.urandom(16)` is the parameter `random` of `Unlock`, required to be 16 bytes long.
- `json.dumps`, `json.loads` and `json.load` are not modelled. `ImportFromFile` takes the already-parsed document. A payload that does not load as a list of strings is the `Raised` outcome. A JSON dictionary is a list of key-value entries in document order. Duplicate keys, which `json.load` collapses, are not modelled.
- File I/O is the field `file` (None when the file is absent). Reading or opening the import file and the exceptions that raises are not modelled. Reads and writes of the vault file (`read_bytes` in `unlock`, `write_bytes` in `_save`) are assumed to succeed. A failed write after the append in `add` or the extend in `importFromFile` would leave the list and the file out of step; that is not modelled. Neither is a crash between truncation and the full write.
- Vault.AddStep: on a locked model, only the path where the new descriptor generates a code is excluded. There the source appends the entry and then `_save` raises, because the empty key is not a Fernet key. A locked `add` whose descriptor fails returns -1 and is modelled.
- Miniauthy.TotpModel.Add: excludes the same appending path as Vault.AddStep.
- Vault.ImportStep: on a locked model, only a non-empty find is excluded, since it is appended and then `_save` raises. A locked import that finds nothing is a no-op and is modelled.
- Miniauthy.TotpModel.ImportFromFile: excludes the same appending path as Vault.ImportStep.
- The library calls in `add` and `_recursiveSearch` are assumed to raise only `ValueError`, which the source catches. `pyotp.TOTP(...)` is assumed not to raise, and `parse_uri` and `.now()` to raise only `ValueError`. Any other exception would escape `add` rather than return -1, and would abort `importFromFile` before anything is appended. Those paths are not modelled.
- Miniauthy.TotpModel.Data: `checkIndex` is modelled by the row alone. The model is a flat one-column list, so column and parent checks add nothing.
- An issuer or name that pyotp leaves as None is the empty string. Both are false in the source's truthiness tests.
- Qt change notifications (`beginResetModel`, `beginInsertRows`, signals) are not modelled. Neither are the property wrappers `unlocked` and `failedToLoad`, which read the fields.
- The `TOTP` QObject class (timer, clipboard, floating-point `timeLeft`) and the `__main__` bootstrap are not part of this model.
- A file shorter than 16 bytes is ignored: `unlock` returns and nothing changes. It is not treated as a first run.
- A decrypted payload that loads as a JSON object is iterated by its keys in the source, and one that loads as a string by its characters.
  - `{}` and `""` open an empty vault.
  - A non-empty string raises in `parse_uri`.
  - A non-empty object opens with its keys parsed when every key parses, and raises otherwise.
  - The model's `loads` accepts only a list of strings, so it gives `Raised` for all of these.
  - Fernet tokens written by `_save` always hold a list, so this only concerns foreign files.
- The `pyotp.TOTP` constructor is the foreign function `newTotp`. Its defaults (6 digits, 30 seconds, SHA-1, and any default name it substitutes for an empty one) belong to pyotp and are not fixed by the model, so the label of an added row is stated over whatever descriptor `newTotp` returns.

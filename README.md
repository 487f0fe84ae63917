# aws-auth command handlers, modelled in Dafny

This project models the two command handlers of the aws-auth CLI, a local
broker of AWS sessions.

- `login` is in `login_action.dfy`. It picks a profile, an environment and a
  role. It exchanges the profile's long-lived credentials and an MFA code for
  temporary role credentials through STS. It then caches the result as a
  session in the CLI configuration and saves the configuration, sealed again
  under the same passphrase when it was loaded with one.
- `crypto` is in `crypto_action.dfy`. It offers encryption for a plain
  configuration file, and decryption or a passphrase change for an encrypted
  one. It then performs the selected action and saves its result.

Supporting modules:

- `sessions.dfy` holds the session cache. `findIndex` returns the first entry
  with the new session's composite name `profile/environment/role`. The new
  session replaces that entry in place, or is appended when there is none.
  It is written as a class whose `entries` field the `Upsert` method updates.
  The method is proved against the function `Upserted`, and the properties of
  `Upserted` are proved as lemmas: length, position, nothing else changes,
  distinct names stay distinct, exactly one entry per name, idempotence.
- `strings.dfy` holds the JavaScript string operations the handlers use:
  `includes`, `split` with `pop`, and the template-literal joins.
- `config_store.dfy` holds the configuration records, the configuration file
  (a class that counts its saves) and the cipher.
- `wrappers.dfy` holds `Option` and `Result`.

The cipher is modelled symbolically. `Encrypt(c, k)` is an envelope
`Sealed(c, k)`. `Decrypt` opens an envelope only under the key it was sealed
with, and never opens a plain file. So the round trip
`Decrypt(Encrypt(c, k), k) == Some(c)` and the failure under any other key are
proved facts of the model, not assumptions.

Each `process.exit(1)` of the source becomes a `Failure` result. A handler that
returns a failure leaves the configuration file unchanged.

Collaborators become parameters:

- The prompt answers are passed in as `Answers`, or as a menu position.
- The STS calls, the ARN helpers `constructRoleArn` and `constructMfaArn`, the
  operating-system user name and `Date.now()` are passed in as `Externals`.
- The values returned by the unseen configuration helpers are passed in too.

The session cache is updated in place (`splice`/`push`,
src/actions/login.js:118-123). Provider errors are classified by substrings of
the message and by the error code, in the order of
src/actions/login.js:87-103; anything unclassified is rethrown, and there is
no separate transient category.

## Model

| member | source | states |
|---|---|---|
| `Sessions.IndexOfName` | src/actions/login.js:118 | `findIndex` by name: -1 exactly when no entry has the name; otherwise an index in range whose entry has the name and before which no entry does |
| `Sessions.FindIndex` | src/actions/login.js:118 | the linear scan returns exactly the first index with the name, or -1 |
| `Sessions.IndexOfNameAt` | src/actions/login.js:118 | a position holding the name, with no earlier position holding it, is the one `findIndex` returns |
| `Sessions.Upserted` | src/actions/login.js:118-123 | when the name exists: same length, the first such index holds the new session, every other index keeps its old entry; otherwise: length plus one, old prefix unchanged, new session last |
| `Sessions.SessionCache.constructor` | src/actions/login.js:109 | the cache starts from the sessions of the loaded configuration |
| `Sessions.SessionCache.Upsert` | src/actions/login.js:118-123 | `findIndex` then `splice(idx, 1, s)` or `push(s)` leaves exactly `Upserted(old entries, s)` |
| `Sessions.UpsertedFindsNew` | src/actions/login.js:118-123 | after the upsert the new session is the first entry with its name: at the old index when it replaced one, at the old length when appended |
| `Sessions.UpsertIdempotent` | src/actions/login.js:118-123 | upserting the same session twice equals upserting it once |
| `Sessions.UpsertKeepsNamesDistinct` | src/actions/login.js:118-123 | pairwise-distinct names stay pairwise distinct, and exactly one entry carries the new name, namely the new session |
| `Sessions.UpsertLeavesOtherNames` | src/actions/login.js:118-123 | a lookup under any other name finds the same index and the same entry as before |
| `Sessions.UpsertNames` | src/actions/login.js:118-123 | the set of names afterwards is the old set plus the new session's name |
| `Sessions.ReplacesInPlace` | src/actions/login.js:118-120 | upserting C, named like A, into [A, B] gives [C, B]: A's position is kept, nothing is appended |
| `LoginAction.Classify` | src/actions/login.js:87-103 | the ordered classification: "Duration" in the message gives DurationExceeded; otherwise "MultiFactorAuthentication" or "MFA" gives WrongMfa; otherwise code AccessDenied gives AccessDenied; otherwise Rethrow; each case in both directions |
| `LoginAction.DurationMentionWins` | src/actions/login.js:87-90 | any message with "Duration" somewhere in it classifies as DurationExceeded, also when it mentions MFA, whatever the code |
| `LoginAction.MfaMentionIsWrongMfa` | src/actions/login.js:91-94 | any message with "MFA" in it and no "Duration" classifies as WrongMfa, also when the code is AccessDenied |
| `LoginAction.DurationSeconds` | src/actions/login.js:80 | the seconds are a whole multiple of 3600 whose quotient is the hours; the prompt's range of 1 to 12 hours gives 3600 to 43200 seconds |
| `LoginAction.Username` | src/actions/login.js:65 | `split('/').pop()` of the caller ARN: a slash-free suffix of the ARN directly after its last '/', or the whole ARN when it has no '/' |
| `LoginAction.SessionNameFields` | src/actions/login.js:111 | the cache key `profile/env/role` splits at '/' back into its three fields when they are slash-free |
| `LoginAction.SessionNameInjective` | src/actions/login.js:111 | distinct slash-free profile/environment/role triples give distinct cache keys |
| `LoginAction.SessionName` | src/actions/login.js:111 | the cache key is the profile, environment and role names joined by '/' |
| `LoginAction.SessionNameCollision` | src/actions/login.js:111 | names holding a '/' can collide: profile "a/b" with environment "c" and profile "a" with environment "b/c" give the same key for role "d" |
| `LoginAction.RoleSessionName` | src/actions/login.js:77 | the role session name is the OS user, the username, the environment, the role and the timestamp joined by '-' |
| `LoginAction.StsParams` | src/actions/login.js:75-81 | the request carries the role ARN of the chosen account and role, the '-'-joined role session name with the username from the caller ARN, the MFA ARN of the caller in the hub account, the typed code, and the hours as whole seconds |
| `LoginAction.NewSession` | src/actions/login.js:110-117 | the session is keyed by profile/environment/role, carries the environment's region, and copies key id, secret, token and expiry from the returned credentials |
| `LoginAction.RoleSessionNameFields` | src/actions/login.js:77 | the role session name `user-username-env-role-time` splits at '-' back into its five fields when they hold no '-' |
| `LoginAction.Authenticate` | src/actions/login.js:10-117 | no profiles gives NoProfiles first; a profile without environments gives NoEnvironments; a failed `getCallerIdentity` gives CallerIdentityFailed; past those, a successful `assumeRole` gives exactly `NewSession` of the returned credentials and a failed one gives AssumeRoleFailed with that very error and its classification; a session results only when caller identity and `assumeRole` both succeeded, named `profile/env/role`, with the environment's region and the returned key id, secret, token and expiry |
| `LoginAction.Login` | src/actions/login.js:10-125 | given the configuration and passphrase the file was loaded with, every failure leaves the configuration file untouched and unsaved; a success saves exactly once the loaded configuration with its sessions upserted, sealed under the passphrase it was loaded with |
| `LoginAction.NoProfilesAborts` | src/actions/login.js:16-19 | an empty profile list aborts the command with NoProfiles whatever else happens |
| `LoginAction.RejectedAssumeRoleAborts` | src/actions/login.js:84-104 | a failed `assumeRole` ends the command with AssumeRoleFailed carrying that error and its classification, so no session reaches the save |
| `LoginAction.DurationErrorIsNotCached` | src/actions/login.js:84-90 | an `assumeRole` error whose message mentions "Duration" ends the command as DurationExceeded, whatever the code, and no session is cached |
| `Strings.Contains` | src/actions/login.js:87-91 | `includes`: the empty string is included everywhere, and an included string is no longer than the text |
| `Strings.ContainsHasOccurrence` | src/actions/login.js:87-91 | whenever `includes` is true there is a position where the substring occurs |
| `Strings.ContainsAt` | src/actions/login.js:87 | an occurrence of the substring at any position makes `includes` true |
| `Strings.ContainsInfix` | src/actions/login.js:91 | a string built around a substring includes it |
| `Strings.Split` | src/actions/login.js:65 | `split` gives at least one part, and no part contains the separator |
| `Strings.Join` | src/actions/login.js:111 | the joined string is at least as long as the first part plus one separator between each pair of parts |
| `Strings.Last` | src/actions/login.js:65 | `pop` removes and returns the last element: what remains followed by the popped element is the original array |
| `Strings.SplitSingle` | src/actions/login.js:65 | a string splits into one part exactly when it has no separator, and that part is the string itself |
| `Strings.SplitAround` | src/actions/login.js:111 | splitting a + sep + b is splitting a followed by splitting b |
| `Strings.JoinSplit` | src/actions/login.js:65 | joining the parts of a split with the separator gives the string back |
| `Strings.SplitJoin` | src/actions/login.js:111 | splitting a join of separator-free parts gives the parts back |
| `Strings.LastOfSplitStep` | src/actions/login.js:65 | the last part of a split of a non-empty string is the whole string when its tail has no separator and it does not start with one, else the last part of the tail's split |
| `Strings.LastPartIsFinalSegment` | src/actions/login.js:65 | the last part of a split holds no separator, ends the string, and directly follows a separator unless it is the whole string |
| `ConfigStore.IsEncrypted` | src/actions/crypto.js:15 | a file counts as encrypted exactly when some passphrase decrypts it |
| `ConfigStore.Encrypt` | src/actions/crypto.js:37 | the result is recognised as encrypted, decrypts under its key to the plaintext, and decrypts under no other key |
| `ConfigStore.Decrypt` | src/actions/crypto.js:44 | decryption under k succeeds only on the envelope of its result sealed under k, so never on a plain file or under a wrong key |
| `ConfigStore.DecryptInvertsEncrypt` | src/actions/crypto.js:44 | decrypting under k yields c exactly when the file is the encryption of c under k |
| `ConfigStore.Persisted` | src/actions/login.js:125 | the saved form is encrypted exactly when a passphrase is given, and then decrypts under it to the configuration; otherwise it is the plain configuration |
| `ConfigStore.ConfigFile.constructor` | src/actions/crypto.js:14 | the file starts with the loaded contents and no saves |
| `ConfigStore.ConfigFile.SaveAsIs` | src/actions/crypto.js:38 | the file holds exactly the saved value, and the save count grows by one |
| `CryptoAction.BranchesExclusive` | src/actions/crypto.js:4-8 | the three Action values are distinct, so exactly one branch test holds for any selection |
| `CryptoAction.Menu` | src/actions/crypto.js:19-25 | an encrypted file gets exactly [DECRYPT_CONFIG, CHANGE_PASSCODE] in that order; a plain file gets exactly [ENCRYPT_CONFIG]; each action is offered exactly in its state |
| `CryptoAction.Saved` | src/actions/crypto.js:35-55 | ENCRYPT_CONFIG is reachable only for a plain file and saves what decrypts under the new key to that config; DECRYPT_CONFIG saves the plaintext whose encryption under the passphrase is the loaded file; CHANGE_PASSCODE saves what decrypts under the new key to the old plaintext and, for a different key, no longer opens under the old one; the decrypting actions fail exactly when the passphrase does not open the file |
| `CryptoAction.EncryptSealsPlaintext` | src/actions/crypto.js:35-39 | a plain file is offered encryption, and it saves `Encrypt(config, newKey)` |
| `CryptoAction.DecryptRestoresPlaintext` | src/actions/crypto.js:43-46 | for a file sealed under k, decryption is offered and saves the original plaintext |
| `CryptoAction.ChangePassphraseRekeys` | src/actions/crypto.js:50-55 | for a file sealed under k, the passphrase change saves `Encrypt(plaintext, newKey)`, which decrypts under newKey to the original plaintext |
| `CryptoAction.Crypto` | src/actions/crypto.js:13-58 | the selection is taken from the menu built for the loaded file; a success saves exactly once, exactly what `Saved` gives for that selection; a failure saves nothing |

## Left out

- `AWS.config.update` and `new AWS.STS()` (src/actions/login.js:36-37) are not modelled. They are global SDK configuration. The two STS calls are passed in: `callerIdentity` is a result value and `assumeRole` is a function of the request.
- `AWSUtils.constructRoleArn` and `AWSUtils.constructMfaArn` are opaque function parameters. The ARN helpers are not part of this model.
- `AWSUtils.constructAwsConfig` and the feature-flagged writes to the AWS credential files (src/actions/login.js:127-131) are not modelled. They are a file-output side effect after the save.
- The real cipher is not modelled: key derivation, fresh salt and IV, and the authentication tag. `Encrypt` is deterministic here, while the real one is not. Cryptographic strength cannot be stated in this model.
- `ConfUtils.loadCliConfig` and `ConfUtils.loadConfigAsIs` are not part of this model. `Login` takes their results as parameters: the plain configuration and the passphrase, if any. `Crypto` reads the file's current contents.
- `ConfUtils.decryptConfigWithRetry` is not part of this model, and its retry loop is not modelled. It is reduced to the passphrase it finally settles on. A passphrase that does not open the file stands for the user giving up: the command fails and saves nothing.
- `ConfUtils.saveCliConfig` is not part of this model. Its effect is `Persisted`: encrypt under the loaded passphrase when there is one.
- `ConfUtils.getNewEncryptionKey` is not modelled; the new passphrase is the parameter `newKey`.
- Interactive prompts are not modelled. Their answers are parameters. A selection is an index into the offered list whenever that list is non-empty. The role is whatever string the role prompt returned. Cancelling a prompt is not modelled, because `Utils.prompts` is not part of this model.
- Console messages, colours and `process.exit` are not modelled. An exit, a rethrown `assumeRole` error and a failing `getCallerIdentity` all become `Failure` results of the handler.
- `os.userInfo().username` and `Date.now()` are parameters. The timestamp is taken already rendered as a decimal string.
- An `assumeRole` error without a string `message` is not modelled. In the source, `includes` would throw a TypeError there.
- Hours are modelled as integers. A fractional answer of the number prompt is not modelled.
- Aliasing of the `sessions` array is not modelled. In the source it is the configuration's own array, changed in place and then assigned back. The model copies it into a `SessionCache`, updates it there and writes it back, which gives the same saved value.
- LoginAction.SessionNameInjective: distinct keys are proved only for profile, environment and role names without a '/'. The source does not enforce that; `LoginAction.SessionNameCollision` shows two different profile/environment pairs that share a key, so a login to one silently replaces the session cached for the other.
- The default `[]` for a missing `profiles` or `sessions` property is not modelled separately: a configuration always holds both sequences, with [] for a missing one.
- CryptoAction.Crypto: "exactly one save" is stated for a successful run only; a run whose passphrase does not open the file saves nothing.

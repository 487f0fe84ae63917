/**
 * The CLI configuration as the two command handlers see it: the records it
 * holds, the file that stores it either in plain text or sealed under a
 * passphrase, and the symmetric cipher, modelled symbolically.
 */
module ConfigStore {
  import opened Wrappers

  /** A passphrase (the secret key the user types). */
  type Key = string

  /** One account of a profile: its name, account id, region and assumable roles. */
  datatype Environment = Environment(name: string, accountId: string, region: string, roles: seq<string>)

  /** A saved profile: display name, long-lived credentials (opaque here) and environments. */
  datatype Profile = Profile(name: string, awsCredentials: string, environments: seq<Environment>)

  /** A cached session, keyed by the composite `name` profile/environment/role. */
  datatype Session = Session(name: string, region: string, keyId: string, key: string,
                             sessionToken: string, expiry: string)

  /** The plaintext configuration. A missing `profiles` or `sessions` property reads as []. */
  datatype Config = Config(profiles: seq<Profile>, sessions: seq<Session>)

  /**
   * What the configuration file holds. `Sealed(payload, sealedWith)` stands for
   * the authenticated-encryption envelope of `payload` under the passphrase
   * `sealedWith`; the model never looks inside it except through `Decrypt`.
   */
  datatype Stored = Plain(config: Config) | Sealed(payload: Config, sealedWith: Key)

  /** `ConfUtils.isEncrypted`: the file holds an envelope rather than a plain config. */
  predicate IsEncrypted(s: Stored)
    ensures IsEncrypted(s) <==> exists k :: Decrypt(s, k).Some?
  {
    if s.Sealed? then assert Decrypt(s, s.sealedWith).Some?; true else false
  }

  /**
   * `ConfUtils.encryptConfig`: the envelope is recognised as encrypted, opens
   * under its key to the plaintext, and opens under no other key.
   */
  function Encrypt(c: Config, k: Key): (e: Stored)
    ensures IsEncrypted(e)
    ensures Decrypt(e, k) == Some(c)
    ensures forall other :: other != k ==> Decrypt(e, other) == None
  {
    Sealed(c, k)
  }

  /**
   * Decryption of a stored value: it fails on a plain file and under a wrong
   * key, and succeeds only on the envelope of its result under `k`.
   */
  function Decrypt(s: Stored, k: Key): (r: Option<Config>)
    ensures r.Some? ==> s == Sealed(r.value, k)
  {
    match s
    case Plain(_) => None
    case Sealed(p, key) => if key == k then Some(p) else None
  }

  /** Authenticated decryption: whatever decrypts under `k` is exactly the encryption of its plaintext under `k`. */
  lemma DecryptInvertsEncrypt(s: Stored, k: Key, c: Config)
    ensures Decrypt(s, k) == Some(c) <==> s == Encrypt(c, k)
  {
  }

  /**
   * The form `ConfUtils.saveCliConfig(config, passphrase)` writes: encrypted
   * under the passphrase the config was loaded with, in plain text when it was
   * loaded without one.
   */
  function Persisted(c: Config, passphrase: Option<Key>): (s: Stored)
    ensures IsEncrypted(s) <==> passphrase.Some?
    ensures passphrase.Some? ==> Decrypt(s, passphrase.value) == Some(c)
    ensures passphrase.None? ==> s.Plain? && s.config == c
  {
    match passphrase
    case None => Plain(c)
    case Some(k) => Encrypt(c, k)
  }

  /**
   * The configuration file on disk. `saves` counts the writes made so far, so
   * that a contract can say how many times a command saved.
   */
  class ConfigFile {
    var stored: Stored
    var saves: nat

    constructor (initial: Stored)
      ensures stored == initial && saves == 0
    {
      stored := initial;
      saves := 0;
    }

    /** `ConfUtils.saveConfigAsIs`: overwrite the file with `s`. */
    method SaveAsIs(s: Stored)
      modifies this
      ensures stored == s
      ensures saves == old(saves) + 1
    {
      stored := s;
      saves := saves + 1;
    }
  }
}

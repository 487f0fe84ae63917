/**
 * The `crypto` command: offer the operations that make sense for the file as
 * loaded (encrypt a plain file; decrypt or re-key an encrypted one), then
 * perform the one selected and save its result.
 */
module CryptoAction {
  import opened Wrappers
  import opened ConfigStore

  /** The three operations; as distinct constructors no two of them are equal. */
  datatype Action = EncryptConfig | DecryptConfig | ChangePasscode

  /** A menu entry: the text shown and the action it selects. */
  datatype Choice = Choice(title: string, value: Action)

  /** The decryption step found no passphrase that opens the file (the user gave up). */
  datatype CryptoError = PassphraseRejected

  /** Whatever was selected, exactly one of the handler's three branch tests holds. */
  lemma BranchesExclusive(selection: Action)
    ensures (if selection == EncryptConfig then 1 else 0)
          + (if selection == DecryptConfig then 1 else 0)
          + (if selection == ChangePasscode then 1 else 0) == 1
  {
  }

  /** Some entry of the menu selects `a`. */
  predicate Offers(m: seq<Choice>, a: Action) {
    exists i :: 0 <= i < |m| && m[i].value == a
  }

  /**
   * The menu built from `isEncrypted`: decrypting and changing the passphrase,
   * in that order, for an encrypted file; encrypting alone for a plain one.
   */
  function Menu(encrypted: bool): (m: seq<Choice>)
    ensures |m| == if encrypted then 2 else 1
    ensures encrypted ==> m[0].value == DecryptConfig && m[1].value == ChangePasscode
    ensures !encrypted ==> m[0].value == EncryptConfig
    ensures Offers(m, EncryptConfig) <==> !encrypted
    ensures Offers(m, DecryptConfig) <==> encrypted
    ensures Offers(m, ChangePasscode) <==> encrypted
  {
    if encrypted then
      [Choice("Decrypt the configuration file", DecryptConfig),
       Choice("Change config file passphrase", ChangePasscode)]
    else
      [Choice("Encrypt the configuration file", EncryptConfig)]
  }

  /**
   * What the selected action saves, given the file as loaded, the passphrase
   * that unlocks it (for the decrypting actions) and the new passphrase (for
   * the encrypting ones).
   */
  function Saved(loaded: Stored, action: Action, passphrase: Key, newKey: Key): (r: Result<Stored, CryptoError>)
    requires Offers(Menu(IsEncrypted(loaded)), action)
    ensures action == EncryptConfig ==>
      && !IsEncrypted(loaded) && r.Success? && IsEncrypted(r.value)
      && Decrypt(r.value, newKey) == Some(loaded.config)
    ensures action != EncryptConfig ==>
      IsEncrypted(loaded) && (r.Success? <==> Decrypt(loaded, passphrase).Some?)
    ensures action == DecryptConfig && r.Success? ==>
      !IsEncrypted(r.value) && Encrypt(r.value.config, passphrase) == loaded
    ensures action == ChangePasscode && r.Success? ==>
      && IsEncrypted(r.value)
      && Decrypt(r.value, newKey) == Decrypt(loaded, passphrase)
      && (newKey != passphrase ==> Decrypt(r.value, passphrase) == None)
  {
    match action
    case EncryptConfig => Success(Encrypt(loaded.config, newKey))
    case DecryptConfig =>
      (match Decrypt(loaded, passphrase)
       case None => Failure(PassphraseRejected)
       case Some(c) => Success(Plain(c)))
    case ChangePasscode =>
      (match Decrypt(loaded, passphrase)
       case None => Failure(PassphraseRejected)
       case Some(c) => Success(Encrypt(c, newKey)))
  }

  /** Encrypting a plain file saves an envelope that opens under the new passphrase to the same config. */
  lemma EncryptSealsPlaintext(c: Config, passphrase: Key, newKey: Key)
    ensures Offers(Menu(IsEncrypted(Plain(c))), EncryptConfig)
    ensures Saved(Plain(c), EncryptConfig, passphrase, newKey) == Success(Encrypt(c, newKey))
  {
  }

  /** Decrypting a file sealed under `k`, with `k`, saves the original plaintext. */
  lemma DecryptRestoresPlaintext(c: Config, k: Key, newKey: Key)
    ensures Offers(Menu(IsEncrypted(Encrypt(c, k))), DecryptConfig)
    ensures Saved(Encrypt(c, k), DecryptConfig, k, newKey) == Success(Plain(c))
  {
  }

  /** Changing the passphrase of a file sealed under `k` re-seals the same plaintext under `newKey`. */
  lemma ChangePassphraseRekeys(c: Config, k: Key, newKey: Key)
    ensures Offers(Menu(IsEncrypted(Encrypt(c, k))), ChangePasscode)
    ensures Saved(Encrypt(c, k), ChangePasscode, k, newKey) == Success(Encrypt(c, newKey))
    ensures Decrypt(Saved(Encrypt(c, k), ChangePasscode, k, newKey).value, newKey) == Some(c)
  {
  }

  /**
   * The `crypto` handler. `pick` is the menu position the prompt returned,
   * `passphrase` the one the decrypt-with-retry step settled on and `newKey`
   * the one `getNewEncryptionKey` asked for. The three branches are tested in
   * sequence on the one selection, so exactly one runs: a success saves once,
   * exactly what `Saved` gives; a failure saves nothing.
   */
  method Crypto(file: ConfigFile, pick: nat, passphrase: Key, newKey: Key)
    returns (r: Result<Action, CryptoError>)
    requires pick < |Menu(IsEncrypted(file.stored))|
    modifies file
    ensures var selection := Menu(IsEncrypted(old(file.stored)))[pick].value;
      var outcome := Saved(old(file.stored), selection, passphrase, newKey);
      && (r.Success? <==> outcome.Success?)
      && (r.Success? ==> r.value == selection && file.stored == outcome.value
                         && file.saves == old(file.saves) + 1)
    ensures r.Failure? ==> unchanged(file)
  {
    var loaded := file.stored;
    var isEncrypted := IsEncrypted(loaded);
    var choices := Menu(isEncrypted);
    var selection := choices[pick].value;
    assert Offers(choices, selection);
    r := Success(selection);

    if selection == EncryptConfig {
      var encrypted := Encrypt(loaded.config, newKey);
      file.SaveAsIs(encrypted);
    }

    if selection == DecryptConfig {
      var decrypted := Decrypt(loaded, passphrase);
      if decrypted.None? {
        return Failure(PassphraseRejected);
      }
      file.SaveAsIs(Plain(decrypted.value));
    }

    if selection == ChangePasscode {
      var decrypted := Decrypt(loaded, passphrase);
      if decrypted.None? {
        return Failure(PassphraseRejected);
      }
      var encrypted := Encrypt(decrypted.value, newKey);
      file.SaveAsIs(encrypted);
    }
  }
}

/** The storage format of encrypted profile fields, and what decrypting a stored field yields. */
module FieldEncryption {
  import opened Wrappers

  /** AES-256-GCM and padded base64 (section 4 of RFC 4648), as functions on byte strings. */
  datatype Cipher = Cipher(
    seal: (string, string, string) -> string,
    open: (string, string, string) -> Option<string>,
    encode: string -> string,
    decode: string -> Option<string>)

  const KEY_LENGTH := 32
  const NONCE_LENGTH := 12
  const PREFIX := "$enc1$"

  /** Opening undoes sealing under the same key and nonce and never yields more bytes than it was
      given; decoding undoes encoding and never yields more bytes than it was given. */
  ghost predicate Lawful(c: Cipher) {
    && (forall key, nonce, text :: (c.open)(key, nonce, (c.seal)(key, nonce, text)) == Some(text))
    && (forall key, nonce, ct :: (c.open)(key, nonce, ct).Some? ==> |(c.open)(key, nonce, ct).value| <= |ct|)
    && (forall bytes :: (c.decode)((c.encode)(bytes)) == Some(bytes))
    && (forall text :: (c.decode)(text).Some? ==> |(c.decode)(text).value| <= |text|)
  }

  datatype CryptError = BadKeyLength | BadEncoding | TooShort | NotAuthentic

  predicate IsEncrypted(stored: string) { PREFIX <= stored }

  function Encrypt(c: Cipher, key: string, plaintext: string, nonce: string): Result<string, CryptError> {
    if plaintext == "" then Ok("")
    else if |key| != KEY_LENGTH then Err(BadKeyLength)
    else Ok(PREFIX + (c.encode)(nonce + (c.seal)(key, nonce, plaintext)))
  }

  function Decrypt(c: Cipher, key: string, stored: string): Result<string, CryptError> {
    if !IsEncrypted(stored) then Ok(stored)
    else if |key| != KEY_LENGTH then Err(BadKeyLength)
    else
      var raw := (c.decode)(stored[|PREFIX|..]);
      if raw.None? then Err(BadEncoding)
      else if |raw.value| < NONCE_LENGTH then Err(TooShort)
      else
        var plaintext := (c.open)(key, raw.value[..NONCE_LENGTH], raw.value[NONCE_LENGTH..]);
        if plaintext.None? then Err(NotAuthentic) else Ok(plaintext.value)
  }

  /** What saving does to one field. */
  function EncryptField(c: Cipher, key: string, field: string, nonce: string): Result<string, CryptError> {
    if IsEncrypted(field) || field == "" then Ok(field) else Encrypt(c, key, field, nonce)
  }

  lemma DecryptInvertsEncrypt(c: Cipher, key: string, plaintext: string, nonce: string)
    requires Lawful(c) && |key| == KEY_LENGTH && |nonce| == NONCE_LENGTH
    ensures Encrypt(c, key, plaintext, nonce).Ok?
    ensures Decrypt(c, key, Encrypt(c, key, plaintext, nonce).value) == Ok(plaintext)
  {
    if plaintext != "" {
      var sealed := (c.seal)(key, nonce, plaintext);
      var stored := PREFIX + (c.encode)(nonce + sealed);
      assert stored[|PREFIX|..] == (c.encode)(nonce + sealed);
      assert (nonce + sealed)[..NONCE_LENGTH] == nonce && (nonce + sealed)[NONCE_LENGTH..] == sealed;
    }
  }

  /** Saving never changes what a field decrypts to, errors included, whether the field was
      plaintext, ciphertext or neither. */
  lemma SavingKeepsTheMeaning(c: Cipher, key: string, field: string, nonce: string)
    requires Lawful(c) && |key| == KEY_LENGTH && |nonce| == NONCE_LENGTH
    ensures EncryptField(c, key, field, nonce).Ok?
    ensures Decrypt(c, key, EncryptField(c, key, field, nonce).value) == Decrypt(c, key, field)
  {
    DecryptInvertsEncrypt(c, key, field, nonce);
  }

  /** So a plaintext field comes back if and only if it does not start with the marker. */
  lemma PlaintextComesBackIff(c: Cipher, key: string, field: string, nonce: string)
    requires Lawful(c) && |key| == KEY_LENGTH && |nonce| == NONCE_LENGTH
    ensures Decrypt(c, key, EncryptField(c, key, field, nonce).value) == Ok(field) <==> !IsEncrypted(field)
  {
    SavingKeepsTheMeaning(c, key, field, nonce);
    if IsEncrypted(field) && Decrypt(c, key, field).Ok? {
      var raw := (c.decode)(field[|PREFIX|..]).value;
      assert |Decrypt(c, key, field).value| <= |raw| < |field|;
    }
  }

  /** Saving leaves no sensitive plaintext, and never encrypts twice. */
  lemma SavedFieldsAreEncryptedOnce(c: Cipher, key: string, field: string, nonce: string, again: string)
    requires |key| == KEY_LENGTH
    ensures var saved := EncryptField(c, key, field, nonce).value;
            && (saved == "" || IsEncrypted(saved))
            && EncryptField(c, key, saved, again) == Ok(saved)
            && (IsEncrypted(field) ==> saved == field)
  {
  }

  // ---- What decrypts, and to what ---------------------------------------------------

  /** A stored text without the marker is taken as it is, whatever the key. One with the marker decrypts
      if and only if the key has 32 bytes and the rest encodes a nonce of 12 bytes and a ciphertext that
      the cipher opens under them; and then it gives what the cipher gives. */
  lemma DecryptsIff(c: Cipher, key: string, stored: string, plaintext: string)
    ensures Decrypt(c, key, stored) == Ok(plaintext) <==>
              if "$enc1$" <= stored then
                && |key| == 32
                && exists nonce, sealed :: && |nonce| == 12 && (c.decode)(stored[6..]) == Some(nonce + sealed)
                                           && (c.open)(key, nonce, sealed) == Some(plaintext)
              else plaintext == stored
  {
    if "$enc1$" <= stored && |key| == 32 {
      var raw := (c.decode)(stored[6..]);
      if Decrypt(c, key, stored) == Ok(plaintext) {
        assert raw.value == raw.value[..12] + raw.value[12..];
        assert |raw.value[..12]| == 12;
      }
      forall nonce, sealed | |nonce| == 12 && raw == Some(nonce + sealed)
        ensures raw.value[..12] == nonce && raw.value[12..] == sealed
      {
      }
    }
  }

  /** Why a text with the marker does not decrypt: the length of the key, then the encoding, then the
      missing nonce, then the cipher. */
  lemma DecryptionErrors(c: Cipher, key: string, text: string)
    ensures Decrypt(c, key, "$enc1$" + text) == Err(BadKeyLength) <==> |key| != 32
    ensures Decrypt(c, key, "$enc1$" + text) == Err(BadEncoding) <==> |key| == 32 && (c.decode)(text) == None
    ensures Decrypt(c, key, "$enc1$" + text) == Err(TooShort) <==>
              |key| == 32 && (c.decode)(text).Some? && |(c.decode)(text).value| < 12
    ensures Decrypt(c, key, "$enc1$" + text) == Err(NotAuthentic) <==>
              && |key| == 32 && (c.decode)(text).Some? && |(c.decode)(text).value| >= 12
              && (c.open)(key, (c.decode)(text).value[..12], (c.decode)(text).value[12..]) == None
  {
    assert ("$enc1$" + text)[6..] == text;
  }

  /** What is stored for a text: nothing for the empty one, and otherwise the marker and the encoding of
      the nonce and the ciphertext; only a key of another length than 32 fails. */
  lemma EncryptedText(c: Cipher, key: string, plaintext: string, nonce: string)
    ensures plaintext == "" ==> Encrypt(c, key, plaintext, nonce) == Ok("")
    ensures plaintext != "" && |key| == 32 ==>
              Encrypt(c, key, plaintext, nonce) == Ok("$enc1$" + (c.encode)(nonce + (c.seal)(key, nonce, plaintext)))
    ensures plaintext != "" && |key| != 32 ==> Encrypt(c, key, plaintext, nonce) == Err(BadKeyLength)
    ensures EncryptField(c, key, plaintext, nonce) ==
              if "$enc1$" <= plaintext then Ok(plaintext) else Encrypt(c, key, plaintext, nonce)
  {
  }

  /** Under another key, if the cipher refuses the ciphertext, a stored field is an error; so is one whose
      ciphertext was changed to something the cipher refuses. */
  lemma WrongKeyFails(c: Cipher, key: string, other: string, plaintext: string, nonce: string)
    requires Lawful(c) && |key| == 32 && |nonce| == 12 && plaintext != "" && !("$enc1$" <= plaintext)
    ensures EncryptField(c, key, plaintext, nonce).Ok?
    ensures Decrypt(c, other, EncryptField(c, key, plaintext, nonce).value).Err? <==>
              |other| != 32 || (c.open)(other, nonce, (c.seal)(key, nonce, plaintext)) == None
  {
    var sealed := (c.seal)(key, nonce, plaintext);
    DecryptionErrors(c, other, (c.encode)(nonce + sealed));
    assert (nonce + sealed)[..12] == nonce && (nonce + sealed)[12..] == sealed;
  }
}

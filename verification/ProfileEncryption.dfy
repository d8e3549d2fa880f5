/** Encryption of a profile's sensitive fields when a store is saved, and their decryption after it
    is loaded. */
module ProfileEncryption {
  import opened Wrappers
  import opened FieldEncryption
  import opened Authentication

  /** The random nonces of one save, one per field. */
  datatype Nonces = Nonces(department: string, team: string, role: string)

  predicate GoodNonces(n: Nonces) {
    |n.department| == NONCE_LENGTH && |n.team| == NONCE_LENGTH && |n.role| == NONCE_LENGTH
  }

  function EncryptProfile(c: Cipher, key: string, p: Profile, n: Nonces): Result<Profile, CryptError> {
    var department := EncryptField(c, key, p.department, n.department);
    if department.Err? then Err(department.error)
    else
      var team := EncryptField(c, key, p.team, n.team);
      if team.Err? then Err(team.error)
      else
        var role := EncryptField(c, key, p.role, n.role);
        if role.Err? then Err(role.error)
        else Ok(p.(department := department.value, team := team.value, role := role.value))
  }

  function DecryptProfile(c: Cipher, key: string, p: Profile): Result<Profile, CryptError> {
    var department := Decrypt(c, key, p.department);
    if department.Err? then Err(department.error)
    else
      var team := Decrypt(c, key, p.team);
      if team.Err? then Err(team.error)
      else
        var role := Decrypt(c, key, p.role);
        if role.Err? then Err(role.error)
        else Ok(p.(department := department.value, team := team.value, role := role.value))
  }

  /** What a save writes for a profile: without a master key, the profile as it is. */
  function SavedProfile(c: Cipher, key: string, p: Profile, n: Nonces): Result<Profile, CryptError> {
    if key == "" then Ok(p) else EncryptProfile(c, key, p, n)
  }

  predicate HasEncryptedField(p: Profile) {
    IsEncrypted(p.department) || IsEncrypted(p.team) || IsEncrypted(p.role)
  }

  /** Whether a stored profile still has a sensitive field in the clear. */
  predicate HasPlainField(p: Profile) {
    || (p.department != "" && !IsEncrypted(p.department))
    || (p.team != "" && !IsEncrypted(p.team))
    || (p.role != "" && !IsEncrypted(p.role))
  }

  /** Saving a profile, with the key or without one, never changes what the profile decrypts to,
      whichever of its fields are plaintext, ciphertext or undecryptable. */
  lemma SavingKeepsTheProfile(c: Cipher, key: string, used: string, p: Profile, n: Nonces)
    requires Lawful(c) && |key| == KEY_LENGTH && GoodNonces(n) && (used == key || used == "")
    ensures SavedProfile(c, used, p, n).Ok?
    ensures DecryptProfile(c, key, SavedProfile(c, used, p, n).value) == DecryptProfile(c, key, p)
  {
    SavingKeepsTheMeaning(c, key, p.department, n.department);
    SavingKeepsTheMeaning(c, key, p.team, n.team);
    SavingKeepsTheMeaning(c, key, p.role, n.role);
  }

  /** So a profile in memory comes back from the file unchanged exactly when none of its fields
      starts with the marker of encrypted ones. */
  lemma ProfileComesBackIff(c: Cipher, key: string, p: Profile, n: Nonces)
    requires Lawful(c) && |key| == KEY_LENGTH && GoodNonces(n)
    ensures SavedProfile(c, key, p, n).Ok?
    ensures DecryptProfile(c, key, SavedProfile(c, key, p, n).value) == Ok(p) <==> !HasEncryptedField(p)
  {
    SavingKeepsTheProfile(c, key, key, p, n);
    PlaintextComesBackIff(c, key, p.department, n.department);
    PlaintextComesBackIff(c, key, p.team, n.team);
    PlaintextComesBackIff(c, key, p.role, n.role);
    SavingKeepsTheMeaning(c, key, p.department, n.department);
    SavingKeepsTheMeaning(c, key, p.team, n.team);
    SavingKeepsTheMeaning(c, key, p.role, n.role);
  }

  /** A saved profile has no sensitive field in the clear, and saving it again writes it as it is;
      only its three sensitive fields may have changed, so it authenticates the same keys. */
  lemma SavedProfileIsSettled(c: Cipher, key: string, p: Profile, n: Nonces, again: Nonces)
    requires |key| == KEY_LENGTH
    ensures SavedProfile(c, key, p, n).Ok?
    ensures var saved := SavedProfile(c, key, p, n).value;
            && !HasPlainField(saved)
            && SavedProfile(c, key, saved, again) == Ok(saved)
            && saved == p.(department := saved.department, team := saved.team, role := saved.role)
  {
    SavedFieldsAreEncryptedOnce(c, key, p.department, n.department, again.department);
    SavedFieldsAreEncryptedOnce(c, key, p.team, n.team, again.team);
    SavedFieldsAreEncryptedOnce(c, key, p.role, n.role, again.role);
  }

  // ---- Whole stores -----------------------------------------------------------------

  /** The file a save leaves, provided no field fails to encrypt. */
  function SavedStore(c: Cipher, key: string, users: map<string, Profile>,
                      nonces: string -> Nonces): map<string, Profile>
    requires forall id | id in users :: SavedProfile(c, key, users[id], nonces(id)).Ok?
  {
    map id | id in users :: SavedProfile(c, key, users[id], nonces(id)).value
  }

  /** Without a master key the file holds the profiles as they are. */
  lemma SavedWithoutKey(c: Cipher, users: map<string, Profile>, nonces: string -> Nonces)
    ensures forall id | id in users :: SavedProfile(c, "", users[id], nonces(id)).Ok?
    ensures SavedStore(c, "", users, nonces) == users
  {
  }

  predicate Decryptable(c: Cipher, key: string, users: map<string, Profile>) {
    forall id | id in users :: DecryptProfile(c, key, users[id]).Ok?
  }

  function DecryptedStore(c: Cipher, key: string, users: map<string, Profile>): map<string, Profile>
    requires Decryptable(c, key, users)
  {
    map id | id in users :: DecryptProfile(c, key, users[id]).value
  }

  lemma SavesSucceed(c: Cipher, key: string, users: map<string, Profile>, nonces: string -> Nonces)
    requires Lawful(c) && |key| == KEY_LENGTH && forall id | id in users :: GoodNonces(nonces(id))
    ensures forall id | id in users :: SavedProfile(c, key, users[id], nonces(id)).Ok?
  {
    forall id | id in users ensures SavedProfile(c, key, users[id], nonces(id)).Ok? {
      ProfileComesBackIff(c, key, users[id], nonces(id));
    }
  }

  /** Stores whose profiles decrypt alike decrypt alike. */
  lemma SameMeaning(c: Cipher, key: string, a: map<string, Profile>, b: map<string, Profile>)
    requires a.Keys == b.Keys && forall id | id in a :: DecryptProfile(c, key, a[id]) == DecryptProfile(c, key, b[id])
    ensures Decryptable(c, key, a) <==> Decryptable(c, key, b)
    ensures Decryptable(c, key, b) ==> DecryptedStore(c, key, a) == DecryptedStore(c, key, b)
  {
    assert Decryptable(c, key, b) ==> forall id | id in a :: DecryptProfile(c, key, b[id]).Ok?;
  }

  /** A store decrypts to `users` if and only if each of its profiles does. */
  lemma DecryptsToIff(c: Cipher, key: string, a: map<string, Profile>, users: map<string, Profile>)
    requires a.Keys == users.Keys
    ensures (Decryptable(c, key, a) && DecryptedStore(c, key, a) == users)
       <==> forall id | id in users :: DecryptProfile(c, key, a[id]) == Ok(users[id])
  {
    if Decryptable(c, key, a) && DecryptedStore(c, key, a) == users {
      forall id | id in users ensures DecryptProfile(c, key, a[id]) == Ok(users[id]) {
        assert DecryptedStore(c, key, a)[id] == users[id];
      }
    }
  }

  /** Saving a store, loading the file and decrypting it gives what decrypting the store itself
      gives, or fails where that fails: it does not matter whether the profiles in memory were
      decrypted first, nor which are encrypted already. It gives back the store itself exactly
      when no field of it starts with the marker of encrypted ones. */
  lemma RestartKeepsTheStore(c: Cipher, key: string, users: map<string, Profile>, nonces: string -> Nonces)
    requires Lawful(c) && |key| == KEY_LENGTH
    requires forall id | id in users :: GoodNonces(nonces(id))
    ensures forall id | id in users :: SavedProfile(c, key, users[id], nonces(id)).Ok?
    ensures var file := SavedStore(c, key, users, nonces);
            && (Decryptable(c, key, file) <==> Decryptable(c, key, users))
            && (Decryptable(c, key, users) ==> DecryptedStore(c, key, file) == DecryptedStore(c, key, users))
            && ((Decryptable(c, key, file) && DecryptedStore(c, key, file) == users)
                <==> forall id | id in users :: !HasEncryptedField(users[id]))
  {
    SavesSucceed(c, key, users, nonces);
    var file := SavedStore(c, key, users, nonces);
    forall id | id in users
      ensures DecryptProfile(c, key, file[id]) == DecryptProfile(c, key, users[id])
    {
      SavingKeepsTheProfile(c, key, key, users[id], nonces(id));
    }
    SameMeaning(c, key, file, users);
    DecryptsToIff(c, key, file, users);
    forall id | id in users
      ensures DecryptProfile(c, key, file[id]) == Ok(users[id]) <==> !HasEncryptedField(users[id])
    {
      ProfileComesBackIff(c, key, users[id], nonces(id));
    }
  }

  /** An ordinary field that was encrypted under `key` and that the cipher refuses under `other`. */
  predicate Refuses(c: Cipher, key: string, other: string, field: string, nonce: string) {
    && field != "" && !("$enc1$" <= field)
    && (|other| != 32 || (c.open)(other, nonce, (c.seal)(key, nonce, field)) == None)
  }

  /** A store saved under one key does not open under another: it is enough that one profile has one
      ordinary field whose ciphertext the cipher refuses under that key. */
  lemma WrongMasterKeyFails(c: Cipher, key: string, other: string, users: map<string, Profile>,
                            nonces: string -> Nonces, id: string)
    requires Lawful(c) && |key| == 32 && forall id | id in users :: GoodNonces(nonces(id))
    requires id in users
    requires || Refuses(c, key, other, users[id].department, nonces(id).department)
             || Refuses(c, key, other, users[id].team, nonces(id).team)
             || Refuses(c, key, other, users[id].role, nonces(id).role)
    ensures forall id | id in users :: SavedProfile(c, key, users[id], nonces(id)).Ok?
    ensures !Decryptable(c, other, SavedStore(c, key, users, nonces))
  {
    var p, n := users[id], nonces(id);
    SavesSucceed(c, key, users, nonces);
    if Refuses(c, key, other, p.department, n.department) {
      WrongKeyFails(c, key, other, p.department, n.department);
    } else if Refuses(c, key, other, p.team, n.team) {
      WrongKeyFails(c, key, other, p.team, n.team);
    } else {
      WrongKeyFails(c, key, other, p.role, n.role);
    }
    assert DecryptProfile(c, other, SavedStore(c, key, users, nonces)[id]).Err?;
  }
}

/** The key store: user profiles in memory, changed in place, and the file they are saved to. */
module KeyStorage {
  import opened Wrappers
  import opened KeyHash
  import F = FieldEncryption
  import opened Authentication
  import opened ProfileEncryption

  datatype StoreError =
    | EmptyId
    | EmptyKey
    | NoSalt
    | CannotVerify(id: string)
    | CannotEncrypt(id: string, cause: F.CryptError)
    | CannotDecrypt(id: string, cause: F.CryptError)
    | NotWritten
    | NoMasterKey
    | CannotRead
    | InvalidFile

  class UserProfile {
    var id: string
    var key: string
    var keyIndex: string
    var department: string
    var team: string
    var role: string
    var lastUsedAt: int
    var settings: Settings

    constructor (p: Profile)
      ensures Value() == p
    {
      id, key, keyIndex := p.id, p.key, p.keyIndex;
      department, team, role := p.department, p.team, p.role;
      lastUsedAt, settings := p.lastUsedAt, p.settings;
    }

    function Value(): Profile
      reads this
    {
      Profile(id, key, keyIndex, department, team, role, lastUsedAt, settings)
    }

    /** Hashes a plaintext key in place. The fingerprint is set even if no salt can be had. */
    method HashKey(c: Crypto, salt: Option<string>) returns (ok: bool)
      requires Lawful(c)
      modifies this
      ensures ok == salt.Some?
      ensures Value() == if salt.Some? then Hashed(c, old(Value()), salt.value)
                         else old(Value()).(keyIndex := KeyIndex(c, old(key)))
    {
      keyIndex := KeyIndex(c, key);
      if salt.None? { return false; }
      key := HashText(c, key, salt.value);
      return true;
    }

    /** Encrypts the sensitive fields in place, stopping at the first that fails. */
    method EncryptFields(c: F.Cipher, masterKey: string, n: Nonces) returns (error: Option<F.CryptError>)
      modifies this
      ensures match EncryptProfile(c, masterKey, old(Value()), n)
              case Ok(p) => error.None? && Value() == p
              case Err(e) => error == Some(e)
    {
      if !F.IsEncrypted(department) && department != "" {
        var r := F.Encrypt(c, masterKey, department, n.department);
        if r.Err? { return Some(r.error); }
        department := r.value;
      }
      if !F.IsEncrypted(team) && team != "" {
        var r := F.Encrypt(c, masterKey, team, n.team);
        if r.Err? { return Some(r.error); }
        team := r.value;
      }
      if !F.IsEncrypted(role) && role != "" {
        var r := F.Encrypt(c, masterKey, role, n.role);
        if r.Err? { return Some(r.error); }
        role := r.value;
      }
      return None;
    }

    /** Decrypts the sensitive fields in place: all three, or on an error none. */
    method DecryptFields(c: F.Cipher, masterKey: string) returns (error: Option<F.CryptError>)
      modifies this
      ensures match DecryptProfile(c, masterKey, old(Value()))
              case Ok(p) => error.None? && Value() == p
              case Err(e) => error == Some(e) && Value() == old(Value())
    {
      var newDepartment := F.Decrypt(c, masterKey, department);
      if newDepartment.Err? { return Some(newDepartment.error); }
      var newTeam := F.Decrypt(c, masterKey, team);
      if newTeam.Err? { return Some(newTeam.error); }
      var newRole := F.Decrypt(c, masterKey, role);
      if newRole.Err? { return Some(newRole.error); }
      department, team, role := newDepartment.value, newTeam.value, newRole.value;
      return None;
    }
  }

  /** The users whose form in the file still needs encryption, or who are not in the file. */
  function Pending(users: set<string>, file: map<string, Profile>): (ids: set<string>) {
    set id | id in users && (id !in file || HasPlainField(file[id]))
  }

  /** The save stopped at a user whose profile cannot be encrypted. */
  ghost predicate StoppedBy(c: F.Cipher, key: string, memory: map<string, Profile>, nonces: string -> Nonces,
                            error: StoreError)
  {
    exists id | id in memory :: && SavedProfile(c, key, memory[id], nonces(id)).Err?
                                && error == CannotEncrypt(id, SavedProfile(c, key, memory[id], nonces(id)).error)
  }

  lemma StoppedMeans(c: F.Cipher, key: string, memory: map<string, Profile>, nonces: string -> Nonces,
                     error: StoreError)
    requires StoppedBy(c, key, memory, nonces, error)
    ensures error.CannotEncrypt?
  {
  }

  /** Saving `memory` turns the file `before` into `after`: the new profiles entirely, or, with an
      error that says why, the old ones. */
  ghost predicate SavedAs(c: F.Cipher, key: string, memory: map<string, Profile>, nonces: string -> Nonces,
                          written: bool, error: Option<StoreError>,
                          before: Option<map<string, Profile>>, after: Option<map<string, Profile>>)
  {
    match error
    case None =>
      && written
      && (forall id | id in memory :: SavedProfile(c, key, memory[id], nonces(id)).Ok?)
      && after == Some(SavedStore(c, key, memory, nonces))
    case Some(e) => after == before && ((e == NotWritten && !written) || StoppedBy(c, key, memory, nonces, e))
  }

  /** A migration in progress, with the users in `unvisited` still to come. */
  ghost predicate Hashing(c: Crypto, before: map<string, Profile>, now: map<string, Profile>,
                          salts: string -> Option<string>, unvisited: set<string>, count: nat)
    requires Lawful(c)
  {
    && Migration(c, before, now, salts)
    && unvisited <= before.Keys && (forall id | id in unvisited :: now[id] == before[id])
    && PlaintextUsers(now) <= unvisited
    && count == |PlaintextUsers(before) - PlaintextUsers(now)|
  }

  lemma MigrationStep(c: Crypto, before: map<string, Profile>, now: map<string, Profile>,
                      salts: string -> Option<string>, id: string, p: Profile)
    requires Lawful(c) && Migration(c, before, now, salts) && id in before && Migrated(c, before[id], p, salts(id))
    ensures Migration(c, before, now[id := p], salts)
  {
  }

  lemma OneFewerPlaintext(now: map<string, Profile>, id: string, p: Profile)
    requires id in PlaintextUsers(now) && IsHashedKey(p.key)
    ensures PlaintextUsers(now[id := p]) == PlaintextUsers(now) - {id}
  {
  }

  lemma StillPlaintext(now: map<string, Profile>, id: string, p: Profile)
    requires id in now && p.key == now[id].key
    ensures PlaintextUsers(now[id := p]) == PlaintextUsers(now)
  {
  }

  lemma OneMoreHashed(before: set<string>, now: set<string>, id: string)
    requires id in before && id in now
    ensures |before - (now - {id})| == |before - now| + 1
  {
    assert before - (now - {id}) == before - now + {id};
  }

  lemma HashingAdvances(c: Crypto, before: map<string, Profile>, now: map<string, Profile>,
                        salts: string -> Option<string>, unvisited: set<string>, count: nat, id: string)
    requires Lawful(c) && Hashing(c, before, now, salts, unvisited, count)
    requires id in unvisited && !IsHashedKey(now[id].key) && salts(id).Some?
    ensures Hashing(c, before, now[id := Hashed(c, now[id], salts(id).value)], salts, unvisited - {id}, count + 1)
  {
    hide Lawful, IsHashedKey, Migrated;
    var p := Hashed(c, now[id], salts(id).value);
    HashTextIsHashed(c, now[id].key, salts(id).value);
    MigrationStep(c, before, now, salts, id, p);
    OneFewerPlaintext(now, id, p);
    OneMoreHashed(PlaintextUsers(before), PlaintextUsers(now), id);
  }

  lemma HashingSkips(c: Crypto, before: map<string, Profile>, now: map<string, Profile>,
                     salts: string -> Option<string>, unvisited: set<string>, count: nat, id: string)
    requires Lawful(c) && Hashing(c, before, now, salts, unvisited, count)
    requires id in unvisited && IsHashedKey(now[id].key)
    ensures Hashing(c, before, now, salts, unvisited - {id}, count)
  {
  }

  lemma StoredIsHashed(c: Crypto, p: Profile, salt: string)
    requires Lawful(c)
    ensures exists rest :: Stored(c, p, salt).key == "$argon2id$" + rest
    ensures IsHashedKey(p.key) <==> exists rest :: p.key == "$argon2id$" + rest
  {
    IsHashedIff(p.key);
    HashTextIsHashed(c, p.key, salt);
    IsHashedIff(HashText(c, p.key, salt));
  }

  /** Without users in the clear every key is the marker followed by something. */
  lemma EveryKeyIsHashed(users: map<string, Profile>)
    ensures PlaintextUsers(users) == {} ==>
              forall id | id in users :: exists rest :: users[id].key == "$argon2id$" + rest
  {
    if PlaintextUsers(users) == {} {
      forall id | id in users ensures exists rest :: users[id].key == "$argon2id$" + rest {
        assert id !in PlaintextUsers(users);
        IsHashedIff(users[id].key);
      }
    }
  }

  /** How a migration ends: at a user left without a salt, or with every key hashed. */
  ghost predicate HashingEnded(c: Crypto, before: map<string, Profile>, after: map<string, Profile>,
                               salts: string -> Option<string>, count: nat, error: Option<StoreError>)
    requires Lawful(c)
  {
    && Migration(c, before, after, salts)
    && count == |PlaintextUsers(before) - PlaintextUsers(after)|
    && match error
       case None => PlaintextUsers(after) == {}
       case Some(e) => e == NoSalt && exists id | id in PlaintextUsers(after) :: salts(id).None?
  }

  lemma HashingFinishes(c: Crypto, before: map<string, Profile>, now: map<string, Profile>,
                        salts: string -> Option<string>, count: nat)
    requires Lawful(c) && Hashing(c, before, now, salts, {}, count)
    ensures HashingEnded(c, before, now, salts, count, None)
  {
  }

  lemma HashingBegins(c: Crypto, before: map<string, Profile>, salts: string -> Option<string>)
    requires Lawful(c)
    ensures Hashing(c, before, before, salts, before.Keys, 0)
  {
    assert PlaintextUsers(before) - PlaintextUsers(before) == {};
  }

  /** The user left without a salt gets a fingerprint, but its key stays in the clear. */
  lemma HashingStops(c: Crypto, before: map<string, Profile>, now: map<string, Profile>,
                     salts: string -> Option<string>, unvisited: set<string>, count: nat, id: string)
    requires Lawful(c) && Hashing(c, before, now, salts, unvisited, count)
    requires id in unvisited && !IsHashedKey(now[id].key) && salts(id).None?
    ensures var next := now[id := now[id].(keyIndex := KeyIndex(c, now[id].key))];
            HashingEnded(c, before, next, salts, count, Some(NoSalt))
  {
    var p := now[id].(keyIndex := KeyIndex(c, now[id].key));
    MigrationStep(c, before, now, salts, id, p);
    StillPlaintext(now, id, p);
    assert id in PlaintextUsers(now[id := p]);
  }

  lemma PendingGrows(users: set<string>, file: map<string, Profile>, id: string)
    requires id !in users
    ensures |Pending(users + {id}, file)|
         == |Pending(users, file)| + if id !in file || HasPlainField(file[id]) then 1 else 0
  {
    hide HasPlainField;
    var more := if id !in file || HasPlainField(file[id]) then {id} else {};
    assert Pending(users + {id}, file) == Pending(users, file) + more;
  }

  /** A decryption in progress, with the users in `unvisited` still to come. */
  ghost predicate Decrypting(c: F.Cipher, key: string, before: map<string, Profile>, now: map<string, Profile>,
                             unvisited: set<string>)
  {
    && before.Keys == now.Keys && unvisited <= before.Keys
    && (forall id | id in unvisited :: now[id] == before[id])
    && (forall id | id in before && id !in unvisited :: DecryptProfile(c, key, before[id]) == Ok(now[id]))
  }

  lemma DecryptingAdvances(c: F.Cipher, key: string, before: map<string, Profile>, now: map<string, Profile>,
                           unvisited: set<string>, id: string)
    requires Decrypting(c, key, before, now, unvisited) && id in unvisited
    requires DecryptProfile(c, key, before[id]).Ok?
    ensures Decrypting(c, key, before, now[id := DecryptProfile(c, key, before[id]).value], unvisited - {id})
  {
  }

  /** The decryption stopped at a profile that does not decrypt; every profile is as it was or
      decrypted entirely, and that one is as it was. */
  ghost predicate DecryptionStopped(c: F.Cipher, key: string, before: map<string, Profile>, now: map<string, Profile>,
                                    error: StoreError)
  {
    && before.Keys == now.Keys
    && (forall id | id in before :: now[id] == before[id] || DecryptProfile(c, key, before[id]) == Ok(now[id]))
    && (exists id | id in before :: && DecryptProfile(c, key, before[id]).Err?
                                    && now[id] == before[id]
                                    && error == CannotDecrypt(now[id].id, DecryptProfile(c, key, before[id]).error))
  }

  lemma DecryptingFinishes(c: F.Cipher, key: string, before: map<string, Profile>, now: map<string, Profile>)
    requires Decrypting(c, key, before, now, {})
    ensures Decryptable(c, key, before) && now == DecryptedStore(c, key, before)
  {
  }

  lemma DecryptingStops(c: F.Cipher, key: string, before: map<string, Profile>, now: map<string, Profile>,
                        unvisited: set<string>, id: string)
    requires Decrypting(c, key, before, now, unvisited) && id in unvisited
    requires DecryptProfile(c, key, before[id]).Err?
    ensures DecryptionStopped(c, key, before, now,
                              CannotDecrypt(now[id].id, DecryptProfile(c, key, before[id]).error))
    ensures !Decryptable(c, key, before)
  {
  }

  class KeyStore {
    var users: map<string, UserProfile>
    var masterKey: string
    /** The profiles in the file. */
    var file: Option<map<string, Profile>>

    /** No profile object is entered under two IDs. */
    ghost predicate Valid()
      reads this`users
    {
      forall a, b | a in users && b in users && users[a] == users[b] :: a == b
    }

    ghost function Contents(): (profiles: map<string, Profile>)
      reads this`users, users.Values
    {
      map id | id in users :: users[id].Value()
    }

    /** Loads the file; a missing one gives an empty store. */
    constructor (file: Option<map<string, Profile>>)
      ensures Valid() && fresh(users.Values)
      ensures this.file == file && masterKey == ""
      ensures Contents() == if file.None? then map[] else file.value
    {
      this.file, masterKey, users := file, "", map[];
      new;
      if file.Some? {
        var remaining := file.value.Keys;
        while remaining != {}
          invariant remaining <= file.value.Keys && users.Keys == file.value.Keys - remaining
          invariant Valid() && (forall id | id in users :: fresh(users[id])) && this.file == file && masterKey == ""
          invariant forall id | id in users :: users[id].Value() == file.value[id]
        {
          var id :| id in remaining;
          var p := new UserProfile(file.value[id]);
          assert p !in users.Values;
          users := users[id := p];
          remaining := remaining - {id};
        }
      }
    }

    method SetMasterKey(key: string)
      modifies this`masterKey
      ensures masterKey == key
    {
      masterKey := key;
    }

    /** Encrypts a copy of a profile; the profile itself is not touched. */
    method EncryptedCopy(c: F.Cipher, p: UserProfile, n: Nonces) returns (saved: Result<Profile, F.CryptError>)
      requires masterKey != ""
      ensures saved == SavedProfile(c, masterKey, p.Value(), n)
      ensures Contents() == old(Contents())
    {
      hide EncryptProfile;
      var copy := new UserProfile(p.Value());
      var failure := copy.EncryptFields(c, masterKey, n);
      return if failure.Some? then Err(failure.value) else Ok(copy.Value());
    }

    /** Encrypts copies of all profiles in some order. */
    method EncryptedCopies(c: F.Cipher, nonces: string -> Nonces)
      returns (clone: map<string, Profile>, error: Option<StoreError>)
      requires Valid() && masterKey != ""
      ensures error.None? ==>
        && (forall id | id in users :: SavedProfile(c, masterKey, Contents()[id], nonces(id)).Ok?)
        && clone == SavedStore(c, masterKey, Contents(), nonces)
      ensures error.Some? ==> StoppedBy(c, masterKey, Contents(), nonces, error.value)
    {
      hide SavedProfile;
      ghost var memory := Contents();
      clone := map[];
      var remaining := users.Keys;
      while remaining != {}
        invariant remaining <= users.Keys && clone.Keys == users.Keys - remaining
        invariant Contents() == memory
        invariant forall id | id in clone :: SavedProfile(c, masterKey, memory[id], nonces(id)) == Ok(clone[id])
      {
        var id :| id in remaining;
        assert memory[id] == users[id].Value();
        var saved := EncryptedCopy(c, users[id], nonces(id));
        if saved.Err? { return clone, Some(CannotEncrypt(id, saved.error)); }
        clone := clone[id := saved.value];
        remaining := remaining - {id};
      }
      error := None;
    }

    /** What goes into the file: the profiles themselves, or with a master key encrypted copies. */
    method ToSave(c: F.Cipher, nonces: string -> Nonces)
      returns (data: map<string, Profile>, failure: Option<StoreError>)
      requires Valid()
      ensures failure.None? ==>
        && (forall id | id in users :: SavedProfile(c, masterKey, Contents()[id], nonces(id)).Ok?)
        && data == SavedStore(c, masterKey, Contents(), nonces)
      ensures failure.Some? ==>
        failure.value.CannotEncrypt? && StoppedBy(c, masterKey, Contents(), nonces, failure.value)
    {
      hide SavedProfile, SavedStore, StoppedBy;
      data, failure := map id | id in users :: users[id].Value(), None;
      if masterKey == "" {
        assert data == Contents();
        SavedWithoutKey(c, data, nonces);
      } else {
        data, failure := EncryptedCopies(c, nonces);
        if failure.Some? {
          StoppedMeans(c, masterKey, Contents(), nonces, failure.value);
        }
      }
    }

    /** `written` is whether the replacement of the file succeeded. */
    method SaveLocked(c: F.Cipher, nonces: string -> Nonces, written: bool) returns (error: Option<StoreError>)
      requires Valid()
      modifies this`file
      ensures SavedAs(c, masterKey, Contents(), nonces, written, error, old(file), file)
      ensures error !in {Some(EmptyId), Some(EmptyKey), Some(NoSalt)} && Contents() == old(Contents())
    {
      hide SavedProfile, SavedStore, StoppedBy;
      var data, failure := ToSave(c, nonces);
      if failure.Some? { return failure; }
      if !written { return Some(NotWritten); }
      file := Some(data);
      return None;
    }

    /** Adds or replaces a profile, hashing its key first. The object is entered in the store even
        if the save then fails. */
    method AddUser(c: Crypto, f: F.Cipher, profile: UserProfile, salt: Option<string>, now: int,
                   nonces: string -> Nonces, written: bool)
      returns (error: Option<StoreError>)
      requires Lawful(c) && Valid()
      requires forall id | id in users && users[id] == profile :: id == profile.id
      modifies this`users, this`file, profile
      ensures Valid() && profile.id == old(profile.id)
      ensures forall id | id in old(users) && id != profile.id :: id in users && users[id] == old(users[id])
      ensures error == Some(EmptyId) <==> profile.id == ""
      ensures error == Some(EmptyKey) <==> profile.id != "" && old(profile.key) == ""
      ensures error == Some(NoSalt) <==>
        profile.id != "" && old(profile.key) != "" && salt.None?
        && forall rest :: old(profile.key) != "$argon2id$" + rest
      ensures error in {Some(EmptyId), Some(EmptyKey)} ==> profile.Value() == old(profile.Value())
      ensures error in {Some(EmptyId), Some(EmptyKey), Some(NoSalt)} ==> users == old(users) && file == old(file)
      ensures error !in {Some(EmptyId), Some(EmptyKey), Some(NoSalt)} ==>
        && users == old(users)[profile.id := profile]
        && (salt.None? ==> exists rest :: old(profile.key) == "$argon2id$" + rest)
        && (exists rest :: profile.key == "$argon2id$" + rest)
        && profile.Value() == Stored(c, old(profile.Value()), if salt.Some? then salt.value else "").(lastUsedAt := now)
        && SavedAs(f, masterKey, Contents(), nonces, written, error, old(file), file)
    {
      hide SavedAs;
      StoredIsHashed(c, profile.Value(), if salt.Some? then salt.value else "");
      if profile.id == "" { return Some(EmptyId); }
      if profile.key == "" { return Some(EmptyKey); }
      if !IsHashedKey(profile.key) {
        var ok := profile.HashKey(c, salt);
        if !ok { return Some(NoSalt); }
      }
      profile.lastUsedAt := now;
      users := users[profile.id := profile];
      error := SaveLocked(f, nonces, written);
    }

    /** Looks a key up, trying the profiles in some order until one is accepted or one breaks. */
    method GetByKey(c: Crypto, apiKey: string) returns (r: Result<Option<UserProfile>, StoreError>)
      requires Lawful(c)
      ensures match r
              case Ok(Some(user)) =>
                exists id | id in users :: users[id] == user && Authenticate(c, user.Value(), apiKey) == Accepted
              case Ok(None) =>
                forall id | id in users :: Authenticate(c, users[id].Value(), apiKey) == Rejected
              case Err(e) =>
                exists id | id in users :: && e == CannotVerify(users[id].id)
                                           && Authenticate(c, users[id].Value(), apiKey) == Broken
      ensures (forall id | id in users :: WellFormed(c, Contents()[id], apiKey)) ==>
        match r
        case Ok(Some(user)) => exists id | id in MatchingSlowly(c, Contents(), apiKey) :: users[id] == user
        case Ok(None) => MatchingSlowly(c, Contents(), apiKey) == {}
        case Err(_) => false
    {
      r := Find(c, apiKey);
      if forall id | id in users :: WellFormed(c, Contents()[id], apiKey) {
        FoundAsVerified(c, apiKey, r);
      }
    }

    /** In a well-formed store what the loop finds is what verifying every hash would. */
    lemma FoundAsVerified(c: Crypto, apiKey: string, r: Result<Option<UserProfile>, StoreError>)
      requires Lawful(c) && forall id | id in users :: WellFormed(c, Contents()[id], apiKey)
      requires match r
               case Ok(Some(user)) =>
                 exists id | id in users :: users[id] == user && Authenticate(c, user.Value(), apiKey) == Accepted
               case Ok(None) =>
                 forall id | id in users :: Authenticate(c, users[id].Value(), apiKey) == Rejected
               case Err(e) =>
                 exists id | id in users :: && e == CannotVerify(users[id].id)
                                            && Authenticate(c, users[id].Value(), apiKey) == Broken
      ensures match r
              case Ok(Some(user)) => exists id | id in MatchingSlowly(c, Contents(), apiKey) :: users[id] == user
              case Ok(None) => MatchingSlowly(c, Contents(), apiKey) == {}
              case Err(_) => false
    {
      FilteredLookupAgrees(c, Contents(), apiKey);
      hide Authenticate, AuthenticateSlowly, WellFormed, Lawful;
      assert forall id | id in users :: Contents()[id] == users[id].Value();
      assert Matching(c, Contents(), apiKey) == MatchingSlowly(c, Contents(), apiKey);
    }

    method Find(c: Crypto, apiKey: string) returns (r: Result<Option<UserProfile>, StoreError>)
      requires Lawful(c)
      ensures match r
              case Ok(Some(user)) =>
                exists id | id in users :: users[id] == user && Authenticate(c, user.Value(), apiKey) == Accepted
              case Ok(None) =>
                forall id | id in users :: Authenticate(c, users[id].Value(), apiKey) == Rejected
              case Err(e) =>
                exists id | id in users :: && e == CannotVerify(users[id].id)
                                           && Authenticate(c, users[id].Value(), apiKey) == Broken
    {
      var candidateIndex := KeyIndex(c, apiKey);
      var remaining := users.Keys;
      while remaining != {}
        invariant remaining <= users.Keys
        invariant forall id | id in users.Keys - remaining :: Authenticate(c, users[id].Value(), apiKey) == Rejected
      {
        var id :| id in remaining;
        remaining := remaining - {id};
        var user := users[id];
        if !IsHashedKey(user.key) {
          if user.key == apiKey { return Ok(Some(user)); }
        } else if user.keyIndex == "" || user.keyIndex == candidateIndex {
          var verified := Verify(c, apiKey, user.key);
          if verified.Err? { return Err(CannotVerify(user.id)); }
          if verified.value { return Ok(Some(user)); }
        }
      }
      return Ok(None);
    }

    /** Changing one profile object changes one entry. */
    twostate lemma OneEntryChanged(id: string)
      requires Valid() && users == old(users) && id in users
      requires forall p | p in users.Values && p != users[id] :: unchanged(p)
      ensures Contents() == old(Contents())[id := users[id].Value()]
    {
      forall other | other in users && other != id ensures users[other].Value() == old(users[other].Value()) {
        assert users[other] in users.Values && users[other] != users[id];
      }
    }

    method HashKeyOf(c: Crypto, id: string, salt: Option<string>) returns (ok: bool)
      requires Lawful(c) && Valid() && id in users
      modifies users[id]
      ensures ok == salt.Some?
      ensures var p := old(users[id].Value());
              Contents() == old(Contents())[id := if salt.Some? then Hashed(c, p, salt.value)
                                                  else p.(keyIndex := KeyIndex(c, p.key))]
    {
      ok := users[id].HashKey(c, salt);
      OneEntryChanged(id);
    }

    /** Hashes every plaintext key in place, in some order, until one gets no salt. */
    method HashPlaintextKeys(c: Crypto, salts: string -> Option<string>) returns (count: nat, error: Option<StoreError>)
      requires Lawful(c) && Valid()
      modifies users.Values
      ensures HashingEnded(c, old(Contents()), Contents(), salts, count, error)
    {
      hide Hashing, HashingEnded, Hashed, Lawful, IsHashedKey;
      count := 0;
      ghost var before := Contents();
      var remaining := users.Keys;
      HashingBegins(c, before, salts);
      assert remaining == before.Keys;
      while remaining != {}
        invariant Hashing(c, before, Contents(), salts, remaining, count)
      {
        ghost var now := Contents();
        var id :| id in remaining;
        assert users[id].Value() == now[id];
        if IsHashedKey(users[id].key) {
          HashingSkips(c, before, now, salts, remaining, count, id);
        } else {
          var ok := HashKeyOf(c, id, salts(id));
          if !ok {
            HashingStops(c, before, now, salts, remaining, count, id);
            return count, Some(NoSalt);
          }
          HashingAdvances(c, before, now, salts, remaining, count, id);
          count := count + 1;
        }
        remaining := remaining - {id};
      }
      HashingFinishes(c, before, Contents(), salts, count);
      error := None;
    }

    method HashAndSave(c: Crypto, f: F.Cipher, salts: string -> Option<string>,
                         nonces: string -> Nonces, written: bool)
      returns (count: nat, error: Option<StoreError>)
      requires Lawful(c) && Valid()
      modifies users.Values, this`file
      ensures Migration(c, old(Contents()), Contents(), salts)
      ensures count == |PlaintextUsers(old(Contents())) - PlaintextUsers(Contents())|
      ensures error == Some(NoSalt) <==> PlaintextUsers(Contents()) != {}
      ensures if error != Some(NoSalt) && count > 0
              then SavedAs(f, masterKey, Contents(), nonces, written, error, old(file), file)
              else file == old(file)
      ensures PlaintextUsers(old(Contents())) == {} ==> count == 0 && error.None?
    {
      count, error := HashPlaintextKeys(c, salts);
      if error.Some? { return; }
      if count > 0 {
        error := SaveLocked(f, nonces, written);
      }
    }

    /** Migrates every plaintext key to a hash and saves. Nothing is saved if a salt is missing or if
        there was nothing to do. */
    method MigrateHashes(c: Crypto, f: F.Cipher, salts: string -> Option<string>,
                         nonces: string -> Nonces, written: bool)
      returns (count: nat, error: Option<StoreError>)
      requires Lawful(c) && Valid()
      modifies users.Values, this`file
      ensures Migration(c, old(Contents()), Contents(), salts)
      ensures count == |PlaintextUsers(old(Contents())) - PlaintextUsers(Contents())|
      ensures error == Some(NoSalt) <==> PlaintextUsers(Contents()) != {}
      ensures error == Some(NoSalt) || forall id | id in users :: exists rest :: users[id].key == "$argon2id$" + rest
      ensures if error != Some(NoSalt) && count > 0
              then SavedAs(f, masterKey, Contents(), nonces, written, error, old(file), file)
              else file == old(file)
      ensures PlaintextUsers(old(Contents())) == {} ==> count == 0 && error.None?
    {
      hide *;
      count, error := HashAndSave(c, f, salts, nonces, written);
      EveryKeyIsHashed(Contents());
      KeysOfContents();
    }

    lemma KeysOfContents()
      ensures Contents().Keys == users.Keys && forall id | id in users :: Contents()[id].key == users[id].key
    {
    }

    method DecryptFieldsOf(c: F.Cipher, key: string, id: string) returns (failure: Option<F.CryptError>)
      requires Valid() && id in users
      modifies users[id]
      ensures match DecryptProfile(c, key, old(users[id].Value()))
              case Ok(p) => failure.None? && Contents() == old(Contents())[id := p]
              case Err(e) => failure == Some(e) && Contents() == old(Contents()) && users[id].id == old(users[id].id)
    {
      failure := users[id].DecryptFields(c, key);
      OneEntryChanged(id);
      assert old(Contents())[id := old(users[id].Value())] == old(Contents());
    }

    /** Decrypts the sensitive fields of the profiles in place, in some order, stopping at the first
        profile that fails: each profile is left as it was or decrypted entirely. */
    method DecryptProfilesInPlace(c: F.Cipher, key: string) returns (error: Option<StoreError>)
      requires Valid()
      modifies users.Values
      ensures error.None? <==> Decryptable(c, key, old(Contents()))
      ensures error.None? ==> Contents() == DecryptedStore(c, key, old(Contents()))
      ensures error.Some? ==> DecryptionStopped(c, key, old(Contents()), Contents(), error.value)
    {
      ghost var before := Contents();
      var remaining := users.Keys;
      while remaining != {}
        invariant Decrypting(c, key, before, Contents(), remaining)
      {
        ghost var now := Contents();
        var id :| id in remaining;
        assert users[id].Value() == now[id];
        var failure := DecryptFieldsOf(c, key, id);
        if failure.Some? {
          DecryptingStops(c, key, before, now, remaining, id);
          return Some(CannotDecrypt(users[id].id, failure.value));
        }
        DecryptingAdvances(c, key, before, now, remaining, id);
        remaining := remaining - {id};
      }
      DecryptingFinishes(c, key, before, Contents());
      error := None;
    }

    method HasEncryptedFields() returns (found: bool)
      ensures found <==> exists id | id in users :: HasEncryptedField(users[id].Value())
    {
      var remaining := users.Keys;
      while remaining != {}
        invariant remaining <= users.Keys
        invariant forall id | id in users.Keys - remaining :: !HasEncryptedField(users[id].Value())
      {
        var id :| id in remaining;
        if HasEncryptedField(users[id].Value()) { return true; }
        remaining := remaining - {id};
      }
      return false;
    }

    /** Counts the pending profiles. */
    method CountPending(onDisk: map<string, Profile>) returns (count: nat)
      ensures count == |Pending(users.Keys, onDisk)|
    {
      count := 0;
      var remaining := users.Keys;
      while remaining != {}
        invariant remaining <= users.Keys && count == |Pending(users.Keys - remaining, onDisk)|
      {
        var id :| id in remaining;
        PendingGrows(users.Keys - remaining, onDisk, id);
        assert users.Keys - remaining + {id} == users.Keys - (remaining - {id});
        remaining := remaining - {id};
        if id !in onDisk || HasPlainField(onDisk[id]) {
          count := count + 1;
        }
      }
      assert users.Keys - remaining == users.Keys;
    }

    /** Saves the store with every sensitive field encrypted and counts the profiles whose form in
        the file was not. A file that cannot be read counts as empty. */
    method MigrateEncryptFields(c: F.Cipher, nonces: string -> Nonces, readable: bool, written: bool)
      returns (count: nat, error: Option<StoreError>)
      requires Valid()
      modifies this`file
      ensures error == Some(NoMasterKey) <==> masterKey == ""
      ensures if masterKey == "" then count == 0 && file == old(file)
              else && count == |Pending(users.Keys, if readable && old(file).Some? then old(file).value else map[])|
                   && SavedAs(c, masterKey, Contents(), nonces, written, error, old(file), file)
    {
      if masterKey == "" { return 0, Some(NoMasterKey); }
      var onDisk := if readable && file.Some? then file.value else map[];
      count := CountPending(onDisk);
      error := SaveLocked(c, nonces, written);
    }
  }

  /** After a save with the master key nothing in the file is pending, so migrating again counts
      nothing. */
  lemma NothingPendingAfterSave(c: F.Cipher, key: string, memory: map<string, Profile>, nonces: string -> Nonces)
    requires |key| == F.KEY_LENGTH
    requires forall id | id in memory :: SavedProfile(c, key, memory[id], nonces(id)).Ok?
    ensures Pending(memory.Keys, SavedStore(c, key, memory, nonces)) == {}
  {
    forall id | id in memory ensures !HasPlainField(SavedStore(c, key, memory, nonces)[id]) {
      SavedProfileIsSettled(c, key, memory[id], nonces(id), nonces(id));
    }
  }

  /** What reading the key file gives. */
  datatype ReadOutcome = Missing | Unreadable | NotJson | Read(profiles: map<string, Profile>)

  /** A missing file gives an empty store; one that cannot be read or parsed gives none. */
  method LoadKeyStore(read: ReadOutcome) returns (r: Result<KeyStore, StoreError>)
    ensures r == Err(CannotRead) <==> read.Unreadable?
    ensures r == Err(InvalidFile) <==> read.NotJson?
    ensures r.Err? ==> r.error in {CannotRead, InvalidFile}
    ensures r.Ok? ==>
      && fresh(r.value) && r.value.Valid() && fresh(r.value.users.Values) && r.value.masterKey == ""
      && r.value.Contents() == if read.Missing? then map[] else read.profiles
  {
    match read
    case Unreadable => return Err(CannotRead);
    case NotJson => return Err(InvalidFile);
    case Missing =>
      var store := new KeyStore(None);
      return Ok(store);
    case Read(profiles) =>
      var store := new KeyStore(Some(profiles));
      return Ok(store);
  }

  lemma NothingToDecrypt(c: F.Cipher, key: string, users: map<string, Profile>)
    requires forall id | id in users :: !HasEncryptedField(users[id])
    ensures Decryptable(c, key, users) && DecryptedStore(c, key, users) == users
  {
    DecryptsToIff(c, key, users, users);
  }

  /** Decrypts the profiles in memory if any has an encrypted field. */
  method DecryptIfNeeded(c: F.Cipher, store: KeyStore, key: string) returns (error: Option<StoreError>)
    requires store.Valid()
    modifies store.users.Values
    ensures error.None? <==> Decryptable(c, key, old(store.Contents()))
    ensures error.None? ==> store.Contents() == DecryptedStore(c, key, old(store.Contents()))
  {
    var found := store.HasEncryptedFields();
    if found {
      error := store.DecryptProfilesInPlace(c, key);
    } else {
      forall id | id in store.Contents() ensures !HasEncryptedField(store.Contents()[id]) {
        assert store.Contents()[id] == store.users[id].Value();
      }
      NothingToDecrypt(c, key, store.Contents());
      error := None;
    }
  }

  lemma NothingStored(c: F.Cipher, key: string)
    ensures Decryptable(c, key, map[]) && DecryptedStore(c, key, map[]) == map[]
  {
  }

  /** Opens the store as the policy service does at startup: it starts exactly if the file is missing
      or well-formed and, with a master key, decrypts; then the profiles in memory are those of the
      file, decrypted if there is a master key. */
  method OpenStore(c: F.Cipher, read: ReadOutcome, masterKey: Option<string>) returns (r: Result<KeyStore, StoreError>)
    ensures r.Ok? <==>
      (read.Missing? || read.Read?)
      && (masterKey.Some? && read.Read? ==> Decryptable(c, masterKey.value, read.profiles))
    ensures r.Ok? ==>
      && fresh(r.value) && r.value.Valid()
      && (masterKey.Some? ==> r.value.masterKey == masterKey.value)
      && r.value.Contents() == if read.Missing? then map[]
                               else if masterKey.None? then read.profiles
                               else DecryptedStore(c, masterKey.value, read.profiles)
  {
    hide Decryptable, DecryptedStore;
    if masterKey.Some? {
      NothingStored(c, masterKey.value);
    }
    r := LoadKeyStore(read);
    if r.Err? || masterKey.None? { return; }
    r.value.SetMasterKey(masterKey.value);
    var error := DecryptIfNeeded(c, r.value, masterKey.value);
    if error.Some? { return Err(error.value); }
  }
}

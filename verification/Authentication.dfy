/** Which stored profiles a presented API key authenticates, and what hashing the stored keys
    does to that. */
module Authentication {
  import opened Wrappers
  import GoStrings
  import opened KeyHash

  /** The fields that nothing here looks at: limits, lists and the creation time. */
  datatype Settings = Settings(ipAllowlist: seq<string>, allowedModels: seq<string>, ratePerMinute: real,
                               tokensPerDay: int, tokensPerMonth: int, createdAt: int)

  datatype Profile = Profile(id: string, key: string, keyIndex: string,
                             department: string, team: string, role: string,
                             lastUsedAt: int, settings: Settings)

  datatype Verdict = Accepted | Rejected | Broken

  function FromVerification(r: Result<bool, HashError>): Verdict {
    match r
    case Err(_) => Broken
    case Ok(equal) => if equal then Accepted else Rejected
  }

  /** A lookup's verdict on one profile: plaintext keys are compared, hashed ones verified, but
      only if the stored fingerprint is absent or equals the candidate's. */
  function Authenticate(c: Crypto, p: Profile, candidate: string): Verdict
    requires Lawful(c)
  {
    if !IsHashedKey(p.key) then if p.key == candidate then Accepted else Rejected
    else if p.keyIndex != "" && p.keyIndex != KeyIndex(c, candidate) then Rejected
    else FromVerification(Verify(c, candidate, p.key))
  }

  /** The verdict with every hash verified. */
  function AuthenticateSlowly(c: Crypto, p: Profile, candidate: string): Verdict {
    if !IsHashedKey(p.key) then if p.key == candidate then Accepted else Rejected
    else FromVerification(Verify(c, candidate, p.key))
  }

  /** The profile with its key hashed under `salt` and its fingerprint set. */
  function Hashed(c: Crypto, p: Profile, salt: string): Profile
    requires Lawful(c)
  {
    p.(key := HashText(c, p.key, salt), keyIndex := KeyIndex(c, p.key))
  }

  /** No other key has the same hash as `plaintext` under this salt, as far as this candidate is
      concerned. */
  predicate NoCollision(c: Crypto, plaintext: string, salt: string, candidate: string) {
    (c.argon)(candidate, salt, STANDARD) == (c.argon)(plaintext, salt, STANDARD) ==> candidate == plaintext
  }

  lemma HashedVerdict(c: Crypto, p: Profile, plaintext: string, salt: string, candidate: string)
    requires Lawful(c) && p.key == HashText(c, plaintext, salt) && NoCollision(c, plaintext, salt, candidate)
    ensures IsHashedKey(p.key)
    ensures AuthenticateSlowly(c, p, candidate) == if candidate == plaintext then Accepted else Rejected
  {
    HashTextIsHashed(c, plaintext, salt);
    VerifyComparesHashes(c, candidate, plaintext, salt);
  }

  /** The fingerprint never changes a verdict exactly when it is absent or that of the key that was
      hashed. */
  lemma FingerprintIsHarmlessIff(c: Crypto, p: Profile, plaintext: string, salt: string)
    requires Lawful(c) && p.key == HashText(c, plaintext, salt)
    ensures (forall candidate | NoCollision(c, plaintext, salt, candidate) ::
               Authenticate(c, p, candidate) == AuthenticateSlowly(c, p, candidate))
       <==> (p.keyIndex == "" || p.keyIndex == KeyIndex(c, plaintext))
  {
    HashedVerdict(c, p, plaintext, salt, plaintext);
    if p.keyIndex == "" || p.keyIndex == KeyIndex(c, plaintext) {
      forall candidate | NoCollision(c, plaintext, salt, candidate)
        ensures Authenticate(c, p, candidate) == AuthenticateSlowly(c, p, candidate)
      {
        HashedVerdict(c, p, plaintext, salt, candidate);
      }
    } else {
      assert NoCollision(c, plaintext, salt, plaintext);
      assert Authenticate(c, p, plaintext) == Rejected;
    }
  }

  /** Hashing a plaintext key keeps the verdict on every candidate. */
  lemma HashingKeepsVerdicts(c: Crypto, p: Profile, salt: string, candidate: string)
    requires Lawful(c) && !IsHashedKey(p.key) && NoCollision(c, p.key, salt, candidate)
    ensures Authenticate(c, Hashed(c, p, salt), candidate) == Authenticate(c, p, candidate)
  {
    HashedVerdict(c, Hashed(c, p, salt), p.key, salt, candidate);
  }

  // ---- Whole stores -----------------------------------------------------------------

  /** The users a key authenticates. */
  ghost function Matching(c: Crypto, users: map<string, Profile>, candidate: string): (ids: set<string>)
    requires Lawful(c)
  {
    set id | id in users && Authenticate(c, users[id], candidate) == Accepted
  }

  ghost function MatchingSlowly(c: Crypto, users: map<string, Profile>, candidate: string): (ids: set<string>) {
    set id | id in users && AuthenticateSlowly(c, users[id], candidate) == Accepted
  }

  /** A hashed key came from hashing some plaintext, with the fingerprint absent or of that
      plaintext. */
  ghost predicate WellFormed(c: Crypto, p: Profile, candidate: string)
    requires Lawful(c)
  {
    IsHashedKey(p.key) ==>
      exists plaintext, salt :: && p.key == HashText(c, plaintext, salt)
                                && NoCollision(c, plaintext, salt, candidate)
                                && (p.keyIndex == "" || p.keyIndex == KeyIndex(c, plaintext))
  }

  lemma WellFormedVerdict(c: Crypto, p: Profile, candidate: string)
    requires Lawful(c) && WellFormed(c, p, candidate)
    ensures Authenticate(c, p, candidate) == AuthenticateSlowly(c, p, candidate) != Broken
  {
    if IsHashedKey(p.key) {
      var plaintext, salt :| && p.key == HashText(c, plaintext, salt)
                             && NoCollision(c, plaintext, salt, candidate)
                             && (p.keyIndex == "" || p.keyIndex == KeyIndex(c, plaintext));
      HashedVerdict(c, p, plaintext, salt, candidate);
      FingerprintIsHarmlessIff(c, p, plaintext, salt);
    }
  }

  /** In a well-formed store the fingerprint-filtered lookup accepts the same users as verifying
      every hash. */
  lemma FilteredLookupAgrees(c: Crypto, users: map<string, Profile>, candidate: string)
    requires Lawful(c) && forall id | id in users :: WellFormed(c, users[id], candidate)
    ensures Matching(c, users, candidate) == MatchingSlowly(c, users, candidate)
    ensures forall id | id in users :: Authenticate(c, users[id], candidate) != Broken
  {
    forall id | id in users
      ensures Authenticate(c, users[id], candidate) == AuthenticateSlowly(c, users[id], candidate) != Broken
    {
      WellFormedVerdict(c, users[id], candidate);
    }
  }

  /** What a migration may have done to one profile: nothing, hashed its key, or set the
      fingerprint before failing to get a salt. */
  ghost predicate Migrated(c: Crypto, before: Profile, after: Profile, salt: Option<string>)
    requires Lawful(c)
  {
    || after == before
    || (!IsHashedKey(before.key) && salt.Some? && after == Hashed(c, before, salt.value))
    || (!IsHashedKey(before.key) && salt.None? && after == before.(keyIndex := KeyIndex(c, before.key)))
  }

  ghost predicate Migration(c: Crypto, before: map<string, Profile>, after: map<string, Profile>,
                            salts: string -> Option<string>)
    requires Lawful(c)
  {
    before.Keys == after.Keys && forall id | id in before :: Migrated(c, before[id], after[id], salts(id))
  }

  /** The users whose key is still in the clear. */
  function PlaintextUsers(users: map<string, Profile>): (ids: set<string>) {
    set id | id in users && !IsHashedKey(users[id].key)
  }

  /** A migration, finished or stopped midway, leaves the users that a key authenticates, the
      lookups that fail, and the well-formedness of the store as they were. */
  lemma MigrationKeepsVerdicts(c: Crypto, before: map<string, Profile>, after: map<string, Profile>,
                               salts: string -> Option<string>, candidate: string)
    requires Lawful(c) && Migration(c, before, after, salts)
    requires forall id | id in before && salts(id).Some? ::
               NoCollision(c, before[id].key, salts(id).value, candidate)
    ensures forall id | id in before ::
              Authenticate(c, after[id], candidate) == Authenticate(c, before[id], candidate)
    ensures Matching(c, after, candidate) == Matching(c, before, candidate)
    ensures forall id | id in before :: WellFormed(c, before[id], candidate) ==> WellFormed(c, after[id], candidate)
  {
    forall id | id in before
      ensures Authenticate(c, after[id], candidate) == Authenticate(c, before[id], candidate)
      ensures WellFormed(c, before[id], candidate) ==> WellFormed(c, after[id], candidate)
    {
      if after[id] != before[id] && salts(id).Some? {
        HashingKeepsVerdicts(c, before[id], salts(id).value, candidate);
      }
    }
  }

  /** Adding a profile with a plaintext key makes that key, and no other, authenticate that user,
      and changes nobody else's verdict. */
  lemma AddedKeyAuthenticates(c: Crypto, users: map<string, Profile>, p: Profile, salt: string, candidate: string)
    requires Lawful(c) && !IsHashedKey(p.key) && NoCollision(c, p.key, salt, candidate)
    ensures Matching(c, users[p.id := Hashed(c, p, salt)], candidate)
         == (Matching(c, users, candidate) - {p.id}) + if candidate == p.key then {p.id} else {}
    ensures WellFormed(c, Hashed(c, p, salt), candidate)
  {
    HashingKeepsVerdicts(c, p, salt, candidate);
  }

  /** The profile as adding it stores it. */
  function Stored(c: Crypto, p: Profile, salt: string): Profile
    requires Lawful(c)
  {
    if IsHashedKey(p.key) then p else Hashed(c, p, salt)
  }

  /** An ordinary key, one that is not the marker followed by anything, is stored as the marker followed
      by a hash, and afterwards exactly that key authenticates its user. */
  lemma OrdinaryKeyWorks(c: Crypto, p: Profile, salt: string, candidate: string)
    requires Lawful(c) && NoCollision(c, p.key, salt, candidate) && forall rest :: p.key != "$argon2id$" + rest
    ensures exists rest :: Stored(c, p, salt).key == "$argon2id$" + rest
    ensures Authenticate(c, Stored(c, p, salt), candidate) == if candidate == p.key then Accepted else Rejected
  {
    IsHashedIff(p.key);
    HashTextIsHashed(c, p.key, salt);
    IsHashedIff(HashText(c, p.key, salt));
    HashingKeepsVerdicts(c, p, salt, candidate);
  }

  /** The key an operator adds works afterwards exactly when it does not look hashed (unless it
      happens to be its own hash). One that looks hashed, has no fingerprint and the wrong shape
      instead makes every lookup that reaches its profile fail, whatever the candidate. */
  lemma AddedKeyWorksIff(c: Crypto, p: Profile, salt: string, candidate: string)
    requires Lawful(c) && Verify(c, p.key, p.key) != Ok(true)
    ensures Authenticate(c, Stored(c, p, salt), p.key) == Accepted <==> !IsHashedKey(p.key)
    ensures IsHashedKey(p.key) && p.keyIndex == "" && |GoStrings.Split(p.key, '$')| != 6
        ==> Authenticate(c, Stored(c, p, salt), candidate) == Broken
  {
    if !IsHashedKey(p.key) {
      HashingKeepsVerdicts(c, p, salt, p.key);
    }
  }
}

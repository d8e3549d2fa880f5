/** How API keys are stored: a self-describing hash text, and a short fingerprint that lets a
    lookup skip hashes that cannot match. */
module KeyHash {
  import opened Wrappers
  import opened GoStrings

  /** Parameters of one argon2id computation. */
  datatype Params = Params(time: nat, memory: nat, threads: nat, length: nat)

  /** argon2id, the keyed fingerprint and unpadded base64 (section 4 of RFC 4648), as functions
      on byte strings. */
  datatype Crypto = Crypto(
    argon: (string, string, Params) -> string,
    mac: string -> string,
    encode: string -> string,
    decode: string -> Option<string>)

  /** Hashes have the requested length, fingerprints at least eight bytes; decoding undoes
      encoding, and the alphabet has no dollar sign. */
  ghost predicate Lawful(c: Crypto) {
    && (forall key, salt, p :: |(c.argon)(key, salt, p)| == p.length)
    && (forall key :: |(c.mac)(key)| >= 8)
    && (forall bytes :: (c.decode)((c.encode)(bytes)) == Some(bytes) && '$' !in (c.encode)(bytes))
  }

  const VERSION: nat := 19
  const STANDARD := Params(2, 65536, 2, 32)

  // ---- The stored text --------------------------------------------------------------

  function VersionText(): string { "v=" + Digits(VERSION) }

  function ParamsText(p: Params): string {
    "m=" + (Digits(p.memory) + (",t=" + (Digits(p.time) + (",p=" + (Digits(p.threads) + "")))))
  }

  function HashText(c: Crypto, plaintext: string, salt: string): string {
    var hash := (c.argon)(plaintext, salt, STANDARD);
    Join(["", "argon2id", VersionText(), ParamsText(STANDARD), (c.encode)(salt), (c.encode)(hash)], '$')
  }

  predicate IsHashedKey(s: string) { "$argon2id$" <= s }

  predicate IsNotDigit(ch: char) { !('0' <= ch <= '9') }

  /** Scans a literal; input that follows is left over. */
  function ScanLiteral(s: string, literal: string): Option<string> {
    if literal <= s then Some(s[|literal|..]) else None
  }

  /** Scans a decimal number up to `limit`. */
  function ScanNumber(s: string, limit: nat): Option<(nat, string)> {
    var n := FirstOf(s, IsNotDigit);
    if n == 0 then None
    else
      var v := Value(s[..n]);
      if 0 <= v <= limit then Some((v, s[n..])) else None
  }

  function ScanField(s: string, literal: string, limit: nat): Option<(nat, string)> {
    var rest := ScanLiteral(s, literal);
    if rest.None? then None else ScanNumber(rest.value, limit)
  }

  const UINT32 := 0xFFFF_FFFF
  const UINT8 := 0xFF

  function ScanParams(s: string): Option<Params> {
    var memory := ScanField(s, "m=", UINT32);
    if memory.None? then None
    else
      var time := ScanField(memory.value.1, ",t=", UINT32);
      if time.None? then None
      else
        var threads := ScanField(time.value.1, ",p=", UINT8);
        if threads.None? then None else Some(Params(time.value.0, memory.value.0, threads.value.0, 0))
  }

  datatype HashError = NotArgon | BadVersion | BadParams | BadSalt | BadHash

  function Verify(c: Crypto, plaintext: string, stored: string): Result<bool, HashError> {
    var parts := Split(stored, '$');
    if |parts| != 6 || parts[1] != "argon2id" then Err(NotArgon)
    else
      var version := ScanField(parts[2], "v=", UINT32);
      if version.None? || version.value.0 != VERSION then Err(BadVersion)
      else
        var params := ScanParams(parts[3]);
        if params.None? then Err(BadParams)
        else
          var salt, want := (c.decode)(parts[4]), (c.decode)(parts[5]);
          if salt.None? then Err(BadSalt)
          else if want.None? then Err(BadHash)
          else Ok((c.argon)(plaintext, salt.value, params.value.(length := |want.value|)) == want.value)
  }

  function KeyIndex(c: Crypto, plaintext: string): string
    requires |(c.mac)(plaintext)| >= 8
  {
    (c.encode)((c.mac)(plaintext)[..8])
  }

  // ---- Round trip -------------------------------------------------------------------

  lemma NumberReadsBack(n: nat, rest: string, limit: nat)
    requires n <= limit && (rest == "" || IsNotDigit(rest[0]))
    ensures ScanNumber(Digits(n) + rest, limit) == Some((n, rest))
  {
    DigitsReadBack(n);
    var s := Digits(n) + rest;
    forall j | 0 <= j < |Digits(n)| ensures !IsNotDigit(s[j]) {
      assert s[j] == Digits(n)[j] && Digits(n)[j] in Digits(n);
    }
    if rest != "" {
      assert s[|Digits(n)|] == rest[0];
    }
    assert FirstOf(s, IsNotDigit) == |Digits(n)|;
    assert s[..|Digits(n)|] == Digits(n) && s[|Digits(n)|..] == rest;
  }

  /** Exactly which texts begin with a number: those whose longest beginning of digits is not empty and
      stands for at most `limit`. What follows it is left over. */
  lemma NumberIff(s: string, limit: nat, n: nat, rest: string)
    ensures ScanNumber(s, limit) == Some((n, rest)) <==>
              exists digits :: && digits != "" && (forall ch | ch in digits :: '0' <= ch <= '9') && s == digits + rest
                               && (rest == "" || !('0' <= rest[0] <= '9')) && Value(digits) == n <= limit
  {
    hide Value;
    var k := FirstOf(s, IsNotDigit);
    assert s == s[..k] + s[k..];
    assert forall j | 0 <= j < k :: s[..k][j] == s[j];
    forall digits | (forall ch | ch in digits :: '0' <= ch <= '9') && s == digits + rest
                    && (rest == "" || !('0' <= rest[0] <= '9'))
      ensures s[..k] == digits && s[k..] == rest
    {
      DigitsEnd(digits, rest);
    }
  }

  lemma DigitsEnd(digits: string, rest: string)
    requires (forall ch | ch in digits :: '0' <= ch <= '9') && (rest == "" || !('0' <= rest[0] <= '9'))
    ensures var k := FirstOf(digits + rest, IsNotDigit);
            (digits + rest)[..k] == digits && (digits + rest)[k..] == rest
  {
    var s := digits + rest;
    var k := FirstOf(s, IsNotDigit);
    forall j | 0 <= j < |digits| ensures !IsNotDigit(s[j]) {
      assert s[j] == digits[j] && digits[j] in digits;
    }
    assert rest != "" ==> s[|digits|] == rest[0];
    assert k == |digits|;
  }

  lemma FieldReadsBack(literal: string, n: nat, rest: string, limit: nat)
    requires n <= limit && (rest == "" || IsNotDigit(rest[0]))
    ensures ScanField(literal + (Digits(n) + rest), literal, limit) == Some((n, rest))
  {
    var s := literal + (Digits(n) + rest);
    assert s[|literal|..] == Digits(n) + rest;
    NumberReadsBack(n, rest, limit);
  }

  lemma ParamsReadBack(p: Params)
    requires p.memory <= UINT32 && p.time <= UINT32 && p.threads <= UINT8
    ensures ScanParams(ParamsText(p)) == Some(p.(length := 0))
  {
    var third := ",p=" + (Digits(p.threads) + "");
    var second := ",t=" + (Digits(p.time) + third);
    FieldReadsBack("m=", p.memory, second, UINT32);
    FieldReadsBack(",t=", p.time, third, UINT32);
    FieldReadsBack(",p=", p.threads, "", UINT8);
  }

  lemma VersionReadsBack()
    ensures ScanField(VersionText(), "v=", UINT32) == Some((VERSION, ""))
  {
    assert VersionText() == "v=" + (Digits(VERSION) + "");
    FieldReadsBack("v=", VERSION, "", UINT32);
  }

  lemma NoDollars(p: Params)
    ensures '$' !in VersionText() && '$' !in ParamsText(p) && '$' !in "argon2id"
  {
    DigitsReadBack(VERSION);
    DigitsReadBack(p.memory);
    DigitsReadBack(p.time);
    DigitsReadBack(p.threads);
  }

  /** Verifying a key against the hash of another computes both hashes with the same salt and
      parameters and compares them; so a key is always accepted by its own hash. */
  lemma VerifyComparesHashes(c: Crypto, candidate: string, plaintext: string, salt: string)
    requires Lawful(c)
    ensures Verify(c, candidate, HashText(c, plaintext, salt))
         == Ok((c.argon)(candidate, salt, STANDARD) == (c.argon)(plaintext, salt, STANDARD))
  {
    var hash := (c.argon)(plaintext, salt, STANDARD);
    var parts := ["", "argon2id", VersionText(), ParamsText(STANDARD), (c.encode)(salt), (c.encode)(hash)];
    NoDollars(STANDARD);
    assert '$' !in (c.encode)(salt) && '$' !in (c.encode)(hash);
    JoinSplits(parts, '$');
    VersionReadsBack();
    ParamsReadBack(STANDARD);
    assert STANDARD.(length := 0).(length := |hash|) == STANDARD;
  }

  /** A stored text counts as hashed if and only if it is the marker followed by anything at all. */
  lemma IsHashedIff(s: string)
    ensures IsHashedKey(s) <==> exists rest :: s == "$argon2id$" + rest
  {
    if IsHashedKey(s) {
      assert s == "$argon2id$" + s[10..];
    }
  }

  /** The hash text is recognised as one. */
  lemma HashTextIsHashed(c: Crypto, plaintext: string, salt: string)
    ensures IsHashedKey(HashText(c, plaintext, salt))
  {
    var hash := (c.argon)(plaintext, salt, STANDARD);
    var parts := ["", "argon2id", VersionText(), ParamsText(STANDARD), (c.encode)(salt), (c.encode)(hash)];
    var rest := Join(parts[2..], '$');
    assert parts[1..][1..] == parts[2..];
    assert Join(parts[1..], '$') == "argon2id" + ['$'] + rest;
    assert HashText(c, plaintext, salt) == "" + ['$'] + ("argon2id" + ['$'] + rest) == "$argon2id$" + rest;
  }

  // ---- The stored text, written out -------------------------------------------------

  /** What is stored for a key: the version, the parameters, the salt and the hash, in this form. */
  lemma HashTextWrittenOut(c: Crypto, plaintext: string, salt: string)
    ensures HashText(c, plaintext, salt) ==
            "$argon2id$" + ("v=19" + ("$" + ("m=65536,t=2,p=2" + ("$" + ((c.encode)(salt)
            + ("$" + (c.encode)((c.argon)(plaintext, salt, Params(2, 65536, 2, 32)))))))))
  {
    hide Join, VersionText, ParamsText;
    var hash := (c.encode)((c.argon)(plaintext, salt, STANDARD));
    StandardTexts();
    SixParts("v=19", "m=65536,t=2,p=2", (c.encode)(salt), hash);
  }

  lemma StandardTexts()
    ensures VersionText() == "v=19" && ParamsText(STANDARD) == "m=65536,t=2,p=2"
  {
    assert Digits(19) == "19" && Digits(2) == "2";
    assert Digits(65536) == Digits(6553) + "6" && Digits(6553) == Digits(655) + "3";
    assert Digits(655) == Digits(65) + "5" && Digits(65) == "65";
    assert Digits(65536) == "65536";
  }

  lemma SixParts(version: string, params: string, salt: string, hash: string)
    ensures Join(["", "argon2id", version, params, salt, hash], '$')
         == "$argon2id$" + (version + ("$" + (params + ("$" + (salt + ("$" + hash))))))
  {
    var parts := ["", "argon2id", version, params, salt, hash];
    assert Join(parts[5..], '$') == hash;
    assert parts[4..][1..] == parts[5..] && Join(parts[4..], '$') == salt + ("$" + hash);
    assert parts[3..][1..] == parts[4..] && Join(parts[3..], '$') == params + ("$" + (salt + ("$" + hash)));
    assert parts[2..][1..] == parts[3..];
    assert Join(parts[2..], '$') == version + ("$" + (params + ("$" + (salt + ("$" + hash)))));
    assert parts[1..][1..] == parts[2..];
    assert Join(parts[1..], '$') == "argon2id$" + Join(parts[2..], '$');
    assert Join(parts, '$') == "$" + Join(parts[1..], '$');
  }

  /** Any text of this form is verified with the parameters, the salt and the hash length that it
      states, not with those that new hashes get; and only version 19 is known. */
  lemma VerifyReadsTheText(c: Crypto, candidate: string, version: nat, p: Params, salt: string, hash: string)
    requires Lawful(c) && version <= 0xFFFF_FFFF
    requires p.memory <= 0xFFFF_FFFF && p.time <= 0xFFFF_FFFF && p.threads <= 255 && p.length == |hash|
    ensures Verify(c, candidate,
              "$argon2id$" + ("v=" + Digits(version)
              + ("$" + ("m=" + (Digits(p.memory) + (",t=" + (Digits(p.time) + (",p=" + Digits(p.threads)))))
              + ("$" + ((c.encode)(salt) + ("$" + (c.encode)(hash))))))))
         == if version == 19 then Ok((c.argon)(candidate, salt, p) == hash) else Err(BadVersion)
  {
    var versionText := "v=" + Digits(version);
    var parts := ["", "argon2id", versionText, ParamsText(p), (c.encode)(salt), (c.encode)(hash)];
    SixParts(versionText, ParamsText(p), (c.encode)(salt), (c.encode)(hash));
    assert Digits(p.threads) + "" == Digits(p.threads);
    NoDollars(p);
    DigitsReadBack(version);
    assert '$' !in versionText && '$' !in (c.encode)(salt) && '$' !in (c.encode)(hash);
    JoinSplits(parts, '$');
    assert versionText == "v=" + (Digits(version) + "");
    FieldReadsBack("v=", version, "", UINT32);
    ParamsReadBack(p);
    assert p.(length := 0).(length := |hash|) == p;
  }

  /** Which texts are not hashes at all: those without exactly six parts, and those whose second part is
      not the name of the algorithm. */
  lemma NotArgonIff(c: Crypto, candidate: string, stored: string)
    ensures Verify(c, candidate, stored) == Err(NotArgon) <==>
            |Split(stored, '$')| != 6 || Split(stored, '$')[1] != "argon2id"
  {
  }

  /** The fingerprint is the encoding of eight bytes, the first of the key's keyed digest. */
  lemma FingerprintIsEightBytes(c: Crypto, plaintext: string)
    requires Lawful(c)
    ensures exists bytes :: |bytes| == 8 && bytes <= (c.mac)(plaintext)
                         && KeyIndex(c, plaintext) == (c.encode)(bytes)
                         && (c.decode)(KeyIndex(c, plaintext)) == Some(bytes)
  {
    var bytes := (c.mac)(plaintext)[..8];
    assert (c.decode)((c.encode)(bytes)) == Some(bytes);
  }
}

/** Salted password hashing and checking for the stream's login page, and the
    one-time migration of the stored password. SHA-256 (applied to the UTF-8
    bytes of a string) is an abstract function `digest`; the salt is the
    string form of a random UUID, supplied by the caller. */
module HttpAuth {
  import opened Common

  /** SHA-256 of the UTF-8 encoding of a string. */
  type Digest = string -> seq<byte>

  const DefaultPassword: string := "password"

  predicate IsLowerHexDigit(c: char)
  {
    '0' <= c <= '9' || 'a' <= c <= 'f'
  }

  function HexDigit(v: nat): (c: char)
    requires v < 16
    ensures IsLowerHexDigit(c)
  {
    if v < 10 then ('0' as int + v) as char else ('a' as int + v - 10) as char
  }

  function HexDigitValue(c: char): (v: nat)
    requires IsLowerHexDigit(c)
    ensures v < 16
  {
    if c <= '9' then c as int - '0' as int else c as int - 'a' as int + 10
  }

  /** `joinToString("") { "%02x".format(it) }`: two lower-case hex digits per byte. */
  function Hex(bytes: seq<byte>): (s: string)
    ensures |s| == 2 * |bytes|
    ensures forall i :: 0 <= i < |s| ==> IsLowerHexDigit(s[i])
  {
    if bytes == [] then []
    else [HexDigit(bytes[0] as nat / 16), HexDigit(bytes[0] as nat % 16)] + Hex(bytes[1..])
  }

  /** Reads a hex string back into bytes. */
  function Unhex(s: string): seq<byte>
    requires |s| % 2 == 0
    requires forall i :: 0 <= i < |s| ==> IsLowerHexDigit(s[i])
  {
    if s == [] then []
    else [(HexDigitValue(s[0]) * 16 + HexDigitValue(s[1])) as byte] + Unhex(s[2..])
  }

  /** The hex rendering loses nothing: distinct digests give distinct hashes. */
  lemma {:induction false} UnhexHex(bytes: seq<byte>)
    ensures Unhex(Hex(bytes)) == bytes
  {
    if bytes != [] {
      UnhexHex(bytes[1..]);
      var s := Hex(bytes);
      assert s[2..] == Hex(bytes[1..]);
    }
  }

  /** `hashPassword(password, salt)`: the hex digest of `salt + password`. */
  function HashPassword(digest: Digest, password: string, salt: string): (h: string)
    ensures |h| == 2 * |digest(salt + password)|
    ensures ':' !in h
  {
    var h := Hex(digest(salt + password));
    assert forall i :: 0 <= i < |h| ==> h[i] != ':' by {
      forall i | 0 <= i < |h| ensures h[i] != ':' { assert IsLowerHexDigit(h[i]); }
    }
    h
  }

  /** Position of the first occurrence of `c` in `s`. */
  function IndexOf(s: string, c: char): (r: Option<nat>)
    ensures r.None? <==> c !in s
    ensures r.Some? ==> r.value < |s| && s[r.value] == c && c !in s[..r.value]
  {
    if s == [] then None
    else if s[0] == c then Some(0)
    else
      var rest := IndexOf(s[1..], c);
      assert s == [s[0]] + s[1..];
      if rest.None? then None
      else
        assert s[..rest.value + 1] == [s[0]] + s[1..][..rest.value];
        Some(rest.value + 1)
  }

  /** `verifyPassword(plain, stored)`: false without a `:`; otherwise the text
      before the first `:` is the salt and everything after it the hash. */
  function VerifyPassword(digest: Digest, plain: string, stored: string): (ok: bool)
    ensures ':' !in stored ==> !ok
  {
    match IndexOf(stored, ':')
    case None => false
    case Some(k) => HashPassword(digest, plain, stored[..k]) == stored[k + 1..]
  }

  /** The split is at the first `:`: for a salt without one, the stored value
      `salt:h` accepts exactly the passwords that hash to `h` under `salt`,
      whatever `h` contains. */
  lemma VerifySplitsAtFirstColon(digest: Digest, plain: string, salt: string, h: string)
    requires ':' !in salt
    ensures VerifyPassword(digest, plain, salt + ":" + h) <==> HashPassword(digest, plain, salt) == h
  {
    var stored := salt + ":" + h;
    var k := IndexOf(stored, ':');
    assert stored[|salt|] == ':';
    assert stored[..|salt|] == salt;
    assert k == Some(|salt|);
    assert stored[..|salt|] == salt && stored[|salt| + 1..] == h;
  }

  /** A stored `salt:hash` made from a password accepts that password. */
  lemma VerifyRoundTrip(digest: Digest, plain: string, salt: string)
    requires ':' !in salt
    ensures VerifyPassword(digest, plain, salt + ":" + HashPassword(digest, plain, salt))
  {
    VerifySplitsAtFirstColon(digest, plain, salt, HashPassword(digest, plain, salt));
  }

  /** `UUID.randomUUID().toString()`: 8-4-4-4-12 lower-case hex digits. */
  predicate IsUuidString(s: string)
  {
    |s| == 36 &&
    forall i :: 0 <= i < 36 ==>
      if i == 8 || i == 13 || i == 18 || i == 23 then s[i] == '-' else IsLowerHexDigit(s[i])
  }

  lemma UuidHasNoColon(s: string)
    requires IsUuidString(s)
    ensures ':' !in s
  {
    forall i | 0 <= i < |s| ensures s[i] != ':' {
      assert if i == 8 || i == 13 || i == 18 || i == 23 then s[i] == '-' else IsLowerHexDigit(s[i]);
    }
  }

  /** The three `SharedPreferences` entries the service uses: the `salt:hash`
      value, the flag that it is hashed, and the legacy plain-text password. */
  datatype Prefs = Prefs(passwordHash: Option<string>, isHashed: bool, legacyPassword: Option<string>)

  predicate NeedsMigration(p: Prefs)
  {
    p.passwordHash.None? || !p.isHashed
  }

  /** The password a migration hashes: the legacy one, else "password". */
  function PasswordToMigrate(p: Prefs): string
  {
    if p.legacyPassword.Some? then p.legacyPassword.value else DefaultPassword
  }

  /** The preferences after the service starts: when no hashed value is
      stored (or the flag is unset), the legacy password is hashed with a fresh
      salt, stored with the flag, and the legacy entry removed; otherwise the
      stored value is kept as it is. */
  function Migrate(p: Prefs, salt: string, digest: Digest): (r: Prefs)
    ensures r.passwordHash.Some? && r.isHashed
    ensures !NeedsMigration(p) ==> r == p
    ensures NeedsMigration(p) ==> r.legacyPassword.None?
  {
    if NeedsMigration(p) then
      Prefs(Some(salt + ":" + HashPassword(digest, PasswordToMigrate(p), salt)), true, None)
    else p
  }

  /** After a migration the stored value accepts the password that was migrated. */
  lemma MigrationKeepsPassword(p: Prefs, salt: string, digest: Digest)
    requires IsUuidString(salt) && NeedsMigration(p)
    ensures VerifyPassword(digest, PasswordToMigrate(p), Migrate(p, salt, digest).passwordHash.value)
  {
    UuidHasNoColon(salt);
    VerifyRoundTrip(digest, PasswordToMigrate(p), salt);
  }

  /** A second start finds the migrated value and keeps it, whatever salt it draws. */
  lemma MigrateIdempotent(p: Prefs, salt1: string, salt2: string, digest: Digest)
    ensures Migrate(Migrate(p, salt1, digest), salt2, digest) == Migrate(p, salt1, digest)
  {
  }
}

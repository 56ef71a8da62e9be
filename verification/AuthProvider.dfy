/** The in-memory credential store with salted, printed password records. */
module AuthProviders {
  import opened Basics
  import Codec
  import Text

  const ITERATIONS := 200_000
  const SALT_LEN := 16
  const KEY_LEN := 32

  type Salt = s: seq<byte> | |s| == SALT_LEN witness seq(SALT_LEN, _ => 0)
  type DerivedKey = s: seq<byte> | |s| == 32 witness seq(32, _ => 0)

  /** PBKDF2 (RFC 8018, section 5.2) from password, salt and iteration count, as
      an arbitrary function. */
  type Kdf = (string, seq<byte>, nat) -> DerivedKey

  /** The record "iterations:saltHex:keyHex". */
  function PrintRecord(iterations: nat, salt: seq<byte>, key: seq<byte>): string {
    Codec.ToDecimal(iterations) + ":" + Codec.ToHex(salt) + ":" + Codec.ToHex(key)
  }

  /** The three fields around the first two colons. */
  datatype Fields = Fields(iterations: string, salt: string, key: string)

  function SplitRecord(stored: string): Option<Fields> {
    var iterations := Text.Until(stored, ':');
    if |iterations| == |stored| then None
    else
      var tail := stored[|iterations| + 1..];
      var salt := Text.Until(tail, ':');
      if |salt| == |tail| then None
      else Some(Fields(iterations, salt, tail[|salt| + 1..]))
  }

  /** The fields by the positions of the two colons. */
  lemma FieldsAt(stored: string, p1: nat, gap: nat)
    requires Text.IndexOf(stored, ':') == Some(p1)
    requires Text.IndexOf(stored[p1 + 1..], ':') == Some(gap)
    ensures var p2 := p1 + 1 + gap;
            SplitRecord(stored) == Some(Fields(stored[..p1], stored[p1 + 1..p2], stored[p2 + 1..]))
  {
    hide Text.IndexOf;
    var tail := stored[p1 + 1..];
    assert stored[p1 + 1..p1 + 1 + gap] == tail[..gap];
    assert stored[p1 + 1 + gap + 1..] == tail[gap + 1..];
  }

  /** Records whose fields are in the printer's alphabet. Only the printer writes
      them, so these are all the records a store ever holds. */
  predicate Readable(stored: string) {
    match SplitRecord(stored)
    case None => true
    case Some(f) => Codec.AllDigits(f.iterations) && Codec.AllHex(f.salt) && Codec.AllHex(f.key)
  }

  type StoredHash = s: string | Readable(s) witness ""

  /** Whether a password matches a stored record. */
  function Verifies(kdf: Kdf, password: string, stored: StoredHash): bool {
    match SplitRecord(stored)
    case None => false
    case Some(f) =>
      match Codec.Stoi(f.iterations)
      case None => false
      case Some(iterations) =>
        |Codec.FromHex(f.key)| == KEY_LEN
        && kdf(password, Codec.FromHex(f.salt), iterations) == Codec.FromHex(f.key)
  }

  /** What the printer writes for a password and a salt. */
  function HashOf(kdf: Kdf, password: string, salt: Salt): (stored: StoredHash)
  {
    var s := PrintRecord(ITERATIONS, salt, kdf(password, salt, ITERATIONS));
    RecordRoundTrip(ITERATIONS, salt, kdf(password, salt, ITERATIONS));
    s
  }

  datatype UserRecord = UserRecord(passwordHash: StoredHash, role: Role)

  method ToHex(data: seq<byte>) returns (out: string)
    ensures out == Codec.ToHex(data)
  {
    var text := new char[2 * |data|];
    var i := 0;
    while i < |data|
      invariant 0 <= i <= |data|
      invariant forall k | 0 <= k < 2 * i :: text[k] == Codec.HexAt(data, k)
    {
      text[2 * i] := Codec.HEX_DIGITS[data[i] / 16];
      text[2 * i + 1] := Codec.HEX_DIGITS[data[i] % 16];
      assert text[2 * i] == Codec.HexAt(data, 2 * i);
      assert text[2 * i + 1] == Codec.HexAt(data, 2 * i + 1);
      i := i + 1;
    }
    return text[..];
  }

  method FromHex(hex: string) returns (out: seq<byte>)
    requires Codec.AllHex(hex)
    ensures out == Codec.FromHex(hex)
  {
    var bytes := new byte[|hex| / 2];
    var i := 0;
    while i < bytes.Length
      invariant 0 <= i <= bytes.Length
      invariant forall k | 0 <= k < i :: bytes[k] == Codec.FromHex(hex)[k]
    {
      bytes[i] := 16 * Codec.HexValue(hex[2 * i]) + Codec.HexValue(hex[2 * i + 1]);
      i := i + 1;
    }
    return bytes[..];
  }

  class TestAuthProvider {
    const kdf: Kdf
    var users: map<string, UserRecord>

    constructor (kdf: Kdf)
      ensures this.kdf == kdf && users == map[]
    {
      this.kdf := kdf;
      users := map[];
    }

    /** None models the throw when no random salt is to be had. */
    method Pbkdf2Hash(password: string, random: Option<Salt>) returns (stored: Option<StoredHash>)
      ensures stored == if random.None? then None else Some(HashOf(kdf, password, random.value))
    {
      if random.None? {
        return None;
      }
      var salt := random.value;
      var key := kdf(password, salt, ITERATIONS);
      var saltHex := ToHex(salt);
      var keyHex := ToHex(key);
      var text := Codec.ToDecimal(ITERATIONS) + ":" + saltHex + ":" + keyHex;
      assert text == PrintRecord(ITERATIONS, salt, key) == HashOf(kdf, password, salt);
      return Some(text);
    }

    method Pbkdf2Verify(password: string, stored: StoredHash) returns (ok: bool)
      ensures ok == Verifies(kdf, password, stored)
    {
      hide Text.IndexOf, Codec.FromHex, Codec.FromDecimal;
      var p1 := Text.IndexOf(stored, ':');
      if p1.None? {
        return false;
      }
      var gap := Text.IndexOf(stored[p1.value + 1..], ':');
      if gap.None? {
        return false;
      }
      var p2 := p1.value + 1 + gap.value;
      FieldsAt(stored, p1.value, gap.value);
      var iterations := Codec.Stoi(stored[..p1.value]);
      if iterations.None? {
        return false;
      }
      var salt := FromHex(stored[p1.value + 1..p2]);
      var expected := FromHex(stored[p2 + 1..]);
      if |expected| != KEY_LEN {
        return false;
      }
      return kdf(password, salt, iterations.value) == expected;
    }

    /** Copies hash and role out together, then verifies against that copy. */
    method Authenticate(username: string, password: string) returns (role: Option<Role>)
      ensures role == if username in users && Verifies(kdf, password, users[username].passwordHash)
                      then Some(users[username].role) else None
    {
      if username !in users {
        return None;
      }
      var record := users[username];
      var ok := Pbkdf2Verify(password, record.passwordHash);
      return if ok then Some(record.role) else None;
    }

    /** Upsert; false models the throw when no random salt is to be had. */
    method SeedUser(username: string, password: string, role: Role, random: Option<Salt>) returns (ok: bool)
      modifies this
      ensures ok == random.Some?
      ensures users == if ok then old(users)[username := UserRecord(HashOf(kdf, password, random.value), role)]
                       else old(users)
    {
      var hash := Pbkdf2Hash(password, random);
      if hash.None? {
        return false;
      }
      users := users[username := UserRecord(hash.value, role)];
      return true;
    }

    method RemoveUser(username: string) returns (removed: bool)
      modifies this
      ensures removed == (username in old(users))
      ensures users == old(users) - {username}
    {
      removed := username in users;
      users := users - {username};
    }

    method SetUserRole(username: string, role: Role) returns (found: bool)
      modifies this
      ensures found == (username in old(users))
      ensures users == if found then old(users)[username := old(users)[username].(role := role)] else old(users)
    {
      if username !in users {
        return false;
      }
      users := users[username := users[username].(role := role)];
      return true;
    }
  }

  /** A hexadecimal or decimal field has no colon. */
  lemma NoColon(s: string)
    requires forall i | 0 <= i < |s| :: Codec.IsHex(s[i]) || Codec.IsDigit(s[i])
    ensures ':' !in s
  {
  }

  /** A colon-free field followed by a colon ends exactly there. */
  lemma FieldEnds(field: string, rest: string)
    requires ':' !in field
    ensures var s := field + ":" + rest;
            Text.Until(s, ':') == field && s[|field| + 1..] == rest
  {
    hide Text.IndexOf;
    var s := field + ":" + rest;
    assert s[|field|] == ':';
    Text.UntilUnique(s, ':', field);
  }

  lemma SplitsBack(a: string, b: string, c: string)
    requires ':' !in a && ':' !in b
    ensures SplitRecord(a + ":" + b + ":" + c) == Some(Fields(a, b, c))
  {
    hide Text.Until;
    assert a + ":" + b + ":" + c == a + ":" + (b + ":" + c);
    FieldEnds(a, b + ":" + c);
    FieldEnds(b, c);
  }

  /** A printed record is split at the right colons and decodes to what was printed. */
  lemma RecordRoundTrip(iterations: nat, salt: seq<byte>, key: seq<byte>)
    ensures var s := PrintRecord(iterations, salt, key);
            SplitRecord(s) == Some(Fields(Codec.ToDecimal(iterations), Codec.ToHex(salt), Codec.ToHex(key)))
            && Readable(s)
    ensures Codec.FromDecimal(Codec.ToDecimal(iterations)) == iterations
    ensures Codec.AllHex(Codec.ToHex(salt)) && Codec.FromHex(Codec.ToHex(salt)) == salt
    ensures Codec.AllHex(Codec.ToHex(key)) && Codec.FromHex(Codec.ToHex(key)) == key
  {
    var a, b, c := Codec.ToDecimal(iterations), Codec.ToHex(salt), Codec.ToHex(key);
    Codec.DecimalRoundTrip(iterations);
    Codec.HexRoundTrip(salt);
    Codec.HexRoundTrip(key);
    NoColon(a);
    NoColon(b);
    SplitsBack(a, b, c);
  }

  /** What a record asks of a password: that it derives exactly the recorded key, of
      32 bytes, under the recorded salt and iteration count, which fits an int. */
  lemma VerifyRecord(kdf: Kdf, asked: string, iterations: nat, salt: seq<byte>, key: seq<byte>)
    ensures Readable(PrintRecord(iterations, salt, key))
    ensures Verifies(kdf, asked, PrintRecord(iterations, salt, key))
            <==> iterations <= 2_147_483_647 && |key| == 32 && kdf(asked, salt, iterations) == key
  {
    RecordRoundTrip(iterations, salt, key);
    hide Codec.ToHex, Codec.FromHex, Codec.ToDecimal, Codec.FromDecimal, SplitRecord;
  }

  /** The text that is stored for a password and a salt. */
  lemma StoredText(kdf: Kdf, password: string, salt: Salt)
    ensures HashOf(kdf, password, salt)
            == "200000:" + Codec.ToHex(salt) + ":" + Codec.ToHex(kdf(password, salt, 200_000))
    ensures |salt| == 16 && |kdf(password, salt, 200_000)| == 32
  {
    hide Codec.ToDecimal, Codec.ToHex;
    Codec.DecimalDigits(2);
    Codec.DecimalDigits(20);
    Codec.DecimalDigits(200);
    Codec.DecimalDigits(2_000);
    Codec.DecimalDigits(20_000);
    Codec.DecimalDigits(200_000);
    assert Codec.ToDecimal(200_000) + ":" == "200000:";
  }

  /** A password verifies against a printed record exactly when it derives the
      same key under the record's salt. */
  lemma VerifyHash(kdf: Kdf, asked: string, password: string, salt: Salt)
    ensures Verifies(kdf, asked, HashOf(kdf, password, salt))
            <==> kdf(asked, salt, 200_000) == kdf(password, salt, 200_000)
  {
    VerifyRecord(kdf, asked, ITERATIONS, salt, kdf(password, salt, ITERATIONS));
  }

  /** A text without two colons verifies for nobody. */
  lemma NotARecord(kdf: Kdf, asked: string, stored: StoredHash)
    ensures SplitRecord(stored).None? <==> !exists i, j :: 0 <= i < j < |stored| && stored[i] == ':' && stored[j] == ':'
    ensures SplitRecord(stored).None? ==> !Verifies(kdf, asked, stored)
  {
    hide Text.IndexOf, Text.Until;
    var first := Text.Until(stored, ':');
    if |first| < |stored| {
      var tail := stored[|first| + 1..];
      var second := Text.Until(tail, ':');
      if |second| < |tail| {
        assert stored[|first|] == ':' && stored[|first| + 1 + |second|] == ':';
      } else {
        assert forall j | |first| < j < |stored| :: stored[j] == tail[j - |first| - 1];
      }
    }
    assert forall i | 0 <= i < |first| :: stored[i] == first[i];
  }

  /** Changing a role keeps the password; adding, removing or re-roling one user
      leaves every other user's credentials alone. */
  method ManagedUser(p: TestAuthProvider, name: string, password: string, role: Role, newRole: Role,
                     salt: Salt, other: string, guess: string)
    returns (otherBefore: Option<Role>, added: Option<Role>, changed: Option<Role>,
             gone: Option<Role>, otherAfter: Option<Role>)
    requires other != name
    modifies p
    ensures added == Some(role) && changed == Some(newRole) && gone == None
    ensures otherAfter == otherBefore
  {
    hide Verifies, HashOf;
    otherBefore := p.Authenticate(other, guess);
    VerifyHash(p.kdf, password, password, salt);
    var _ := p.SeedUser(name, password, role, Some(salt));
    added := p.Authenticate(name, password);
    var _ := p.SetUserRole(name, newRole);
    changed := p.Authenticate(name, password);
    var _ := p.RemoveUser(name);
    gone := p.Authenticate(name, password);
    otherAfter := p.Authenticate(other, guess);
  }
}

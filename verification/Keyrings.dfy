/**
The versioned master keys (internal/security/keyring.go). AES-GCM and base64 are parameters: `Aead`
carries seal and open, of which only "open undoes seal" is used (sections 7.1 and 7.2 of NIST SP 800-38D).
*/
module Keyrings {
  import opened Options
  import opened Text

  type Byte = b: int | 0 <= b < 256
  type Bytes = seq<Byte>

  const AES256_KEY_SIZE := 32
  const NONCE_SIZE := 12
  const OVERHEAD := 16
  const MAX_INT32 := 0x7FFF_FFFF

  datatype KeyError = InvalidKey | UnknownKeyVersion | InvalidCiphertext

  datatype Result<+T> = Ok(value: T) | Err(error: KeyError)

  datatype Keyring = Keyring(activeVersion: int, keys: map<int, Bytes>)

  // ---------------------------------------------------------------- construction

  ghost predicate WellFormed(kr: Keyring) {
    kr.activeVersion in kr.keys && forall v | v in kr.keys :: v > 0 && |kr.keys[v]| == AES256_KEY_SIZE
  }

  lemma SameKeys(a: map<int, Bytes>, b: map<int, Bytes>)
    requires forall v | v in a :: v in b && a[v] == b[v]
    requires forall v | v in b :: v in a
    ensures a == b
  {
    forall v | v in a ensures v in b && a[v] == b[v] {
    }
    forall v | v in b ensures v in a {
    }
  }

  /** Copies the keys one by one, in the order in which the map happens to be ranged over. */
  method NewKeyring(activeVersion: int, keys: map<int, Bytes>, order: seq<int>) returns (r: Result<Keyring>)
    requires forall v :: v in keys <==> v in order
    ensures r.Ok? <==> WellFormed(Keyring(activeVersion, keys))
    ensures r.Ok? ==> r.value == Keyring(activeVersion, keys)
    ensures r.Err? ==>
              r.error == (if activeVersion > 0 && activeVersion !in keys then UnknownKeyVersion else InvalidKey)
  {
    if activeVersion <= 0 {
      return Err(InvalidKey);
    }
    if activeVersion !in keys {
      return Err(UnknownKeyVersion);
    }
    var copies: map<int, Bytes> := map[];
    for i := 0 to |order|
      invariant forall v :: v in copies <==> v in order[..i]
      invariant forall v | v in copies :: copies[v] == keys[v] && v > 0 && |keys[v]| == AES256_KEY_SIZE
    {
      var version := order[i];
      assert version in order;
      if version <= 0 || |keys[version]| != AES256_KEY_SIZE {
        return Err(InvalidKey);
      }
      copies := copies[version := keys[version]];
      assert order[..i + 1] == order[..i] + [version];
    }
    assert order[..|order|] == order;
    SameKeys(copies, keys);
    return Ok(Keyring(activeVersion, copies));
  }

  /** decode stands for base64.StdEncoding.DecodeString. */
  function ParseBase64Key(decode: string -> Option<Bytes>, encoded: string): Option<Bytes> {
    var key := decode(TrimSpace(encoded));
    if key.None? || |key.value| != AES256_KEY_SIZE then None else key
  }

  function VersionOf(raw: string): Option<int> {
    var version := ParseInt(TrimSpace(raw));
    if version.None? || version.value <= 0 || version.value > MAX_INT32 then None else version
  }

  /** How a raw version and an encoded key are read. */
  datatype Reader = Reader(version: string -> Option<int>, key: string -> Option<Bytes>)

  /** The reading the program does: trimmed decimal versions up to 2^31-1, trimmed base64 keys of 32 bytes. */
  function Base64Reader(decode: string -> Option<Bytes>): Reader {
    Reader(raw => VersionOf(raw), encoded => ParseBase64Key(decode, encoded))
  }

  ghost predicate ReadsValid(rd: Reader) {
    (forall raw :: rd.version(raw).Some? ==> rd.version(raw).value > 0) &&
    (forall e :: rd.key(e).Some? ==> |rd.key(e).value| == AES256_KEY_SIZE)
  }

  /** The JSON map of previous keys: blank text, text that does not parse, or the entries. */
  datatype Previous = Blank | Malformed | Entries(keys: map<string, string>)

  function EntriesOf(previous: Previous): map<string, string> {
    if previous.Entries? then previous.keys else map[]
  }

  /** order lists the keys of the map, each once. */
  ghost predicate Enumerates(order: seq<string>, entries: map<string, string>) {
    (forall raw :: raw in entries <==> raw in order) && forall i, j | 0 <= i < j < |order| :: order[i] != order[j]
  }

  /** Every version readable, pairwise distinct once read and different from the active one; every key readable. */
  ghost predicate Buildable(rd: Reader, activeVersion: int, activeEncoded: string, previous: Previous) {
    var entries := EntriesOf(previous);
    && 1 <= activeVersion <= MAX_INT32
    && rd.key(activeEncoded).Some?
    && !previous.Malformed?
    && (forall raw | raw in entries ::
          rd.version(raw).Some? && rd.version(raw).value != activeVersion && rd.key(entries[raw]).Some?)
    && (forall a, b | a in entries && b in entries && rd.version(a) == rd.version(b) :: a == b)
  }

  /** The active key and one key per entry, under its version as read, and nothing else. */
  ghost predicate HoldsExactly(rd: Reader, activeVersion: int, activeEncoded: string,
                               entries: map<string, string>, keys: map<int, Bytes>)
  {
    && activeVersion in keys && rd.key(activeEncoded) == Some(keys[activeVersion])
    && (forall raw | raw in entries ::
          rd.version(raw).Some? && rd.version(raw).value in keys &&
          rd.key(entries[raw]) == Some(keys[rd.version(raw).value]))
    && (forall v | v in keys && v != activeVersion :: exists raw | raw in entries :: rd.version(raw) == Some(v))
  }

  /** What the loop keeps: the part of the entries done so far is accepted and held. */
  ghost predicate DoneSoFar(rd: Reader, activeVersion: int, activeEncoded: string,
                            entries: map<string, string>, done: map<string, string>, keys: map<int, Bytes>)
  {
    && (forall raw | raw in done ::
          raw in entries && done[raw] == entries[raw] && rd.version(raw).Some? &&
              rd.version(raw).value != activeVersion)
    && (forall a, b | a in done && b in done && rd.version(a) == rd.version(b) :: a == b)
    && HoldsExactly(rd, activeVersion, activeEncoded, done, keys)
  }

  lemma OneMoreDone(rd: Reader, activeVersion: int, activeEncoded: string,
                    entries: map<string, string>, done: map<string, string>, keys: map<int, Bytes>, raw: string)
    requires DoneSoFar(rd, activeVersion, activeEncoded, entries, done, keys)
    requires raw in entries && raw !in done && rd.version(raw).Some? && rd.version(raw).value !in keys
    requires rd.key(entries[raw]).Some?
    ensures DoneSoFar(rd, activeVersion, activeEncoded, entries,
                      done[raw := entries[raw]], keys[rd.version(raw).value := rd.key(entries[raw]).value])
  {
  }

  /** A version that is taken already makes the whole set unacceptable. */
  lemma TakenVersion(rd: Reader, activeVersion: int, activeEncoded: string,
                     previous: Previous, done: map<string, string>, keys: map<int, Bytes>, raw: string)
    requires DoneSoFar(rd, activeVersion, activeEncoded, EntriesOf(previous), done, keys)
    requires raw in EntriesOf(previous) && raw !in done && rd.version(raw).Some? && rd.version(raw).value in keys
    ensures !Buildable(rd, activeVersion, activeEncoded, previous)
  {
  }

  /** Ranges over the entries in the given order, which the contract does not mention: it cannot show. */
  method NewKeyringFromEntries(rd: Reader, activeVersion: int, activeEncoded: string, previous: Previous,
                               order: seq<string>)
    returns (r: Result<Keyring>)
    requires ReadsValid(rd)
    requires Enumerates(order, EntriesOf(previous))
    ensures r.Ok? <==> Buildable(rd, activeVersion, activeEncoded, previous)
    ensures r.Ok? ==> r.value.activeVersion == activeVersion && WellFormed(r.value)
    ensures r.Ok? ==> HoldsExactly(rd, activeVersion, activeEncoded, EntriesOf(previous), r.value.keys)
  {
    if activeVersion <= 0 || activeVersion > MAX_INT32 {
      return Err(InvalidKey);
    }
    var activeKey := rd.key(activeEncoded);
    if activeKey.None? {
      return Err(InvalidKey);
    }
    var keys := map[activeVersion := activeKey.value];
    if previous.Malformed? {
      return Err(InvalidKey);
    }
    var entries := EntriesOf(previous);
    ghost var done: map<string, string> := map[];
    var versions := [activeVersion];
    for i := 0 to |order|
      invariant forall raw :: raw in done <==> raw in order[..i]
      invariant DoneSoFar(rd, activeVersion, activeEncoded, entries, done, keys)
      invariant forall v | v in keys :: v > 0 && |keys[v]| == AES256_KEY_SIZE
      invariant forall v :: v in keys <==> v in versions
    {
      var raw := order[i];
      assert raw in order && raw !in order[..i];
      var version := rd.version(raw);
      if version.None? {
        return Err(InvalidKey);
      }
      if version.value in keys {
        TakenVersion(rd, activeVersion, activeEncoded, previous, done, keys, raw);
        return Err(InvalidKey);
      }
      var key := rd.key(entries[raw]);
      if key.None? {
        return Err(InvalidKey);
      }
      OneMoreDone(rd, activeVersion, activeEncoded, entries, done, keys, raw);
      keys := keys[version.value := key.value];
      done := done[raw := entries[raw]];
      versions := versions + [version.value];
      assert order[..i + 1] == order[..i] + [raw];
    }
    assert order[..|order|] == order;
    assert done == entries;
    r := NewKeyring(activeVersion, keys, versions);
  }

  // ---------------------------------------------------------------- what the texts mean

  /** The text is a decimal number v, perhaps with a plus sign, perhaps with spaces around it. */
  ghost predicate IsVersionText(raw: string, v: int) {
    exists a, sign, digits, b :: IsVersionParts(raw, v, a, sign, digits, b)
  }

  ghost predicate IsVersionParts(raw: string, v: int, a: string, sign: string, digits: string, b: string) {
    && raw == a + (sign + digits) + b && AllSpaces(a) && AllSpaces(b) && (sign == "" || sign == "+")
    && digits != "" && AllDigits(digits) && DigitsValue(digits) == v
  }

  /** Every number that is printed, with any spaces around it, is such a text. */
  lemma PrintedVersionIsText(a: string, v: nat, b: string)
    requires AllSpaces(a) && AllSpaces(b)
    ensures IsVersionText(a + FormatInt(v) + b, v)
  {
    assert "" + FormatNat(v) == FormatNat(v);
    assert IsVersionParts(a + FormatInt(v) + b, v, a, "", FormatNat(v), b);
  }

  lemma DigitIsNoSpace(c: char)
    requires IsDigit(c) || c == '+'
    ensures !IsSpace(c)
  {
  }

  lemma VersionTextIsRead(raw: string, v: int, a: string, sign: string, digits: string, b: string)
    requires IsVersionParts(raw, v, a, sign, digits, b) && 1 <= v <= MAX_INT32
    ensures VersionOf(raw) == Some(v)
  {
    var t := sign + digits;
    DigitIsNoSpace(t[0]);
    DigitIsNoSpace(t[|t| - 1]);
    TrimSpaceDrops(a, t, b);
    if sign == "" {
      assert t == digits;
    } else {
      assert t[1..] == digits;
    }
  }

  lemma ReadVersionIsText(raw: string)
    requires VersionOf(raw).Some?
    ensures 1 <= VersionOf(raw).value <= MAX_INT32 && IsVersionText(raw, VersionOf(raw).value)
  {
    var v := VersionOf(raw).value;
    var a, b := TrimSpaceKeeps(raw);
    var t := TrimSpace(raw);
    if t[0] == '+' {
      assert t == "+" + t[1..];
      assert IsVersionParts(raw, v, a, "+", t[1..], b);
    } else {
      assert t == "" + t;
      assert IsVersionParts(raw, v, a, "", t, b);
    }
  }

  lemma VersionOfMeans(raw: string, v: int)
    ensures VersionOf(raw) == Some(v) <==> 1 <= v <= MAX_INT32 && IsVersionText(raw, v)
  {
    if VersionOf(raw) == Some(v) {
      ReadVersionIsText(raw);
    }
    if 1 <= v <= MAX_INT32 && IsVersionText(raw, v) {
      var a, sign, digits, b :| IsVersionParts(raw, v, a, sign, digits, b);
      VersionTextIsRead(raw, v, a, sign, digits, b);
    }
  }

  /** The trimmed text decodes to this key of 32 bytes. */
  ghost predicate IsKeyText(decode: string -> Option<Bytes>, encoded: string, key: Bytes) {
    decode(TrimSpace(encoded)) == Some(key) && |key| == 32
  }

  /** When the program builds a keyring, said of the texts. */
  ghost predicate BuildableTexts(decode: string -> Option<Bytes>, activeVersion: int, activeEncoded: string,
                                 previous: Previous)
  {
    var entries := EntriesOf(previous);
    && 1 <= activeVersion <= 0x7FFF_FFFF && !previous.Malformed?
    && (exists key :: IsKeyText(decode, activeEncoded, key))
    && (forall raw | raw in entries :: exists key :: IsKeyText(decode, entries[raw], key))
    && (forall raw | raw in entries ::
          exists v :: IsVersionText(raw, v) && 1 <= v <= 0x7FFF_FFFF && v != activeVersion)
    && (forall p, q, v | p in entries && q in entries && IsVersionText(p, v) && IsVersionText(q, v) :: p == q)
  }

  lemma SameVersionText(raw: string, v: int)
    requires VersionOf(raw).Some? && IsVersionText(raw, v)
    ensures VersionOf(raw) == Some(v)
  {
    var a, sign, digits, b :| IsVersionParts(raw, v, a, sign, digits, b);
    var t := sign + digits;
    DigitIsNoSpace(t[0]);
    DigitIsNoSpace(t[|t| - 1]);
    TrimSpaceDrops(a, t, b);
    if sign == "" {
      assert t == digits;
    } else {
      assert t[1..] == digits;
    }
  }

  lemma BuildableSaysTexts(decode: string -> Option<Bytes>, activeVersion: int, activeEncoded: string,
                           previous: Previous)
    requires Buildable(Base64Reader(decode), activeVersion, activeEncoded, previous)
    ensures BuildableTexts(decode, activeVersion, activeEncoded, previous)
  {
    var entries, rd := EntriesOf(previous), Base64Reader(decode);
    assert IsKeyText(decode, activeEncoded, rd.key(activeEncoded).value);
    forall raw | raw in entries ensures exists key :: IsKeyText(decode, entries[raw], key) {
      assert IsKeyText(decode, entries[raw], rd.key(entries[raw]).value);
    }
    forall raw | raw in entries
      ensures exists v :: IsVersionText(raw, v) && 1 <= v <= 0x7FFF_FFFF && v != activeVersion
    {
      ReadVersionIsText(raw);
      assert rd.version(raw) == VersionOf(raw);
    }
    forall p, q, v | p in entries && q in entries && IsVersionText(p, v) && IsVersionText(q, v) ensures p == q {
      assert rd.version(p) == VersionOf(p) && rd.version(q) == VersionOf(q);
      SameVersionText(p, v);
      SameVersionText(q, v);
    }
  }

  lemma TextsSayBuildable(decode: string -> Option<Bytes>, activeVersion: int, activeEncoded: string,
                          previous: Previous)
    requires BuildableTexts(decode, activeVersion, activeEncoded, previous)
    ensures Buildable(Base64Reader(decode), activeVersion, activeEncoded, previous)
  {
    var entries, rd := EntriesOf(previous), Base64Reader(decode);
    forall raw | raw in entries
      ensures rd.version(raw).Some? && rd.version(raw).value != activeVersion && rd.key(entries[raw]).Some?
    {
      var v :| IsVersionText(raw, v) && 1 <= v <= 0x7FFF_FFFF && v != activeVersion;
      VersionOfMeans(raw, v);
    }
    forall p, q | p in entries && q in entries && rd.version(p) == rd.version(q) ensures p == q {
      assert rd.version(p) == VersionOf(p) && rd.version(q) == VersionOf(q);
      ReadVersionIsText(p);
      ReadVersionIsText(q);
    }
  }

  method NewKeyringFromBase64(decode: string -> Option<Bytes>, activeVersion: int, activeEncoded: string,
                              previous: Previous, order: seq<string>) returns (r: Result<Keyring>)
    requires Enumerates(order, EntriesOf(previous))
    ensures r.Ok? <==> BuildableTexts(decode, activeVersion, activeEncoded, previous)
    ensures r.Ok? ==> r.value.activeVersion == activeVersion && WellFormed(r.value)
    ensures r.Ok? ==> HoldsTexts(decode, activeVersion, activeEncoded, EntriesOf(previous), r.value.keys)
  {
    r := NewKeyringFromEntries(Base64Reader(decode), activeVersion, activeEncoded, previous, order);
    if r.Ok? {
      BuildableSaysTexts(decode, activeVersion, activeEncoded, previous);
      HoldsMeans(decode, activeVersion, activeEncoded, EntriesOf(previous), r.value.keys);
    } else if BuildableTexts(decode, activeVersion, activeEncoded, previous) {
      TextsSayBuildable(decode, activeVersion, activeEncoded, previous);
      assert false;
    }
  }

  /** The active key, the key of every entry under the version that its text says, and nothing else. */
  ghost predicate HoldsTexts(decode: string -> Option<Bytes>, activeVersion: int, activeEncoded: string,
                             entries: map<string, string>, keys: map<int, Bytes>)
  {
    && activeVersion in keys && IsKeyText(decode, activeEncoded, keys[activeVersion])
    && (forall raw, v | raw in entries && IsVersionText(raw, v) ::
          v in keys && IsKeyText(decode, entries[raw], keys[v]))
    && (forall v | v in keys && v != activeVersion :: exists raw | raw in entries :: IsVersionText(raw, v))
  }

  lemma HoldsMeans(decode: string -> Option<Bytes>, activeVersion: int, activeEncoded: string,
                   entries: map<string, string>, keys: map<int, Bytes>)
    requires HoldsExactly(Base64Reader(decode), activeVersion, activeEncoded, entries, keys)
    ensures HoldsTexts(decode, activeVersion, activeEncoded, entries, keys)
  {
    var rd := Base64Reader(decode);
    forall raw, v | raw in entries && IsVersionText(raw, v)
      ensures v in keys && IsKeyText(decode, entries[raw], keys[v])
    {
      assert rd.version(raw) == VersionOf(raw) && rd.key(entries[raw]) == ParseBase64Key(decode, entries[raw]);
      SameVersionText(raw, v);
    }
    forall v | v in keys && v != activeVersion ensures exists raw | raw in entries :: IsVersionText(raw, v) {
      var raw :| raw in entries && rd.version(raw) == Some(v);
      ReadVersionIsText(raw);
    }
  }

  /** The contract leaves no room: two keyrings built from the same entries are equal. */
  lemma OrderDoesNotMatter(rd: Reader, activeVersion: int, activeEncoded: string,
                           entries: map<string, string>, a: map<int, Bytes>, b: map<int, Bytes>)
    requires HoldsExactly(rd, activeVersion, activeEncoded, entries, a)
    requires HoldsExactly(rd, activeVersion, activeEncoded, entries, b)
    ensures a == b
  {
    forall v | v in a && v != activeVersion ensures v in b && a[v] == b[v] {
      var raw :| raw in entries && rd.version(raw) == Some(v);
    }
    forall v | v in b && v != activeVersion ensures v in a {
      var raw :| raw in entries && rd.version(raw) == Some(v);
    }
  }

  // ---------------------------------------------------------------- encryption

  /** Arguments: key, nonce, text, additional data. */
  datatype Aead = Aead(seal: (Bytes, Bytes, Bytes, Bytes) -> Bytes, open: (Bytes, Bytes, Bytes, Bytes) -> Option<Bytes>)

  ghost predicate OpenUndoesSeal(g: Aead) {
    forall key, nonce, text, aad | |key| == AES256_KEY_SIZE && |nonce| == NONCE_SIZE ::
      var sealed := g.seal(key, nonce, text, aad);
      |sealed| == |text| + OVERHEAD && g.open(key, nonce, sealed, aad) == Some(text)
  }

  datatype EncryptedValue = EncryptedValue(keyVersion: int, ciphertext: Bytes)

  /** Byte i of u, counted from the least significant one. */
  function ByteAt(u: nat, i: nat): Byte
    decreases i
  {
    if i == 0 then u % 256 else ByteAt(u / 256, i - 1)
  }

  /** uint64(version), big-endian. */
  /** The n low bytes of u, the most significant one first. */
  function BigEndian(u: nat, n: nat): (b: Bytes)
    ensures |b| == n && forall i | 0 <= i < n :: b[i] == ByteAt(u, n - 1 - i)
  {
    seq(n, i requires 0 <= i < n => ByteAt(u, n - 1 - i))
  }

  function KeyVersionAAD(version: int): Bytes {
    BigEndian(version % 0x1_0000_0000_0000_0000, 8)
  }

  function Encrypt(g: Aead, kr: Keyring, text: Bytes, nonce: Bytes): Result<EncryptedValue> {
    if kr.activeVersion !in kr.keys then Err(UnknownKeyVersion)
    else
      var sealed := g.seal(kr.keys[kr.activeVersion], nonce, text, KeyVersionAAD(kr.activeVersion));
      Ok(EncryptedValue(kr.activeVersion, nonce + sealed))
  }

  function Decrypt(g: Aead, kr: Keyring, value: EncryptedValue): Result<Bytes> {
    if value.keyVersion !in kr.keys then Err(UnknownKeyVersion)
    else if |value.ciphertext| < NONCE_SIZE + OVERHEAD then Err(InvalidCiphertext)
    else
      var nonce, sealed := value.ciphertext[..NONCE_SIZE], value.ciphertext[NONCE_SIZE..];
      match g.open(kr.keys[value.keyVersion], nonce, sealed, KeyVersionAAD(value.keyVersion))
      case None => Err(InvalidCiphertext)
      case Some(text) => Ok(text)
  }

  /** Whatever the reader's active version: it reads what the writer wrote exactly if it has that key version. */
  lemma DecryptEncrypt(g: Aead, writer: Keyring, reader: Keyring, text: Bytes, nonce: Bytes)
    requires OpenUndoesSeal(g) && WellFormed(writer) && |nonce| == NONCE_SIZE
    requires writer.activeVersion in reader.keys ==>
               reader.keys[writer.activeVersion] == writer.keys[writer.activeVersion]
    ensures var e := Encrypt(g, writer, text, nonce);
            e.Ok? && Decrypt(g, reader, e.value) ==
                     if writer.activeVersion in reader.keys then Ok(text) else Err(UnknownKeyVersion)
  {
    var sealed := g.seal(writer.keys[writer.activeVersion], nonce, text, KeyVersionAAD(writer.activeVersion));
    assert (nonce + sealed)[..NONCE_SIZE] == nonce;
    assert (nonce + sealed)[NONCE_SIZE..] == sealed;
  }

  /** A ciphertext is its nonce of 12 bytes, then the text,
      then 16 bytes of tag; anything shorter is refused unopened. */
  lemma CiphertextLength(g: Aead, kr: Keyring, text: Bytes, nonce: Bytes, value: EncryptedValue)
    requires OpenUndoesSeal(g) && WellFormed(kr) && |nonce| == 12
    ensures var e := Encrypt(g, kr, text, nonce);
            e.Ok? && e.value.keyVersion == kr.activeVersion && e.value.ciphertext[..12] == nonce &&
            |e.value.ciphertext| == |text| + 28
    ensures value.keyVersion in kr.keys && |value.ciphertext| < 28 ==> Decrypt(g, kr, value) == Err(InvalidCiphertext)
    ensures value.keyVersion !in kr.keys ==> Decrypt(g, kr, value) == Err(UnknownKeyVersion)
  {
    var sealed := g.seal(kr.keys[kr.activeVersion], nonce, text, KeyVersionAAD(kr.activeVersion));
    assert (nonce + sealed)[..12] == nonce;
  }

  function Pow256(n: nat): nat {
    if n == 0 then 1 else 256 * Pow256(n - 1)
  }

  lemma Uint64HasEightBytes()
    ensures Pow256(8) == 0x1_0000_0000_0000_0000
  {
    assert Pow256(1) == 0x100;
    assert Pow256(2) == 0x1_0000;
    assert Pow256(3) == 0x100_0000;
    assert Pow256(4) == 0x1_0000_0000;
    assert Pow256(5) == 0x100_0000_0000;
    assert Pow256(6) == 0x1_0000_0000_0000;
    assert Pow256(7) == 0x100_0000_0000_0000;
  }

  /** Bytes read as the digits of a number, the most significant one first. */
  function ReadBytes(b: Bytes): nat {
    if b == [] then 0 else 256 * ReadBytes(b[..|b| - 1]) + b[|b| - 1]
  }

  lemma {:induction false} ReadBigEndian(u: nat, n: nat)
    requires u < Pow256(n)
    ensures ReadBytes(BigEndian(u, n)) == u
    decreases n
  {
    if n > 0 {
      var b, front := BigEndian(u, n), BigEndian(u / 256, n - 1);
      assert b[n - 1] == ByteAt(u, 0);
      assert |b[..n - 1]| == |front|;
      forall i | 0 <= i < n - 1 ensures b[..n - 1][i] == front[i] {
        assert b[i] == ByteAt(u, n - 1 - i) && front[i] == ByteAt(u / 256, n - 2 - i);
      }
      assert b[..n - 1] == front;
      ReadBigEndian(u / 256, n - 1);
    }
  }

  /** The additional data is the version in eight bytes, the most significant one first. */
  lemma AADIsBigEndian(version: int)
    requires 0 <= version <= MAX_INT64
    ensures |KeyVersionAAD(version)| == 8 && ReadBytes(KeyVersionAAD(version)) == version
  {
    var width: nat := 8;
    Uint64HasEightBytes();
    ReadBigEndian(version, width);
  }

  /** Two versions never share their additional data. */
  lemma AADSeparatesVersions(v: int, w: int)
    requires 0 < v <= MAX_INT64 && 0 < w <= MAX_INT64 && KeyVersionAAD(v) == KeyVersionAAD(w)
    ensures v == w
  {
    AADIsBigEndian(v);
    AADIsBigEndian(w);
  }
}

/**
Persistence of upstream credentials: Save, Delete and List of internal/store/coreauth_store.go over the
keyring, with any number of replicas that each carry their own keyring and are redeployed with new ones.

JSON marshalling is a pair of inverse functions on the record that JSON sees (the token storage itself is
not marshalled; its content is merged into the metadata first). The SDK's auth kind is a parameter.
*/
module Credentials {
  import opened Options
  import opened Text
  import opened Keyrings

  /** A metadata value: a string, a boolean, or anything else, which is only carried around. */
  datatype Meta = MStr(s: string) | MBool(b: bool) | MOther(tag: int)

  datatype Record = Record(
    id: string, provider: string, proxyURL: string, attributes: map<string, string>,
    metadata: map<string, Meta>, disabled: bool, rest: string)

  /** What decodeStorageMetadata makes of some bytes: nothing (empty or JSON null), an error, or an object. */
  datatype Decoded = Absent | Broken | Object(members: map<string, Meta>)

  /** raw: the RawJSON of a storage that has one; hidden: the hidden-state search; encoded: its own encoding. */
  datatype Storage = Storage(raw: Decoded, hidden: bool, encoded: Decoded)

  datatype Auth = Auth(record: Record, storage: Option<Storage>)

  /** The SDK constants AttributeSourceBackend and AuthSourcePostgres. Only their being fixed texts matters. */
  const SOURCE_BACKEND := "source_backend"
  const POSTGRES := "postgres"

  // ---------------------------------------------------------------- the normal form

  function TokenStorageMetadata(s: Storage): Option<map<string, Meta>> {
    match s.raw
    case Object(members) => Some(members)
    case Broken => None
    case Absent =>
      if s.hidden then None
      else
        match s.encoded
        case Object(members) => if members == map[] then None else Some(members)
        case _ => None
  }

  predicate NamesType(metadata: map<string, Meta>) {
    "type" in metadata && metadata["type"].MStr? && TrimSpace(metadata["type"].s) != ""
  }

  /** Storage first, the account's own metadata over it, then the type and the disabled flag. */
  function PersistedMetadata(r: Record, storage: map<string, Meta>): map<string, Meta> {
    var merged := storage + r.metadata;
    var typed := if NamesType(merged) then merged else merged["type" := MStr(r.provider)];
    typed["disabled" := MBool(r.disabled)]
  }

  /** The record that Save marshals, or nothing where Save refuses the account. */
  function NormalForm(a: Auth): Option<Record> {
    var id, provider := TrimSpace(a.record.id), TrimSpace(a.record.provider);
    if id == "" || provider == "" then None
    else
      var storage := if a.storage.None? then Some(map[]) else TokenStorageMetadata(a.storage.value);
      if storage.None? then None
      else
        var r := a.record.(id := id, provider := provider, proxyURL := "",
                           attributes := a.record.attributes[SOURCE_BACKEND := POSTGRES]);
        Some(r.(metadata := PersistedMetadata(r, storage.value)))
  }

  /** The storage says this: in its raw object if it has one, or else in its own encoding. */
  ghost predicate StorageSays(storage: Option<Storage>, key: string, value: Meta) {
    storage.Some? &&
    var source := if storage.value.raw.Object? then storage.value.raw else storage.value.encoded;
    source.Object? && key in source.members && source.members[key] == value
  }

  /** A blank id or provider is refused, and a storage of which nothing safe can be read. */
  predicate Savable(a: Auth) {
    && TrimSpace(a.record.id) != "" && TrimSpace(a.record.provider) != ""
    && (a.storage.Some? ==>
          var s := a.storage.value;
          s.raw.Object? || (s.raw.Absent? && !s.hidden && s.encoded.Object? && s.encoded.members != map[]))
  }

  predicate IsTypeName(value: Meta) {
    value.MStr? && TrimSpace(value.s) != ""
  }

  /** Under every key but the two special ones: what the account says, or else what the storage says. */
  ghost predicate KeysStored(a: Auth, metadata: map<string, Meta>) {
    var own := a.record.metadata;
    && (forall k | k in own && k != "disabled" && k != "type" :: k in metadata && metadata[k] == own[k])
    && (forall k, v | k !in own && k != "disabled" && k != "type" && StorageSays(a.storage, k, v) ::
          k in metadata && metadata[k] == v)
    && (forall k | k in metadata && k !in own && k != "disabled" && k != "type" ::
          StorageSays(a.storage, k, metadata[k]))
  }

  /** The type that the account names, or else the storage; the provider where that is blank or no string. */
  ghost predicate TypeStored(a: Auth, metadata: map<string, Meta>) {
    var own := a.record.metadata;
    && "type" in metadata
    && (if "type" in own && IsTypeName(own["type"]) then metadata["type"] == own["type"]
        else if "type" !in own && exists v :: StorageSays(a.storage, "type", v) && IsTypeName(v)
        then StorageSays(a.storage, "type", metadata["type"])
        else metadata["type"] == MStr(TrimSpace(a.record.provider)))
  }

  ghost predicate IsStoredMetadata(a: Auth, metadata: map<string, Meta>) {
    && KeysStored(a, metadata) && TypeStored(a, metadata)
    && "disabled" in metadata && metadata["disabled"] == MBool(a.record.disabled)
  }

  /** The record that is stored for an account: trimmed, without proxy, from Postgres, with merged metadata. */
  ghost predicate IsStoredForm(a: Auth, r: Record) {
    && r.id == TrimSpace(a.record.id) && r.provider == TrimSpace(a.record.provider) && r.proxyURL == ""
    && r.disabled == a.record.disabled && r.rest == a.record.rest
    && SOURCE_BACKEND in r.attributes && r.attributes[SOURCE_BACKEND] == POSTGRES
    && r.attributes - {SOURCE_BACKEND} == a.record.attributes - {SOURCE_BACKEND}
    && IsStoredMetadata(a, r.metadata)
  }

  /** What Save makes of an account, said field by field and key by key. */
  lemma NormalFormMeans(a: Auth)
    ensures NormalForm(a).Some? <==> Savable(a)
    ensures NormalForm(a).Some? ==> IsStoredForm(a, NormalForm(a).value)
  {
    if NormalForm(a).Some? {
      var r := NormalForm(a).value;
      assert r.attributes - {SOURCE_BACKEND} == a.record.attributes - {SOURCE_BACKEND};
      MetadataMeans(a, r.metadata);
    }
  }

  lemma MetadataMeans(a: Auth, metadata: map<string, Meta>)
    requires NormalForm(a).Some? && metadata == NormalForm(a).value.metadata
    ensures IsStoredMetadata(a, metadata)
  {
    var storage := if a.storage.None? then map[] else TokenStorageMetadata(a.storage.value).value;
    var r := a.record.(provider := TrimSpace(a.record.provider));
    assert metadata == PersistedMetadata(r, storage);
    StorageIs(a, storage);
    KeysMean(a, storage, r);
    TypeMeans(a, storage, r);
  }

  lemma StorageIs(a: Auth, storage: map<string, Meta>)
    requires NormalForm(a).Some?
    requires storage == if a.storage.None? then map[] else TokenStorageMetadata(a.storage.value).value
    ensures SaysExactly(a.storage, storage)
  {
  }

  ghost predicate SaysExactly(storage: Option<Storage>, members: map<string, Meta>) {
    forall k, v :: StorageSays(storage, k, v) <==> k in members && members[k] == v
  }

  lemma KeysMean(a: Auth, storage: map<string, Meta>, r: Record)
    requires SaysExactly(a.storage, storage) && r == a.record.(provider := TrimSpace(a.record.provider))
    ensures KeysStored(a, PersistedMetadata(r, storage))
  {
  }

  lemma TypeMeans(a: Auth, storage: map<string, Meta>, r: Record)
    requires SaysExactly(a.storage, storage) && r == a.record.(provider := TrimSpace(a.record.provider))
    ensures TypeStored(a, PersistedMetadata(r, storage))
  {
    if "type" !in a.record.metadata && "type" in storage && IsTypeName(storage["type"]) {
      assert StorageSays(a.storage, "type", storage["type"]);
    }
  }

  /** That leaves no choice. */
  lemma StoredMetadataIsUnique(a: Auth, m: map<string, Meta>, n: map<string, Meta>)
    requires IsStoredMetadata(a, m) && IsStoredMetadata(a, n)
    ensures m == n
  {
    forall k | k in m ensures k in n && n[k] == m[k] {
    }
    forall k | k in n ensures k in m {
    }
  }

  lemma StoredFormIsUnique(a: Auth, r: Record, q: Record)
    requires IsStoredForm(a, r) && IsStoredForm(a, q)
    ensures r == q
  {
    StoredMetadataIsUnique(a, r.metadata, q.metadata);
    forall k | k in r.attributes ensures k in q.attributes && q.attributes[k] == r.attributes[k] {
      assert k != SOURCE_BACKEND ==> k in q.attributes - {SOURCE_BACKEND};
      assert k != SOURCE_BACKEND ==> (q.attributes - {SOURCE_BACKEND})[k] == (r.attributes - {SOURCE_BACKEND})[k];
    }
    forall k | k in q.attributes ensures k in r.attributes {
      assert k != SOURCE_BACKEND ==> k in r.attributes - {SOURCE_BACKEND};
    }
    assert r.attributes == q.attributes;
  }

  /** Saving a listed account again changes nothing: the normal form is its own normal form. */
  lemma NormalFormIsStable(a: Auth)
    ensures NormalForm(a).Some? ==> NormalForm(Auth(NormalForm(a).value, None)) == NormalForm(a)
  {
    if NormalForm(a).Some? {
      var r := NormalForm(a).value;
      TrimSpaceIdempotent(a.record.id);
      TrimSpaceIdempotent(a.record.provider);
      assert r.attributes[SOURCE_BACKEND := POSTGRES] == r.attributes;
      assert PersistedMetadata(r, map[]) == r.metadata by {
        assert map[] + r.metadata == r.metadata;
        assert NamesType(r.metadata);
      }
    }
  }

  // ---------------------------------------------------------------- the store

  datatype Row = Row(provider: string, credentialsEnc: Bytes, encKeyVersion: int)

  /** marshal and unmarshal stand for encoding/json, hasKind for the SDK's auth kind being known. */
  datatype World = World(
    aead: Aead, marshal: Record -> Bytes, unmarshal: Bytes -> Option<Record>, hasKind: Record -> bool)

  ghost predicate Lawful(w: World) {
    OpenUndoesSeal(w.aead) && forall r :: w.unmarshal(w.marshal(r)) == Some(r)
  }

  type Table = map<string, Row>

  /** What Save writes, or nothing where it fails before it reaches the database. */
  function SaveRow(w: World, kr: Keyring, a: Auth, nonce: Bytes): Option<(string, Row)> {
    match NormalForm(a)
    case None => None
    case Some(r) =>
      if !w.hasKind(r) then None
      else
        match Encrypt(w.aead, kr, w.marshal(r), nonce)
        case Err(_) => None
        case Ok(e) =>
          if e.keyVersion <= 0 || e.keyVersion > MAX_INT32 then None
          else Some((r.id, Row(r.provider, e.ciphertext, e.keyVersion)))
  }

  function ListOne(w: World, kr: Keyring, id: string, row: Row): Option<Record> {
    match Decrypt(w.aead, kr, EncryptedValue(row.encKeyVersion, row.credentialsEnc))
    case Err(_) => None
    case Ok(text) =>
      match w.unmarshal(text)
      case None => None
      case Some(r) =>
        if r.id != id || r.provider != row.provider then None
        else Some(r.(proxyURL := "", attributes := r.attributes[SOURCE_BACKEND := POSTGRES]))
  }

  /** All records in the order of the rows, or nothing if one row cannot be read. */
  function ListAll(w: World, kr: Keyring, table: Table, ids: seq<string>): Option<seq<Record>>
    requires forall id | id in ids :: id in table
  {
    if forall id | id in ids :: ListOne(w, kr, id, table[id]).Some?
    then Some(seq(|ids|, i requires 0 <= i < |ids| => assert ids[i] in ids; ListOne(w, kr, ids[i],
        table[ids[i]]).value))
    else None
  }

  /** ids are the rows in the order of the query; one unreadable row fails the whole list. */
  method List(w: World, kr: Keyring, table: Table, ids: seq<string>) returns (auths: Option<seq<Record>>)
    requires forall id | id in ids :: id in table
    ensures auths == ListAll(w, kr, table, ids)
    ensures auths.Some? <==> forall id | id in ids :: ListOne(w, kr, id, table[id]).Some?
    ensures auths.Some? ==> |auths.value| == |ids|
    ensures auths.Some? ==> forall i | 0 <= i < |ids| :: Some(auths.value[i]) == ListOne(w, kr, ids[i], table[ids[i]])
  {
    var done: seq<Record> := [];
    for i := 0 to |ids|
      invariant |done| == i
      invariant forall j | 0 <= j < i :: Some(done[j]) == ListOne(w, kr, ids[j], table[ids[j]])
    {
      var row := table[ids[i]];
      assert ids[i] in ids;
      var text := Decrypt(w.aead, kr, EncryptedValue(row.encKeyVersion, row.credentialsEnc));
      if text.Err? {
        return None;
      }
      var auth := w.unmarshal(text.value);
      if auth.None? {
        return None;
      }
      if auth.value.id != ids[i] || auth.value.provider != row.provider {
        return None;
      }
      var r := auth.value.(proxyURL := "");
      done := done + [r.(attributes := r.attributes[SOURCE_BACKEND := POSTGRES])];
    }
    assert forall id | id in ids :: ListOne(w, kr, id, table[id]).Some?;
    assert done == ListAll(w, kr, table, ids).value;
    return Some(done);
  }

  // ---------------------------------------------------------------- runs over many replicas

  datatype Cluster = Cluster(table: Table, keyrings: map<int, Keyring>)

  datatype Op =
    | Save(replica: int, auth: Auth, nonce: Bytes, fails: bool)
    | Delete(replica: int, id: string, fails: bool)
    | Deploy(replica: int, keyring: Keyring)

  /** Over time and over all replicas, one version number names one key. */
  ghost predicate DrawnFrom(vault: map<int, Bytes>, kr: Keyring) {
    WellFormed(kr) && forall v | v in kr.keys :: v in vault && kr.keys[v] == vault[v]
  }

  ghost predicate Allowed(vault: map<int, Bytes>, s: Cluster, op: Op) {
    match op
    case Save(r, _, nonce, _) => r in s.keyrings && |nonce| == NONCE_SIZE
    case Delete(r, _, _) => r in s.keyrings
    case Deploy(_, kr) => DrawnFrom(vault, kr)
  }

  function Next(w: World, s: Cluster, op: Op): Cluster {
    match op
    case Save(r, a, nonce, fails) =>
      if fails || r !in s.keyrings then s
      else
        (match SaveRow(w, s.keyrings[r], a, nonce)
         case None => s
         case Some((id, row)) => s.(table := s.table[id := row]))
    case Delete(_, id, fails) =>
      if fails || TrimSpace(id) == "" then s else s.(table := s.table - {TrimSpace(id)})
    case Deploy(r, kr) => s.(keyrings := s.keyrings[r := kr])
  }

  /** The accounts as last saved, kept in plain form: the same run without any encryption. */
  function NextSaved(w: World, s: Cluster, saved: map<string, Record>, op: Op): map<string, Record> {
    match op
    case Save(r, a, nonce, fails) =>
      if !fails && r in s.keyrings && SaveRow(w, s.keyrings[r], a, nonce).Some? && NormalForm(a).Some?
      then saved[NormalForm(a).value.id := NormalForm(a).value] else saved
    case Delete(_, id, fails) =>
      if fails || TrimSpace(id) == "" then saved else saved - {TrimSpace(id)}
    case Deploy(_, _) => saved
  }

  ghost predicate IsRun(w: World, vault: map<int, Bytes>, states: seq<Cluster>, saved: seq<map<string, Record>>,
                        ops: seq<Op>) {
    && |states| == |saved| == |ops| + 1
    && states[0] == Cluster(map[], map[]) && saved[0] == map[]
    && forall i | 0 <= i < |ops| ::
         && Allowed(vault, states[i], ops[i]) && states[i + 1] == Next(w, states[i], ops[i])
         && saved[i + 1] == NextSaved(w, states[i], saved[i], ops[i])
  }

  // ---------------------------------------------------------------- the invariant

  /** The row seals the marshalled record under the vault's key of its version. */
  ghost predicate Sealed(w: World, vault: map<int, Bytes>, row: Row, r: Record) {
    && row.encKeyVersion in vault && |vault[row.encKeyVersion]| == AES256_KEY_SIZE
    && exists nonce :: IsSealOf(w, vault[row.encKeyVersion], row, r, nonce)
  }

  ghost predicate IsSealOf(w: World, key: Bytes, row: Row, r: Record, nonce: Bytes) {
    |nonce| == NONCE_SIZE &&
    row.credentialsEnc == nonce + w.aead.seal(key, nonce, w.marshal(r), KeyVersionAAD(row.encKeyVersion))
  }

  ghost predicate RowOk(w: World, vault: map<int, Bytes>, id: string, row: Row, r: Record) {
    && Sealed(w, vault, row, r) && row.provider == r.provider && r.id == id
    && r.proxyURL == "" && SOURCE_BACKEND in r.attributes && r.attributes[SOURCE_BACKEND] == POSTGRES
  }

  ghost predicate Inv(w: World, vault: map<int, Bytes>, s: Cluster, saved: map<string, Record>) {
    && s.table.Keys == saved.Keys
    && (forall id | id in s.table :: RowOk(w, vault, id, s.table[id], saved[id]))
    && (forall r | r in s.keyrings :: DrawnFrom(vault, s.keyrings[r]))
  }

  lemma SavedRowIsOk(w: World, vault: map<int, Bytes>, kr: Keyring, a: Auth, nonce: Bytes)
    requires DrawnFrom(vault, kr) && |nonce| == NONCE_SIZE
    ensures SaveRow(w, kr, a, nonce).Some? ==> NormalForm(a).Some?
    ensures SaveRow(w, kr, a, nonce).Some? ==>
              var (id, row) := SaveRow(w, kr, a, nonce).value;
              id == NormalForm(a).value.id && RowOk(w, vault, id, row, NormalForm(a).value)
  {
    if SaveRow(w, kr, a, nonce).Some? {
      var r := NormalForm(a).value;
      var (id, row) := SaveRow(w, kr, a, nonce).value;
      assert row.encKeyVersion == kr.activeVersion;
      assert IsSealOf(w, vault[row.encKeyVersion], row, r, nonce);
    }
  }

  lemma RowAdded(w: World, vault: map<int, Bytes>, s: Cluster, saved: map<string, Record>, id: string, row: Row,
                 r: Record)
    requires Inv(w, vault, s, saved) && RowOk(w, vault, id, row, r)
    ensures Inv(w, vault, s.(table := s.table[id := row]), saved[id := r])
  {
  }

  lemma RowRemoved(w: World, vault: map<int, Bytes>, s: Cluster, saved: map<string, Record>, id: string)
    requires Inv(w, vault, s, saved)
    ensures Inv(w, vault, s.(table := s.table - {id}), saved - {id})
  {
  }

  lemma StepKeepsInv(w: World, vault: map<int, Bytes>, s: Cluster, saved: map<string, Record>, op: Op)
    requires Inv(w, vault, s, saved) && Allowed(vault, s, op)
    ensures Inv(w, vault, Next(w, s, op), NextSaved(w, s, saved, op))
  {
    match op
    case Save(replica, a, nonce, fails) =>
      var kr := s.keyrings[replica];
      if !fails && SaveRow(w, kr, a, nonce).Some? {
        SavedRowIsOk(w, vault, kr, a, nonce);
        var (id, row) := SaveRow(w, kr, a, nonce).value;
        RowAdded(w, vault, s, saved, id, row, NormalForm(a).value);
      }
    case Delete(_, id, _) =>
      RowRemoved(w, vault, s, saved, TrimSpace(id));
    case Deploy(_, _) =>
  }

  lemma {:induction false} RunKeepsInv(w: World, vault: map<int, Bytes>, states: seq<Cluster>,
                                       saved: seq<map<string, Record>>, ops: seq<Op>, k: nat)
    requires IsRun(w, vault, states, saved, ops) && k <= |ops|
    ensures Inv(w, vault, states[k], saved[k])
  {
    if k > 0 {
      RunKeepsInv(w, vault, states, saved, ops, k - 1);
      StepKeepsInv(w, vault, states[k - 1], saved[k - 1], ops[k - 1]);
    }
  }

  // ---------------------------------------------------------------- the results

  /** A sound row is read back as the saved record exactly by the keyrings that have its version. */
  lemma RowReadsBack(w: World, vault: map<int, Bytes>, kr: Keyring, id: string, row: Row, r: Record)
    requires Lawful(w) && DrawnFrom(vault, kr) && RowOk(w, vault, id, row, r)
    ensures ListOne(w, kr, id, row) == if row.encKeyVersion in kr.keys then Some(r) else None
  {
    var key := vault[row.encKeyVersion];
    var nonce :| IsSealOf(w, key, row, r, nonce);
    var sealed := w.aead.seal(key, nonce, w.marshal(r), KeyVersionAAD(row.encKeyVersion));
    assert row.credentialsEnc[..NONCE_SIZE] == nonce;
    assert row.credentialsEnc[NONCE_SIZE..] == sealed;
    assert r.attributes[SOURCE_BACKEND := POSTGRES] == r.attributes;
  }

  /** The keyring has every version that some row still uses. */
  ghost predicate HasVersionsInUse(kr: Keyring, table: Table) {
    forall id | id in table :: table[id].encKeyVersion in kr.keys
  }

  /**
  In every run of saves, deletes and redeployments, and on every replica, whatever the order of the rows: if
  its keyring has all versions in use, List returns for every id the normal form of the account as last
  saved; and if one version in use is missing, List fails.
  */
  lemma ListReturnsLastSaved(w: World, vault: map<int, Bytes>, states: seq<Cluster>,
                             saved: seq<map<string, Record>>, ops: seq<Op>, k: nat, r: int, ids: seq<string>)
    requires Lawful(w) && IsRun(w, vault, states, saved, ops) && k <= |ops| && r in states[k].keyrings
    requires forall id :: id in ids <==> id in states[k].table
    ensures states[k].table.Keys == saved[k].Keys
    ensures var kr, table := states[k].keyrings[r], states[k].table;
            ListAll(w, kr, table, ids) ==
            if HasVersionsInUse(kr, table) then Some(SavedInOrder(saved[k], ids)) else None
  {
    RunKeepsInv(w, vault, states, saved, ops, k);
    var s := states[k];
    forall id | id in s.table
      ensures ListOne(w, s.keyrings[r], id, s.table[id]) ==
              if s.table[id].encKeyVersion in s.keyrings[r].keys then Some(saved[k][id]) else None
    {
      RowReadsBack(w, vault, s.keyrings[r], id, s.table[id], saved[k][id]);
    }
    if HasVersionsInUse(s.keyrings[r], s.table) {
      assert ListAll(w, s.keyrings[r], s.table, ids).value == SavedInOrder(saved[k], ids);
    }
  }

  /** The accounts of these ids as last saved. */
  function SavedInOrder(saved: map<string, Record>, ids: seq<string>): seq<Record>
    requires forall id | id in ids :: id in saved
  {
    seq(|ids|, i requires 0 <= i < |ids| => assert ids[i] in ids; saved[ids[i]])
  }

  /** The row of this id is the one that the operation is about. */
  predicate Touches(op: Op, id: string) {
    match op
    case Save(_, a, _, _) => TrimSpace(a.record.id) == id
    case Delete(_, i, _) => TrimSpace(i) == id
    case Deploy(_, _) => false
  }

  /** When a Save that the database does not fail writes a row. */
  lemma SaveSucceedsExactly(w: World, kr: Keyring, a: Auth, nonce: Bytes)
    requires WellFormed(kr) && |nonce| == NONCE_SIZE
    ensures SaveRow(w, kr, a, nonce).Some? <==>
            Savable(a) && kr.activeVersion <= 0x7FFF_FFFF && forall r | IsStoredForm(a, r) :: w.hasKind(r)
    ensures SaveRow(w, kr, a, nonce).Some? ==>
              var (id, row) := SaveRow(w, kr, a, nonce).value;
              && id == TrimSpace(a.record.id) && row.provider == TrimSpace(a.record.provider)
              && row.encKeyVersion == kr.activeVersion
  {
    NormalFormMeans(a);
    if Savable(a) {
      var stored := NormalForm(a).value;
      forall r | IsStoredForm(a, r) ensures r == stored {
        StoredFormIsUnique(a, r, stored);
      }
    }
  }

  lemma {:induction false} UntouchedStays(w: World, vault: map<int, Bytes>, states: seq<Cluster>,
                                          saved: seq<map<string, Record>>, ops: seq<Op>, i: nat, k: nat, id: string)
    requires IsRun(w, vault, states, saved, ops) && i <= k <= |ops|
    requires forall j | i <= j < k :: !Touches(ops[j], id)
    ensures id in saved[k] <==> id in saved[i]
    ensures id in saved[i] ==> saved[k][id] == saved[i][id]
    decreases k
  {
    if i < k {
      UntouchedStays(w, vault, states, saved, ops, i, k - 1, id);
      RunKeepsInv(w, vault, states, saved, ops, k - 1);
      assert Allowed(vault, states[k - 1], ops[k - 1]);
      assert saved[k] == NextSaved(w, states[k - 1], saved[k - 1], ops[k - 1]);
      if ops[k - 1].Save? {
        NormalFormMeans(ops[k - 1].auth);
      }
    }
  }

  /**
  What is listed under an id is decided by the last operation about it. After a Save that was not refused and
  did not fail, it is the stored form of that account; after a Delete, nothing; and a failed operation does not
  count.
  */
  lemma LastOperationDecides(w: World, vault: map<int, Bytes>, states: seq<Cluster>,
                             saved: seq<map<string, Record>>, ops: seq<Op>, i: nat, k: nat, id: string)
    requires IsRun(w, vault, states, saved, ops) && i < k <= |ops| && Touches(ops[i], id) && id != ""
    requires forall j | i < j < k :: !Touches(ops[j], id)
    ensures match ops[i]
            case Save(r, a, _, fails) =>
              && r in states[i].keyrings
              && if !fails && Savable(a) && states[i].keyrings[r].activeVersion <= 0x7FFF_FFFF
                    && forall q | IsStoredForm(a, q) :: w.hasKind(q)
                 then id in saved[k] && IsStoredForm(a, saved[k][id])
                 else (id in saved[k] <==> id in saved[i]) && (id in saved[i] ==> saved[k][id] == saved[i][id])
            case Delete(_, _, fails) =>
              if !fails then id !in saved[k]
              else (id in saved[k] <==> id in saved[i]) && (id in saved[i] ==> saved[k][id] == saved[i][id])
            case Deploy(_, _) => true
  {
    UntouchedStays(w, vault, states, saved, ops, i + 1, k, id);
    RunKeepsInv(w, vault, states, saved, ops, i);
    assert Allowed(vault, states[i], ops[i]);
    assert saved[i + 1] == NextSaved(w, states[i], saved[i], ops[i]);
    if ops[i].Save? {
      NormalFormMeans(ops[i].auth);
      SaveSucceedsExactly(w, states[i].keyrings[ops[i].replica], ops[i].auth, ops[i].nonce);
    }
  }

  /** A replica works with the keyring it was last deployed with, and a Save is sealed under its active version. */
  lemma {:induction false} LastDeployDecides(w: World, vault: map<int, Bytes>, states: seq<Cluster>,
                                             saved: seq<map<string, Record>>, ops: seq<Op>, i: nat, k: nat)
    requires IsRun(w, vault, states, saved, ops) && i < k <= |ops| && ops[i].Deploy?
    requires forall j | i < j < k && ops[j].Deploy? :: ops[j].replica != ops[i].replica
    ensures ops[i].replica in states[k].keyrings && states[k].keyrings[ops[i].replica] == ops[i].keyring
    decreases k
  {
    assert Allowed(vault, states[k - 1], ops[k - 1]) && states[k] == Next(w, states[k - 1], ops[k - 1]);
    if i < k - 1 {
      LastDeployDecides(w, vault, states, saved, ops, i, k - 1);
    }
  }

  /** Every keyring has every version in use and the active version of every replica. */
  ghost predicate Rolling(s: Cluster) {
    forall r | r in s.keyrings ::
      && HasVersionsInUse(s.keyrings[r], s.table)
      && forall q | q in s.keyrings :: s.keyrings[q].activeVersion in s.keyrings[r].keys
  }

  /** What to check before a redeployment. */
  ghost predicate RollingDeploy(s: Cluster, r: int, kr: Keyring) {
    && HasVersionsInUse(kr, s.table) && kr.activeVersion in kr.keys
    && (forall q | q in s.keyrings && q != r :: s.keyrings[q].activeVersion in kr.keys)
    && (forall q | q in s.keyrings && q != r :: kr.activeVersion in s.keyrings[q].keys)
  }

  lemma RollingStep(w: World, s: Cluster, op: Op)
    requires Rolling(s) && (op.Deploy? ==> RollingDeploy(s, op.replica, op.keyring))
    ensures Rolling(Next(w, s, op))
  {
  }

  lemma {:induction false} RollingRun(w: World, vault: map<int, Bytes>, states: seq<Cluster>,
                                      saved: seq<map<string, Record>>, ops: seq<Op>, k: nat)
    requires IsRun(w, vault, states, saved, ops) && k <= |ops|
    requires forall i | 0 <= i < k && ops[i].Deploy? :: RollingDeploy(states[i], ops[i].replica, ops[i].keyring)
    ensures Rolling(states[k])
  {
    if k > 0 {
      RollingRun(w, vault, states, saved, ops, k - 1);
      RollingStep(w, states[k - 1], ops[k - 1]);
    }
  }

  /** Rolling rotation is safe at every moment: every replica, old or new, lists exactly what was last saved. */
  lemma RollingRotationIsSafe(w: World, vault: map<int, Bytes>, states: seq<Cluster>,
                              saved: seq<map<string, Record>>, ops: seq<Op>, k: nat, r: int, ids: seq<string>)
    requires Lawful(w) && IsRun(w, vault, states, saved, ops) && k <= |ops|
    requires forall i | 0 <= i < k && ops[i].Deploy? :: RollingDeploy(states[i], ops[i].replica, ops[i].keyring)
    requires r in states[k].keyrings && forall id :: id in ids <==> id in states[k].table
    ensures states[k].table.Keys == saved[k].Keys
    ensures ListAll(w, states[k].keyrings[r], states[k].table, ids) == Some(SavedInOrder(saved[k], ids))
  {
    RollingRun(w, vault, states, saved, ops, k);
    ListReturnsLastSaved(w, vault, states, saved, ops, k, r, ids);
  }
}

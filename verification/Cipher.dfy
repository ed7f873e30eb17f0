/** The versioned cipher for secrets at rest: its wire format, the legacy fallback, and the key table
    it is loaded from at every boot. AES-256-GCM itself is a parameter known only by its laws. */
module Cipher {
  import opened Wrappers
  import opened Base64Url

  type Bytes = seq<byte>

  /** Authenticated encryption under a raw key: `seal(key, nonce, plaintext)`, `open(key, nonce, ciphertext)`. */
  datatype Aead = Aead(seal: (Bytes, Bytes, Bytes) -> Bytes, open: (Bytes, Bytes, Bytes) -> Option<Bytes>)

  /** What was sealed opens to itself. */
  ghost predicate Opens(a: Aead) {
    forall k, n, p :: a.open(k, n, a.seal(k, n, p)) == Some(p)
  }

  /** Only what was sealed opens, and sealing adds a 16-byte tag. */
  ghost predicate Authenticates(a: Aead) {
    && (forall k, n, c :: a.open(k, n, c).Some? ==> c == a.seal(k, n, a.open(k, n, c).value))
    && (forall k, n, p :: |a.seal(k, n, p)| == |p| + 16)
  }

  // ---------- Wire format ----------

  predicate KeyIDByte(b: byte) {
    ('A' as int <= b <= 'Z' as int) || ('a' as int <= b <= 'z' as int) ||
    ('0' as int <= b <= '9' as int) || b == '_' as int || b == '-' as int
  }

  /** `^[A-Za-z0-9_-]{1,63}$` */
  predicate ValidKeyID(id: Bytes) {
    1 <= |id| <= 63 && forall i | 0 <= i < |id| :: KeyIDByte(id[i])
  }

  datatype Versioned = Versioned(id: Bytes, nonce: Bytes, ciphertext: Bytes)

  /** The layout `Encrypt` writes: magic, id length, id, nonce, ciphertext with tag. */
  function Print(v: Versioned): Bytes
    requires |v.id| < 256
  {
    [0xC1, 0x70, |v.id|] + v.id + v.nonce + v.ciphertext
  }

  function ParseVersioned(blob: Bytes): Option<Versioned> {
    if |blob| < 3 then None
    else if blob[0] != 0xC1 || blob[1] != 0x70 then None
    else
      var idLen := blob[2];
      if idLen < 1 || idLen > 63 then None
      else if |blob| < 3 + idLen + 12 then None
      else
        var id := blob[3..3 + idLen];
        if !ValidKeyID(id) then None
        else Some(Versioned(id, blob[3 + idLen..3 + idLen + 12], blob[3 + idLen + 12..]))
  }

  predicate WellFormed(v: Versioned) {
    ValidKeyID(v.id) && |v.nonce| == 12
  }

  /** Reading back what was written. */
  lemma ParseInvertsPrint(v: Versioned)
    requires WellFormed(v)
    ensures ParseVersioned(Print(v)) == Some(v)
  {
    var blob, n := Print(v), |v.id|;
    assert blob[3..3 + n] == v.id;
    assert blob[3 + n..3 + n + 12] == v.nonce;
    assert blob[3 + n + 12..] == v.ciphertext;
  }

  /** Writing back what was read: together with `ParseInvertsPrint`, a bijection between well-formed
      triples and the blobs that parse. */
  lemma PrintInvertsParse(blob: Bytes)
    requires ParseVersioned(blob).Some?
    ensures WellFormed(ParseVersioned(blob).value)
    ensures Print(ParseVersioned(blob).value) == blob
  {
    var n := blob[2];
    assert blob == [blob[0], blob[1], blob[2]] + blob[3..3 + n] + blob[3 + n..3 + n + 12] + blob[3 + n + 12..];
  }

  // ---------- The loaded cipher ----------

  datatype Cipher = Cipher(keys: map<Bytes, Bytes>, activeID: Bytes, legacy: Bytes)

  datatype CryptoError = NoActiveKey | InvalidKeyID | UnknownKeyID | BlobTooShort | OpenFailed

  function Encrypt(a: Aead, c: Cipher, nonce: Bytes, plaintext: Bytes): Result<Bytes, CryptoError> {
    if c.activeID !in c.keys then Err(NoActiveKey)
    else if !ValidKeyID(c.activeID) then Err(InvalidKeyID)
    else Ok(Print(Versioned(c.activeID, nonce, a.seal(c.keys[c.activeID], nonce, plaintext))))
  }

  function Opened(r: Option<Bytes>): Result<Bytes, CryptoError> {
    match r
    case Some(p) => Ok(p)
    case None => Err(OpenFailed)
  }

  function Decrypt(a: Aead, c: Cipher, blob: Bytes): Result<Bytes, CryptoError> {
    match ParseVersioned(blob)
    case Some(v) =>
      if v.id !in c.keys then Err(UnknownKeyID) else Opened(a.open(c.keys[v.id], v.nonce, v.ciphertext))
    case None =>
      if |blob| < 12 then Err(BlobTooShort) else Opened(a.open(c.legacy, blob[..12], blob[12..]))
  }

  /** A cipher that still knows the material under which another one encrypts decrypts its output. */
  lemma DecryptsForeign(a: Aead, c: Cipher, d: Cipher, nonce: Bytes, plaintext: Bytes)
    requires Opens(a) && |nonce| == 12 && Encrypt(a, c, nonce, plaintext).Ok?
    requires c.activeID in d.keys && d.keys[c.activeID] == c.keys[c.activeID]
    ensures Decrypt(a, d, Encrypt(a, c, nonce, plaintext).value) == Ok(plaintext)
  {
    ParseInvertsPrint(Versioned(c.activeID, nonce, a.seal(c.keys[c.activeID], nonce, plaintext)));
  }

  /** Nothing but what was sealed decrypts: a versioned blob only under the key its id names, any other only
      under the bootstrap key. */
  lemma DecryptsOnlySealed(a: Aead, c: Cipher, blob: Bytes, plaintext: Bytes)
    requires Authenticates(a) && Decrypt(a, c, blob) == Ok(plaintext)
    ensures match ParseVersioned(blob)
      case Some(v) =>
        v.id in c.keys && blob == Print(Versioned(v.id, v.nonce, a.seal(c.keys[v.id], v.nonce, plaintext)))
      case None => |blob| >= 12 && blob == LegacyBlob(a, c.legacy, blob[..12], plaintext)
  {
    match ParseVersioned(blob)
    case Some(v) => PrintInvertsParse(blob);
    case None => assert blob == blob[..12] + blob[12..];
  }

  // ---------- Legacy blobs ----------

  function LegacyBlob(a: Aead, key: Bytes, nonce: Bytes, plaintext: Bytes): Bytes {
    nonce + a.seal(key, nonce, plaintext)
  }

  /** A legacy blob decrypts to its plaintext exactly when it does not happen to read as versioned. */
  lemma LegacyRoundTrip(a: Aead, c: Cipher, nonce: Bytes, plaintext: Bytes)
    requires Opens(a) && Authenticates(a) && |nonce| == 12
    ensures Decrypt(a, c, LegacyBlob(a, c.legacy, nonce, plaintext)) == Ok(plaintext)
       <==> ParseVersioned(LegacyBlob(a, c.legacy, nonce, plaintext)).None?
  {
    var blob := LegacyBlob(a, c.legacy, nonce, plaintext);
    assert blob[..12] == nonce && blob[12..] == a.seal(c.legacy, nonce, plaintext);
    match ParseVersioned(blob)
    case None =>
    case Some(v) =>
      PrintInvertsParse(blob);
      if v.id in c.keys && a.open(c.keys[v.id], v.nonce, v.ciphertext).Some? {
        var p := a.open(c.keys[v.id], v.nonce, v.ciphertext).value;
        assert |v.ciphertext| == |p| + 16;
      }
  }

  /** Such collisions exist for every key and plaintext, so the fallback is not lossless. */
  lemma LegacyCollision(a: Aead, c: Cipher, plaintext: Bytes)
    requires Opens(a) && Authenticates(a)
    ensures var nonce := [0xC1, 0x70, 1, 'k' as int, 0, 0, 0, 0, 0, 0, 0, 0];
      Decrypt(a, c, LegacyBlob(a, c.legacy, nonce, plaintext)) != Ok(plaintext)
  {
    var nonce: Bytes := [0xC1, 0x70, 1, 'k' as int, 0, 0, 0, 0, 0, 0, 0, 0];
    var blob := LegacyBlob(a, c.legacy, nonce, plaintext);
    assert blob[3..4] == ['k' as int];
    LegacyRoundTrip(a, c, nonce, plaintext);
  }

  // ---------- The key table ----------

  datatype KeyStatus = Active | Retired

  datatype KeyRow = KeyRow(material: Bytes, status: KeyStatus)

  type KeyTable = map<Bytes, KeyRow>

  datatype Listed = Listed(id: Bytes, row: KeyRow)

  /** Every row once, in whatever order the query returns them. */
  ghost predicate Lists(rows: seq<Listed>, t: KeyTable) {
    && (forall i | 0 <= i < |rows| :: rows[i].id in t && t[rows[i].id] == rows[i].row)
    && (forall i, j | 0 <= i < j < |rows| :: rows[i].id != rows[j].id)
    && (forall id | id in t :: exists i :: 0 <= i < |rows| && rows[i].id == id)
  }

  ghost predicate OneActive(t: KeyTable) {
    && (exists id :: id in t && t[id].status == Active)
    && (forall x, y | x in t && y in t && t[x].status == Active && t[y].status == Active :: x == y)
  }

  ghost predicate Loadable(t: KeyTable) {
    (forall id | id in t :: ValidKeyID(id) && |t[id].material| == 32) && OneActive(t)
  }

  /** The one cipher a table loads to, whatever the order of its rows. */
  ghost predicate LoadedFrom(c: Cipher, t: KeyTable, bootstrap: Bytes) {
    && c.keys == (map id | id in t :: t[id].material)
    && c.activeID in t && t[c.activeID].status == Active
    && c.legacy == bootstrap
  }

  const BOOTSTRAP_ID: Bytes := ['k' as int, '1' as int]

  datatype BootError = BadBootstrap | ListFailed | SeedFailed | BadKeyID | BadMaterial | ManyActive | NoneActive

  class Store {
    var table: KeyTable

    constructor (table: KeyTable)
      ensures this.table == table
    {
      this.table := table;
    }

    /** `INSERT INTO encryption_keys`: the primary key rejects an id already present. */
    method InsertEncryptionKey(id: Bytes, row: KeyRow, io: bool) returns (ok: bool)
      modifies this
      ensures ok == (io && id !in old(table))
      ensures table == if ok then old(table)[id := row] else old(table)
    {
      ok := io && id !in table;
      if ok { table := table[id := row]; }
    }
  }

  predicate GoodRow(r: Listed) {
    ValidKeyID(r.id) && |r.row.material| == 32
  }

  function Materials(rows: seq<Listed>): map<Bytes, Bytes> {
    if rows == [] then map[]
    else
      var last := rows[|rows| - 1];
      Materials(rows[..|rows| - 1])[last.id := last.row.material]
  }

  lemma {:induction false} MaterialsOf(rows: seq<Listed>, t: KeyTable)
    requires forall i | 0 <= i < |rows| :: rows[i].id in t && t[rows[i].id] == rows[i].row
    ensures forall i | 0 <= i < |rows| :: rows[i].id in Materials(rows)
    ensures forall id | id in Materials(rows) :: id in t && Materials(rows)[id] == t[id].material
  {
    if rows != [] {
      var n := |rows| - 1;
      MaterialsOf(rows[..n], t);
      forall i | 0 <= i < |rows| ensures rows[i].id in Materials(rows) {
        if i < n { assert rows[..n][i] == rows[i]; }
      }
    }
  }

  lemma BadRowBlocks(rows: seq<Listed>, t: KeyTable, i: int)
    requires Lists(rows, t) && 0 <= i < |rows| && !GoodRow(rows[i])
    ensures !Loadable(t)
  {
    assert rows[i].id in t;
  }

  lemma SecondActiveBlocks(rows: seq<Listed>, t: KeyTable, i: int, j: int)
    requires Lists(rows, t) && 0 <= i < j < |rows|
    requires rows[i].row.status == Active && rows[j].row.status == Active
    ensures !Loadable(t)
  {
    assert rows[i].id in t && rows[j].id in t && rows[i].id != rows[j].id;
  }

  lemma NoActiveBlocks(rows: seq<Listed>, t: KeyTable)
    requires Lists(rows, t) && forall i | 0 <= i < |rows| :: rows[i].row.status != Active
    ensures !Loadable(t)
  {
    forall id | id in t ensures t[id].status != Active {
      var i :| 0 <= i < |rows| && rows[i].id == id;
    }
  }

  lemma RowOf(rows: seq<Listed>, t: KeyTable, id: Bytes) returns (i: int)
    requires Lists(rows, t) && id in t
    ensures 0 <= i < |rows| && rows[i] == Listed(id, t[id])
  {
    i :| 0 <= i < |rows| && rows[i].id == id;
  }

  lemma AllMaterials(rows: seq<Listed>, t: KeyTable)
    requires Lists(rows, t)
    ensures Materials(rows) == map id | id in t :: t[id].material
  {
    MaterialsOf(rows, t);
    forall id | id in t ensures id in Materials(rows) {
      var i := RowOf(rows, t, id);
    }
  }

  lemma OneActiveLoads(rows: seq<Listed>, t: KeyTable, at: int)
    requires Lists(rows, t) && 0 <= at < |rows| && rows[at].row.status == Active
    requires forall i | 0 <= i < |rows| :: GoodRow(rows[i]) && (i != at ==> rows[i].row.status != Active)
    ensures Loadable(t)
  {
    forall id | id in t
      ensures ValidKeyID(id) && |t[id].material| == 32 && (t[id].status == Active ==> id == rows[at].id)
    {
      var i := RowOf(rows, t, id);
      assert GoodRow(rows[i]);
    }
    assert rows[at].id in t;
  }

  ghost predicate SoleActive(rows: seq<Listed>, at: int) {
    && 0 <= at < |rows| && rows[at].row.status == Active
    && forall i | 0 <= i < |rows| && i != at :: rows[i].row.status != Active
  }

  /** The loading loop: it fails exactly on a bad row, on a second active row, or without an active one. */
  method ScanRows(rows: seq<Listed>, bootstrap: Bytes) returns (r: Result<Cipher, BootError>, ghost at: int)
    ensures r.Ok? ==>
      && (forall i | 0 <= i < |rows| :: GoodRow(rows[i])) && SoleActive(rows, at)
      && r.value == Cipher(Materials(rows), rows[at].id, bootstrap)
    ensures r.Err? ==>
      || (exists i :: 0 <= i < |rows| && !GoodRow(rows[i]))
      || (exists i, j :: 0 <= i < j < |rows| && rows[i].row.status == Active && rows[j].row.status == Active)
      || (forall i | 0 <= i < |rows| :: rows[i].row.status != Active)
  {
    var keys: map<Bytes, Bytes> := map[];
    var activeID: Bytes := [];
    at := -1;
    for i := 0 to |rows|
      invariant forall j | 0 <= j < i :: GoodRow(rows[j])
      invariant keys == Materials(rows[..i])
      invariant activeID == [] ==> at == -1
      invariant activeID != [] ==> 0 <= at < i && rows[at].id == activeID && rows[at].row.status == Active
      invariant forall j | 0 <= j < i && j != at :: rows[j].row.status != Active
    {
      var id, row := rows[i].id, rows[i].row;
      if !ValidKeyID(id) { return Err(BadKeyID), at; }
      if |row.material| != 32 { return Err(BadMaterial), at; }
      keys := keys[id := row.material];
      assert rows[..i + 1][..i] == rows[..i];
      if row.status == Active {
        if activeID != [] { return Err(ManyActive), at; }
        activeID := id;
        at := i;
      }
    }
    assert rows[..|rows|] == rows;
    if activeID == [] { return Err(NoneActive), at; }
    r := Ok(Cipher(keys, activeID, bootstrap));
  }

  /** Loading a non-empty table succeeds if and only if every id and material is valid and exactly one
      row is active, and then yields the cipher the table determines. */
  method LoadRows(rows: seq<Listed>, ghost t: KeyTable, bootstrap: Bytes) returns (r: Result<Cipher, BootError>)
    requires Lists(rows, t)
    ensures r.Ok? <==> Loadable(t)
    ensures r.Ok? ==> LoadedFrom(r.value, t, bootstrap)
  {
    ghost var at;
    r, at := ScanRows(rows, bootstrap);
    if r.Ok? {
      OneActiveLoads(rows, t, at);
      AllMaterials(rows, t);
    } else if i :| 0 <= i < |rows| && !GoodRow(rows[i]) {
      BadRowBlocks(rows, t, i);
    } else if i, j :| 0 <= i < j < |rows| && rows[i].row.status == Active && rows[j].row.status == Active {
      SecondActiveBlocks(rows, t, i, j);
    } else {
      NoActiveBlocks(rows, t);
    }
  }

  /** Boot. An empty table is seeded with the bootstrap key, any other table is loaded and left
      unchanged. `rows` is what the list query returned, if it succeeded. */
  method NewCipherWithStore(s: Store, bootstrap: Bytes, rows: Option<seq<Listed>>, seedIo: bool)
    returns (r: Result<Cipher, BootError>)
    requires rows.Some? ==> Lists(rows.value, s.table)
    modifies s
    ensures |bootstrap| != 32 || rows.None? ==> r.Err? && s.table == old(s.table)
    ensures |bootstrap| == 32 && rows.Some? && old(s.table) != map[] ==>
      s.table == old(s.table) && (r.Ok? <==> Loadable(s.table))
    ensures |bootstrap| == 32 && rows.Some? && old(s.table) == map[] ==>
      if seedIo then s.table == map[BOOTSTRAP_ID := KeyRow(bootstrap, Active)] && r.Ok?
      else s.table == old(s.table) && r.Err?
    ensures r.Ok? ==> Loadable(s.table) && LoadedFrom(r.value, s.table, bootstrap)
  {
    if |bootstrap| != 32 { return Err(BadBootstrap); }
    if rows.None? { return Err(ListFailed); }
    if |rows.value| == 0 {
      assert s.table == map[];
      var seeded := s.InsertEncryptionKey(BOOTSTRAP_ID, KeyRow(bootstrap, Active), seedIo);
      if !seeded { return Err(SeedFailed); }
      assert BOOTSTRAP_ID in s.table;
      return Ok(Cipher(map[BOOTSTRAP_ID := bootstrap], BOOTSTRAP_ID, bootstrap));
    }
    assert rows.value[0].id in s.table;
    r := LoadRows(rows.value, s.table, bootstrap);
  }

  // ---------- Across reboots ----------

  /** Statements that change the table between boots: it only gains rows and changes statuses. */
  datatype TableOp = InsertKey(id: Bytes, row: KeyRow) | SetStatus(id: Bytes, status: KeyStatus)

  function Evolve(t: KeyTable, op: TableOp): KeyTable {
    match op
    case InsertKey(id, row) => if id in t then t else t[id := row]
    case SetStatus(id, status) => if id in t then t[id := t[id].(status := status)] else t
  }

  function EvolveAll(t: KeyTable, ops: seq<TableOp>): KeyTable
    decreases |ops|
  {
    if ops == [] then t else EvolveAll(Evolve(t, ops[0]), ops[1..])
  }

  lemma {:induction false} MaterialPersists(t: KeyTable, ops: seq<TableOp>, id: Bytes)
    requires id in t
    ensures id in EvolveAll(t, ops) && EvolveAll(t, ops)[id].material == t[id].material
    decreases |ops|
  {
    if ops != [] {
      MaterialPersists(Evolve(t, ops[0]), ops[1..], id);
    }
  }

  /** Every blob produced in any boot decrypts to its plaintext in every later successful boot,
      whatever inserts and status changes came in between and whatever the bootstrap keys were. */
  lemma CipherAcrossReboots(a: Aead, t: KeyTable, c: Cipher, ops: seq<TableOp>, d: Cipher,
                            bootstrap: Bytes, laterBootstrap: Bytes, nonce: Bytes, plaintext: Bytes)
    requires Opens(a) && |nonce| == 12
    requires Loadable(t) && LoadedFrom(c, t, bootstrap)
    requires LoadedFrom(d, EvolveAll(t, ops), laterBootstrap)
    ensures Encrypt(a, c, nonce, plaintext).Ok?
    ensures Decrypt(a, d, Encrypt(a, c, nonce, plaintext).value) == Ok(plaintext)
  {
    MaterialPersists(t, ops, c.activeID);
    DecryptsForeign(a, c, d, nonce, plaintext);
  }
}

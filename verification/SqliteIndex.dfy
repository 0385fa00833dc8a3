/**
  The SQLite index derived from the memory store: reconciliation with its fingerprint skip, ordered
  reads, and the vector table with its backlog. Tables change only in transactions that apply as a whole
  or not at all; SHA-256 is injective, so a content hash is identified with the content and a fingerprint
  with the row list it covers.
 */
module SqliteIndex {
  import opened Text
  import opened Wrappers
  import opened Faults
  import opened Json
  import opened JsonRoundTrip
  import opened MemoryEntry
  import opened TaskBudget
  import TaskEncoding

  const MAX_ENTRIES: nat := 8192
  const MAX_ID: nat := 128
  const MAX_TITLE: nat := 4096
  const MAX_CONTENT: nat := 1048576
  const MAX_TAGS: nat := 64
  const MAX_TAG: nat := 256
  const MAX_TIMESTAMP: nat := 128
  const MAX_METADATA: nat := 16384
  const MAX_DIMS: nat := 4096

  /** One indexed entry; its content hash is the content. */
  datatype Row = Row(
    id: string, memoryType: string, title: string, content: string, tags: seq<string>, metadata: seq<Member>,
    parentId: Option<string>, createdAt: string, lastAccessed: string, accessCount: nat, importance: Json, tokenCount: nat)

  /** The stored columns: tags and metadata as JSON text. */
  datatype DbRow = DbRow(
    id: string, memoryType: string, title: string, content: string, tagsJson: string, metadataJson: string,
    parentId: Option<string>, createdAt: string, lastAccessed: string, accessCount: nat, importance: Json, tokenCount: nat)

  datatype VectorKey = VectorKey(id: string, model: string)

  datatype Vector = Vector(contentHash: string, values: seq<real>)

  datatype Db = Db(entries: seq<DbRow>, vectors: map<VectorKey, Vector>, fingerprint: Option<seq<Row>>)

  const EMPTY_DB: Db := Db([], map[], None)

  // ---- Rows ----

  /** `float(importance)` for the integers a record can hold. */
  function AsFloat(v: Json): Json {
    match v
    case Int(n) => Float(Decimal(n) + ".0")
    case _ => v
  }

  predicate TagsFit(tags: seq<string>) {
    |tags| <= MAX_TAGS && forall tag <- tags :: |tag| <= MAX_TAG
  }

  /** `_index_row`: none when a field exceeds its budget. */
  function IndexRow(e: MemoryEntry): Option<Row> {
    var metadata := Canon(Obj(e.metadata)).members;
    if || e.id == "" || |e.id| > MAX_ID || |e.content| > MAX_CONTENT || |e.title| > MAX_TITLE || !TagsFit(e.tags)
       || |Print(Obj(metadata), false)| > MAX_METADATA
       || (e.parentId.Some? && |e.parentId.value| > MAX_ID)
       || |e.createdAt| > MAX_TIMESTAMP || |e.lastAccessed| > MAX_TIMESTAMP
    then None
    else Some(Row(e.id, e.memoryType, e.title, e.content, e.tags, metadata, e.parentId, e.createdAt, e.lastAccessed,
                  e.accessCount, AsFloat(e.importance), e.tokenCount))
  }

  function IndexRows(entries: seq<MemoryEntry>): Option<seq<Row>> {
    if |entries| == 0 then Some([])
    else match (IndexRow(entries[0]), IndexRows(entries[1..]))
      case (Some(row), Some(rest)) => Some([row] + rest)
      case _ => None
  }

  function ToDb(r: Row): DbRow {
    DbRow(r.id, r.memoryType, r.title, r.content, Print(Arr(TextItems(r.tags)), false), Print(Obj(r.metadata), false),
          r.parentId, r.createdAt, r.lastAccessed, r.accessCount, r.importance, r.tokenCount)
  }

  /** `_row_from_db`. */
  function FromDb(d: DbRow): Option<Row> {
    match (Parse(d.tagsJson), Parse(d.metadataJson))
    case (Some(tagsValue), Some(Obj(metadata))) =>
      (match TextsOf(tagsValue)
       case Some(tags) => Some(Row(d.id, d.memoryType, d.title, d.content, tags, metadata, d.parentId, d.createdAt, d.lastAccessed,
                                   d.accessCount, d.importance, d.tokenCount))
       case None => None)
    case _ => None
  }

  /** A stored row reads back as the row that was stored. */
  lemma RowRoundTrip(r: Row)
    requires Valid(Obj(r.metadata))
    ensures FromDb(ToDb(r)) == Some(r)
  {
    hide Parse, Print, TextItems, TextsOf, Valid;
    TextsRoundTrip(r.tags);
    RoundTrip(Arr(TextItems(r.tags)), false);
    RoundTrip(Obj(r.metadata), false);
  }

  // ---- Order by id ----

  function InsertById(row: DbRow, rows: seq<DbRow>): seq<DbRow> {
    if |rows| == 0 || !StringLess(rows[0].id, row.id) then [row] + rows else [rows[0]] + InsertById(row, rows[1..])
  }

  /** `ORDER BY entry_id`. */
  function OrderById(rows: seq<DbRow>): seq<DbRow> {
    if |rows| == 0 then [] else InsertById(rows[0], OrderById(rows[1..]))
  }

  ghost predicate Ordered(rows: seq<DbRow>) {
    forall i, j :: 0 <= i < j < |rows| ==> StringLess(rows[i].id, rows[j].id)
  }

  lemma {:induction false} OrderOfOrdered(rows: seq<DbRow>)
    requires Ordered(rows)
    ensures OrderById(rows) == rows
  {
    hide StringLess;
    if |rows| > 0 {
      OrderOfOrdered(rows[1..]);
      assert rows == [rows[0]] + rows[1..];
      if |rows| > 1 { StringLessTotal(rows[0].id, rows[1].id); }
    }
  }

  /** `sorted(rows, key=id)`. */
  function InsertRow(row: Row, rows: seq<Row>): seq<Row> {
    if |rows| == 0 || !StringLess(rows[0].id, row.id) then [row] + rows else [rows[0]] + InsertRow(row, rows[1..])
  }

  function SortRows(rows: seq<Row>): seq<Row> {
    if |rows| == 0 then [] else InsertRow(rows[0], SortRows(rows[1..]))
  }

  ghost predicate SortedRows(rows: seq<Row>) {
    forall i, j :: 0 <= i < j < |rows| ==> StringLess(rows[i].id, rows[j].id)
  }

  predicate DistinctIds(rows: seq<Row>) {
    forall i, j :: 0 <= i < j < |rows| ==> rows[i].id != rows[j].id
  }

  lemma {:induction false} InsertRowPermutes(row: Row, rows: seq<Row>)
    ensures multiset(InsertRow(row, rows)) == multiset(rows) + multiset{row}
  {
    hide StringLess;
    if |rows| > 0 && StringLess(rows[0].id, row.id) {
      InsertRowPermutes(row, rows[1..]);
      assert rows == [rows[0]] + rows[1..];
    }
  }

  lemma {:induction false} InsertRowSorts(row: Row, rows: seq<Row>)
    requires SortedRows(rows) && forall r <- rows :: r.id != row.id
    ensures SortedRows(InsertRow(row, rows))
  {
    hide StringLess;
    if |rows| > 0 {
      assert rows[0] in rows;
      StringLessTotal(rows[0].id, row.id);
      if StringLess(rows[0].id, row.id) {
        var rest := InsertRow(row, rows[1..]);
        InsertRowSorts(row, rows[1..]);
        InsertRowPermutes(row, rows[1..]);
        forall j | 0 <= j < |rest| ensures StringLess(rows[0].id, rest[j].id) {
          assert rest[j] in multiset(rest);
          if rest[j] != row {
            assert rest[j] in multiset(rows[1..]);
            var i :| 0 <= i < |rows| - 1 && rows[1..][i] == rest[j];
          }
        }
        ConsSorted(rows[0], rest);
      } else {
        forall j | 0 <= j < |rows| ensures StringLess(row.id, rows[j].id) {
          if j > 0 { StringLessTransitive(row.id, rows[0].id, rows[j].id); }
        }
        ConsSorted(row, rows);
      }
    }
  }

  lemma ConsSorted(row: Row, rows: seq<Row>)
    requires SortedRows(rows) && forall j :: 0 <= j < |rows| ==> StringLess(row.id, rows[j].id)
    ensures SortedRows([row] + rows)
  {
    hide StringLess;
    var all := [row] + rows;
    forall i, j | 0 <= i < j < |all| ensures StringLess(all[i].id, all[j].id) {
      assert all[j] == rows[j - 1];
      if i > 0 { assert all[i] == rows[i - 1]; }
    }
  }

  lemma {:induction false} SortRowsSorts(rows: seq<Row>)
    requires DistinctIds(rows)
    ensures SortedRows(SortRows(rows)) && multiset(SortRows(rows)) == multiset(rows)
  {
    hide StringLess, InsertRow;
    if |rows| > 0 {
      SortRowsSorts(rows[1..]);
      assert rows == [rows[0]] + rows[1..];
      forall r <- SortRows(rows[1..]) ensures r.id != rows[0].id {
        assert r in multiset(SortRows(rows[1..])) && r in rows[1..];
        var j :| 0 <= j < |rows| - 1 && rows[1..][j] == r;
        assert rows[j + 1] == r;
      }
      InsertRowSorts(rows[0], SortRows(rows[1..]));
      InsertRowPermutes(rows[0], SortRows(rows[1..]));
    }
  }

  // ---- Reconciliation ----

  /** What a call reports; `Failed` is the adapter's error. */
  datatype Outcome = Reconciled(rewritten: bool) | Failed | Died

  datatype Reconciliation = Reconciliation(db: Db, outcome: Outcome)

  function StoredRows(rows: seq<Row>): seq<DbRow> {
    seq(|rows|, i requires 0 <= i < |rows| => ToDb(rows[i]))
  }

  function Ids(rows: seq<Row>): set<string> {
    set r <- rows :: r.id
  }

  /** The transaction: rows replaced, vectors of vanished entries dropped, fingerprint recorded. */
  function Rebuilt(db: Db, rows: seq<Row>): Db {
    Db(StoredRows(SortRows(rows)), map k | k in db.vectors && k.id in Ids(rows) :: db.vectors[k], Some(SortRows(rows)))
  }

  function ReconcileSpec(db: Db, entries: seq<MemoryEntry>, readable: bool, fault: Fault): Reconciliation {
    match IndexRows(entries)
    case None => Reconciliation(db, Failed)
    case Some(rows) =>
      if |rows| > MAX_ENTRIES || !DistinctIds(rows) || !readable then Reconciliation(db, Failed)
      else if db.fingerprint == Some(SortRows(rows)) then Reconciliation(db, Reconciled(false))
      else Reconciliation(if Applied(fault) then Rebuilt(db, rows) else db,
                          if fault.Done? then Reconciled(true) else if fault.Raise? then Failed else Died)
  }

  function ParseRows(rows: seq<DbRow>): Option<seq<Row>> {
    if |rows| == 0 then Some([])
    else match (FromDb(rows[0]), ParseRows(rows[1..]))
      case (Some(row), Some(rest)) => Some([row] + rest)
      case _ => None
  }

  /** `fetch_entries`. */
  function Fetch(db: Db, maxRows: nat): Option<seq<Row>> {
    var ordered := OrderById(db.entries);
    ParseRows(if |ordered| <= maxRows then ordered else ordered[..maxRows])
  }

  ghost predicate GoodRows(rows: seq<Row>) {
    SortedRows(rows) && |rows| <= MAX_ENTRIES && forall r <- rows :: Valid(Obj(r.metadata))
  }

  /** The stored fingerprint is absent or that of the table. */
  ghost predicate Inv(db: Db) {
    db.fingerprint.Some? ==> GoodRows(db.fingerprint.value) && db.entries == StoredRows(db.fingerprint.value)
  }

  ghost predicate GoodEntries(entries: seq<MemoryEntry>) {
    forall e <- entries :: Valid(Obj(e.metadata))
  }

  lemma {:induction false} IndexRowsShape(entries: seq<MemoryEntry>)
    requires GoodEntries(entries) && IndexRows(entries).Some?
    ensures var rows := IndexRows(entries).value;
            |rows| == |entries| && forall i :: 0 <= i < |rows| ==> IndexRow(entries[i]) == Some(rows[i]) && Valid(Obj(rows[i].metadata))
  {
    hide Canon, Valid, Print, TagsFit;
    if |entries| > 0 {
      assert entries[0] in entries;
      TaskEncoding.CanonKeepsSafeAndValid(Obj(entries[0].metadata), 0);
      IndexRowsShape(entries[1..]);
      CanonIsObject(entries[0].metadata);
    }
  }

  lemma CanonIsObject(members: seq<Member>)
    ensures Canon(Obj(members)).Obj?
  {
  }

  lemma SortedIsGood(rows: seq<Row>)
    requires DistinctIds(rows) && |rows| <= MAX_ENTRIES && forall i :: 0 <= i < |rows| ==> Valid(Obj(rows[i].metadata))
    ensures GoodRows(SortRows(rows))
  {
    hide StringLess, SortRows, Valid;
    SortRowsSorts(rows);
    var sorted := SortRows(rows);
    assert |sorted| == |multiset(sorted)| == |multiset(rows)| == |rows|;
    forall r <- sorted ensures Valid(Obj(r.metadata)) {
      assert r in multiset(sorted) && r in rows;
      var i :| 0 <= i < |rows| && rows[i] == r;
    }
  }

  lemma ReconcileKeepsInv(db: Db, entries: seq<MemoryEntry>, readable: bool, fault: Fault)
    requires Inv(db) && GoodEntries(entries)
    ensures Inv(ReconcileSpec(db, entries, readable, fault).db)
  {
    hide SortRows, IndexRows, StoredRows, GoodRows, DistinctIds;
    if IndexRows(entries).Some? {
      var rows := IndexRows(entries).value;
      IndexRowsShape(entries);
      if DistinctIds(rows) && |rows| <= MAX_ENTRIES { SortedIsGood(rows); }
    }
  }

  lemma StoredOrdered(rows: seq<Row>)
    requires SortedRows(rows)
    ensures OrderById(StoredRows(rows)) == StoredRows(rows)
  {
    hide StringLess, OrderById, ToDb;
    KeepsId();
    OrderOfOrdered(StoredRows(rows));
  }

  lemma KeepsId()
    ensures forall r :: ToDb(r).id == r.id
  {
    hide Print;
  }

  lemma {:induction false} ParseStored(rows: seq<Row>)
    requires forall r <- rows :: Valid(Obj(r.metadata))
    ensures ParseRows(StoredRows(rows)) == Some(rows)
  {
    hide ToDb, FromDb, Valid;
    if |rows| > 0 {
      assert rows[0] in rows;
      RowRoundTrip(rows[0]);
      ParseStored(rows[1..]);
      assert StoredRows(rows)[1..] == StoredRows(rows[1..]);
      assert rows == [rows[0]] + rows[1..];
    }
  }

  /** The whole table reads back as the fingerprinted rows. */
  lemma FetchAll(db: Db)
    requires Inv(db) && db.fingerprint.Some?
    ensures Fetch(db, MAX_ENTRIES) == db.fingerprint
  {
    hide OrderById, ParseRows, SortedRows;
    var rows := db.fingerprint.value;
    StoredOrdered(rows);
    ParseStored(rows);
  }

  /** A bounded read gives the first rows in id order. */
  lemma FetchFirst(db: Db, maxRows: nat)
    requires Inv(db) && db.fingerprint.Some?
    ensures var rows := db.fingerprint.value; Fetch(db, maxRows) == Some(if |rows| <= maxRows then rows else rows[..maxRows])
  {
    hide OrderById, ParseRows, SortedRows, Valid;
    var rows := db.fingerprint.value;
    StoredOrdered(rows);
    var first := if |rows| <= maxRows then rows else rows[..maxRows];
    assert forall r <- first :: r in rows;
    ParseStored(first);
    if |rows| > maxRows { assert StoredRows(rows)[..maxRows] == StoredRows(first); }
  }

  /**
    After every successful reconcile, skipped or not, the index reads back as exactly the snapshot's rows in
    id order; a failed one leaves the previous table or the new one, never a mixture.
  */
  lemma ReconcileAgrees(db: Db, entries: seq<MemoryEntry>, readable: bool, fault: Fault)
    requires Inv(db) && GoodEntries(entries)
    ensures var r := ReconcileSpec(db, entries, readable, fault);
            && (r.outcome.Reconciled? ==>
                  && IndexRows(entries).Some?
                  && Fetch(r.db, MAX_ENTRIES) == Some(SortRows(IndexRows(entries).value))
                  && multiset(SortRows(IndexRows(entries).value)) == multiset(IndexRows(entries).value))
            && (r.db == db || (IndexRows(entries).Some? && r.db == Rebuilt(db, IndexRows(entries).value)))
            && (r.outcome == Reconciled(false) ==> r.db == db)
  {
    hide SortRows, IndexRows, StoredRows, GoodRows, DistinctIds, Inv, Fetch;
    var r := ReconcileSpec(db, entries, readable, fault);
    ReconcileKeepsInv(db, entries, readable, fault);
    if r.outcome.Reconciled? {
      SortRowsSorts(IndexRows(entries).value);
      FetchAll(r.db);
    }
  }

  // ---- Rows and their entries ----

  /** The row holds the entry, field by field; metadata answers every key alike, with nested keys in order. */
  ghost predicate Mirrors(row: Row, e: MemoryEntry) {
    && row.id == e.id && row.memoryType == e.memoryType && row.title == e.title && row.content == e.content && row.tags == e.tags
    && row.parentId == e.parentId && row.createdAt == e.createdAt && row.lastAccessed == e.lastAccessed
    && row.accessCount == e.accessCount && row.tokenCount == e.tokenCount
    && (e.importance.Int? ==> row.importance == Float(Decimal(e.importance.n) + ".0")) && (!e.importance.Int? ==> row.importance == e.importance)
    && (forall key :: Lookup(row.metadata, key) == match Lookup(e.metadata, key) case None => None case Some(v) => Some(Canon(v)))
  }

  /** Every bounded field of the entry is within its bound. */
  predicate WithinBounds(e: MemoryEntry) {
    && 0 < |e.id| <= 128 && |e.title| <= 4096 && |e.content| <= 1048576
    && |e.tags| <= 64 && (forall tag <- e.tags :: |tag| <= 256)
    && |Print(Canon(Obj(e.metadata)), false)| <= 16384
    && (e.parentId.Some? ==> |e.parentId.value| <= 128) && |e.createdAt| <= 128 && |e.lastAccessed| <= 128
  }

  lemma RowMirrorsEntry(e: MemoryEntry)
    requires Valid(Obj(e.metadata))
    ensures IndexRow(e).Some? <==> WithinBounds(e)
    ensures IndexRow(e).Some? ==> Mirrors(IndexRow(e).value, e)
  {
    hide Canon, Print, Valid, Decimal, Lookup;
    CanonIsObject(e.metadata);
    assert UniqueKeys(e.metadata) by { ValidKeys(e.metadata); }
    forall key ensures Lookup(Canon(Obj(e.metadata)).members, key) == match Lookup(e.metadata, key) case None => None case Some(v) => Some(Canon(v)) {
      TaskEncoding.CanonKeepsLookups(e.metadata, key);
    }
  }

  lemma ValidKeys(members: seq<Member>)
    requires Valid(Obj(members))
    ensures UniqueKeys(members)
  {
  }

  lemma {:induction false} IndexRowsIff(entries: seq<MemoryEntry>)
    requires GoodEntries(entries)
    ensures IndexRows(entries).Some? <==> forall e <- entries :: WithinBounds(e)
  {
    hide WithinBounds, IndexRow, Mirrors, Valid;
    if |entries| > 0 {
      assert entries[0] in entries;
      RowMirrorsEntry(entries[0]);
      IndexRowsIff(entries[1..]);
      assert entries == [entries[0]] + entries[1..];
    }
  }

  lemma RowsMirror(entries: seq<MemoryEntry>)
    requires GoodEntries(entries) && IndexRows(entries).Some?
    ensures var rows := IndexRows(entries).value;
            |rows| == |entries| && forall i :: 0 <= i < |rows| ==> Mirrors(rows[i], entries[i])
  {
    hide WithinBounds, IndexRow, Mirrors, Valid, IndexRows;
    IndexRowsShape(entries);
    forall i | 0 <= i < |entries| ensures Mirrors(IndexRows(entries).value[i], entries[i]) {
      assert entries[i] in entries;
      RowMirrorsEntry(entries[i]);
    }
  }

  predicate DistinctEntryIds(entries: seq<MemoryEntry>) {
    forall i, j :: 0 <= i < j < |entries| ==> entries[i].id != entries[j].id
  }

  lemma MirroredIds(entries: seq<MemoryEntry>)
    requires GoodEntries(entries) && IndexRows(entries).Some?
    ensures |IndexRows(entries).value| == |entries|
    ensures DistinctIds(IndexRows(entries).value) <==> DistinctEntryIds(entries)
  {
    hide IndexRows, Valid;
    RowsMirror(entries);
    var rows := IndexRows(entries).value;
    assert forall i :: 0 <= i < |rows| ==> rows[i].id == entries[i].id;
  }

  /** A reconcile in which nothing fails succeeds exactly when the snapshot has at most 8192 entries, distinct ids and every field within its bound. */
  lemma ReconcileSucceedsIff(db: Db, entries: seq<MemoryEntry>)
    requires GoodEntries(entries)
    ensures ReconcileSpec(db, entries, true, Done).outcome.Reconciled? <==>
            |entries| <= 8192 && DistinctEntryIds(entries) && forall e <- entries :: WithinBounds(e)
  {
    hide WithinBounds, IndexRows, Valid, SortRows, DistinctIds, DistinctEntryIds, GoodEntries;
    IndexRowsIff(entries);
    if IndexRows(entries).Some? { MirroredIds(entries); }
  }

  /** After a successful reconcile, skipped or not, the fetched rows are strictly ordered by id, as many as the entries, and each entry has the row that mirrors it. */
  lemma SnapshotIsIndexed(db: Db, entries: seq<MemoryEntry>, readable: bool, fault: Fault)
    requires Inv(db) && GoodEntries(entries) && ReconcileSpec(db, entries, readable, fault).outcome.Reconciled?
    ensures var fetched := Fetch(ReconcileSpec(db, entries, readable, fault).db, MAX_ENTRIES);
            && fetched.Some? && |fetched.value| == |entries| && SortedRows(fetched.value)
            && forall e <- entries :: exists row <- fetched.value :: Mirrors(row, e)
  {
    hide SortRows, IndexRows, StoredRows, Valid, Inv, Fetch, Mirrors, SortedRows, Rebuilt;
    ReconcileAgrees(db, entries, readable, fault);
    RowsMirror(entries);
    var rows := IndexRows(entries).value;
    SortRowsSorts(rows);
    var sorted := SortRows(rows);
    assert |sorted| == |multiset(sorted)| == |multiset(rows)| == |rows|;
    forall e <- entries ensures exists row <- sorted :: Mirrors(row, e) {
      var i :| 0 <= i < |entries| && entries[i] == e;
      assert rows[i] in multiset(rows) && rows[i] in multiset(sorted) && rows[i] in sorted;
    }
  }

  /** A rewriting reconcile keeps exactly the vectors of the entries still there, whatever their model. */
  lemma VectorsFollowEntries(db: Db, entries: seq<MemoryEntry>, readable: bool, fault: Fault)
    requires GoodEntries(entries) && ReconcileSpec(db, entries, readable, fault).outcome == Reconciled(true)
    ensures var after := ReconcileSpec(db, entries, readable, fault).db.vectors;
            && (forall k :: k in after <==> k in db.vectors && exists e <- entries :: e.id == k.id)
            && (forall k :: k in after ==> after[k] == db.vectors[k])
  {
    hide SortRows, IndexRows, StoredRows, Valid;
    RowsMirror(entries);
    var rows := IndexRows(entries).value;
    forall k | k in db.vectors ensures k.id in Ids(rows) <==> exists e <- entries :: e.id == k.id {
      if k.id in Ids(rows) {
        var i :| 0 <= i < |rows| && rows[i].id == k.id;
        assert entries[i] in entries && entries[i].id == k.id;
      }
      if e :| e in entries && e.id == k.id {
        var i :| 0 <= i < |entries| && entries[i] == e;
        assert rows[i] in rows && rows[i].id == k.id;
      }
    }
  }

  // ---- Vectors ----

  /** `vector_backlog`: rows without a vector of this model for their current content. */
  function Backlog(db: Db, rows: seq<Row>, model: string): seq<Row> {
    if |rows| == 0 then []
    else (if Covered(db, rows[0], model) then [] else [rows[0]]) + Backlog(db, rows[1..], model)
  }

  predicate Covered(db: Db, row: Row, model: string) {
    var key := VectorKey(row.id, model);
    key in db.vectors && db.vectors[key].contentHash == row.content
  }

  datatype Embedded = Embedded(id: string, contentHash: string, values: seq<real>)

  predicate Usable(values: seq<real>) {
    0 < |values| <= MAX_DIMS && exists x <- values :: x != 0.0
  }

  /** A batch is stored whole or refused: usable vectors of one dimensionality. */
  predicate BatchOK(batch: seq<Embedded>) {
    && |batch| <= MAX_ENTRIES
    && (forall v <- batch :: v.id != "" && |v.id| <= MAX_ID && Usable(v.values))
    && (forall i :: 0 <= i < |batch| ==> |batch[i].values| == |batch[0].values|)
  }

  function Put(vectors: map<VectorKey, Vector>, model: string, batch: seq<Embedded>): map<VectorKey, Vector>
    decreases |batch|
  {
    if |batch| == 0 then vectors
    else Put(vectors[VectorKey(batch[0].id, model) := Vector(batch[0].contentHash, batch[0].values)], model, batch[1..])
  }

  /** `store_vectors`. */
  function StoreVectors(db: Db, model: string, batch: seq<Embedded>, fault: Fault): Reconciliation {
    if !BatchOK(batch) then Reconciliation(db, Failed)
    else Reconciliation(if Applied(fault) then db.(vectors := Put(db.vectors, model, batch)) else db,
                        if fault.Done? then Reconciled(true) else if fault.Raise? then Failed else Died)
  }

  /** How the environment compares two vectors of one dimensionality. */
  type Score = (seq<real>, seq<real>) -> real

  datatype Hit = Hit(row: Row, score: real)

  /** Equal scores are ordered by entry id. */
  predicate Before(a: Hit, b: Hit) {
    a.score > b.score || (a.score == b.score && StringLess(a.row.id, b.row.id))
  }

  function InsertHit(hit: Hit, hits: seq<Hit>): seq<Hit> {
    if |hits| == 0 || !Before(hits[0], hit) then [hit] + hits else [hits[0]] + InsertHit(hit, hits[1..])
  }

  function RankHits(hits: seq<Hit>): seq<Hit> {
    if |hits| == 0 then [] else InsertHit(hits[0], RankHits(hits[1..]))
  }

  predicate Comparable(db: Db, row: Row, model: string, query: seq<real>) {
    Covered(db, row, model) && |db.vectors[VectorKey(row.id, model)].values| == |query|
  }

  /** The join of vectors and entries on id and content hash, restricted to the query's dimensionality. */
  function Candidates(db: Db, rows: seq<Row>, model: string, query: seq<real>, score: Score): seq<Hit> {
    if |rows| == 0 then []
    else
      (if Comparable(db, rows[0], model, query) then [Hit(rows[0], score(query, db.vectors[VectorKey(rows[0].id, model)].values))] else [])
      + Candidates(db, rows[1..], model, query, score)
  }

  /** `search_semantic`. */
  function Search(db: Db, query: seq<real>, model: string, maxRows: nat, score: Score): Option<seq<Hit>> {
    if !Usable(query) then None
    else match ParseRows(db.entries)
      case None => None
      case Some(rows) =>
        var ranked := RankHits(Candidates(db, rows, model, query, score));
        Some(if |ranked| <= maxRows then ranked else ranked[..maxRows])
  }

  /** The row's own vector, still valid for its content and of the query's dimensionality, gives the score. */
  ghost predicate IsHit(db: Db, rows: seq<Row>, model: string, query: seq<real>, score: Score, hit: Hit) {
    hit.row in rows && Comparable(db, hit.row, model, query) && hit.score == score(query, db.vectors[VectorKey(hit.row.id, model)].values)
  }

  lemma {:induction false} CandidatesExact(db: Db, rows: seq<Row>, model: string, query: seq<real>, score: Score, hit: Hit)
    ensures hit in Candidates(db, rows, model, query, score) <==> IsHit(db, rows, model, query, score, hit)
  {
    hide Covered;
    if |rows| > 0 {
      CandidatesExact(db, rows[1..], model, query, score, hit);
      assert rows == [rows[0]] + rows[1..];
    }
  }

  lemma {:induction false} RankHitsPermutes(hits: seq<Hit>)
    ensures multiset(RankHits(hits)) == multiset(hits)
  {
    hide InsertHit;
    if |hits| > 0 {
      RankHitsPermutes(hits[1..]);
      InsertHitPermutes(hits[0], RankHits(hits[1..]));
      assert hits == [hits[0]] + hits[1..];
    }
  }

  lemma {:induction false} InsertHitPermutes(hit: Hit, hits: seq<Hit>)
    ensures multiset(InsertHit(hit, hits)) == multiset(hits) + multiset{hit}
  {
    hide Before;
    if |hits| > 0 && Before(hits[0], hit) {
      InsertHitPermutes(hit, hits[1..]);
      assert hits == [hits[0]] + hits[1..];
    }
  }

  ghost predicate Ranked(hits: seq<Hit>) {
    forall i, j :: 0 <= i < j < |hits| ==> !Before(hits[j], hits[i])
  }

  lemma BeforeChain(a: Hit, b: Hit, c: Hit)
    requires !Before(b, a) && !Before(c, b)
    ensures !Before(c, a)
  {
    if Before(c, a) && c.score == a.score {
      StringLessTotal(a.row.id, b.row.id);
      StringLessTotal(b.row.id, c.row.id);
      StringLessTotal(a.row.id, c.row.id);
      if StringLess(a.row.id, b.row.id) && StringLess(b.row.id, c.row.id) { StringLessTransitive(a.row.id, b.row.id, c.row.id); }
    }
  }

  lemma BeforeAsymmetric(a: Hit, b: Hit)
    requires Before(a, b)
    ensures !Before(b, a)
  {
    StringLessTotal(a.row.id, b.row.id);
  }

  lemma {:induction false} InsertHitRanks(hit: Hit, hits: seq<Hit>)
    requires Ranked(hits)
    ensures Ranked(InsertHit(hit, hits))
  {
    hide Before;
    if |hits| > 0 {
      if Before(hits[0], hit) {
        InsertHitRanks(hit, hits[1..]);
        InsertHitPermutes(hit, hits[1..]);
        BeforeAsymmetric(hits[0], hit);
        var rest := InsertHit(hit, hits[1..]);
        forall x | x in rest ensures !Before(x, hits[0]) {
          assert x in multiset(rest);
          if x != hit {
            assert x in multiset(hits[1..]);
            var j :| 0 <= j < |hits| - 1 && hits[1..][j] == x;
          }
        }
        ConsRanked(hits[0], rest);
      } else {
        forall x | x in hits ensures !Before(x, hit) {
          var j :| 0 <= j < |hits| && hits[j] == x;
          if j > 0 { BeforeChain(hit, hits[0], x); }
        }
        ConsRanked(hit, hits);
      }
    }
  }

  lemma ConsRanked(hit: Hit, hits: seq<Hit>)
    requires Ranked(hits) && forall x :: x in hits ==> !Before(x, hit)
    ensures Ranked([hit] + hits)
  {
    hide Before;
    var all := [hit] + hits;
    forall i, j | 0 <= i < j < |all| ensures !Before(all[j], all[i]) {
      assert all[j] == hits[j - 1];
      if i > 0 { assert all[i] == hits[i - 1]; }
    }
  }

  lemma {:induction false} RankHitsRanks(hits: seq<Hit>)
    ensures Ranked(RankHits(hits))
  {
    hide InsertHit;
    if |hits| > 0 {
      RankHitsRanks(hits[1..]);
      InsertHitRanks(hits[0], RankHits(hits[1..]));
    }
  }

  /**
    Semantic hits are exactly the indexed rows with a vector of the model for their current content and the
    query's dimensionality, best score first and then by id; a bounded search returns the first of them.
  */
  lemma SearchExact(db: Db, query: seq<real>, model: string, maxRows: nat, score: Score)
    requires Inv(db) && db.fingerprint.Some? && Usable(query)
    ensures var rows := db.fingerprint.value;
            var all := RankHits(Candidates(db, rows, model, query, score));
            && Search(db, query, model, maxRows, score) == Some(if |all| <= maxRows then all else all[..maxRows])
            && Ranked(all)
            && (forall hit :: hit in all <==> IsHit(db, rows, model, query, score, hit))
  {
    hide RankHits, Candidates, ParseRows, StoredRows, Ranked, IsHit;
    var rows := db.fingerprint.value;
    ParseStored(rows);
    var candidates := Candidates(db, rows, model, query, score);
    RankHitsRanks(candidates);
    RankHitsPermutes(candidates);
    forall hit ensures hit in RankHits(candidates) <==> IsHit(db, rows, model, query, score, hit) {
      CandidatesExact(db, rows, model, query, score, hit);
      assert hit in RankHits(candidates) <==> hit in multiset(RankHits(candidates));
    }
  }

  // ---- Catching up with the backlog ----

  const MAX_EMBEDS: nat := 32
  const MAX_BATCH_TEXTS: nat := 32
  const MAX_TEXT_CHARS: nat := 8192

  /** The provider answers one vector per text, or not at all. */
  type Provider = seq<string> -> Option<seq<seq<real>>>

  predicate Embeddable(texts: seq<string>) {
    0 < |texts| <= MAX_BATCH_TEXTS && forall t <- texts :: t != ""
  }

  predicate UsableVectors(vectors: seq<seq<real>>) {
    (forall v <- vectors :: Usable(v)) && forall i :: 0 <= i < |vectors| ==> |vectors[i]| == |vectors[0]|
  }

  /** It answers every batch within the contract, with usable vectors of one dimensionality. */
  ghost predicate Faithful(provider: Provider) {
    forall texts :: Embeddable(texts) ==> provider(texts).Some? && |provider(texts).value| == |texts| && UsableVectors(provider(texts).value)
  }

  /** The batch contract: at most 32 non-empty texts. */
  function Embed(provider: Provider, texts: seq<string>): Option<seq<seq<real>>> {
    if |texts| > MAX_BATCH_TEXTS || (exists t <- texts :: t == "") then None else provider(texts)
  }

  function FirstBatch(backlog: seq<Row>): (batch: seq<Row>)
    ensures batch <= backlog && |batch| == if |backlog| <= MAX_EMBEDS then |backlog| else MAX_EMBEDS
  {
    if |backlog| <= MAX_EMBEDS then backlog else backlog[..MAX_EMBEDS]
  }

  function Texts(batch: seq<Row>): seq<string> {
    seq(|batch|, i requires 0 <= i < |batch| => if |batch[i].content| <= MAX_TEXT_CHARS then batch[i].content else batch[i].content[..MAX_TEXT_CHARS])
  }

  function Zip(batch: seq<Row>, vectors: seq<seq<real>>): seq<Embedded>
    requires |batch| == |vectors|
  {
    seq(|batch|, i requires 0 <= i < |batch| => Embedded(batch[i].id, batch[i].content, vectors[i]))
  }

  /** The store half of `_semantic_matches`: embed the head of the backlog and store it. */
  function CatchUp(db: Db, rows: seq<Row>, model: string, provider: Provider, fault: Fault): Reconciliation {
    var backlog := Backlog(db, rows, model);
    if |backlog| == 0 then Reconciliation(db, Reconciled(false))
    else
      var batch := FirstBatch(backlog);
      match Embed(provider, Texts(batch))
      case None => Reconciliation(db, Failed)
      case Some(vectors) => if |vectors| != |batch| then Reconciliation(db, Failed) else StoreVectors(db, model, Zip(batch, vectors), fault)
  }

  lemma {:induction false} PutFrame(vectors: map<VectorKey, Vector>, model: string, batch: seq<Embedded>, key: VectorKey)
    requires forall i :: 0 <= i < |batch| ==> VectorKey(batch[i].id, model) != key
    ensures key in Put(vectors, model, batch) <==> key in vectors
    ensures key in vectors ==> Put(vectors, model, batch)[key] == vectors[key]
    decreases |batch|
  {
    if |batch| > 0 { PutFrame(vectors[VectorKey(batch[0].id, model) := Vector(batch[0].contentHash, batch[0].values)], model, batch[1..], key); }
  }

  lemma {:induction false} PutStores(vectors: map<VectorKey, Vector>, model: string, batch: seq<Embedded>, i: nat)
    requires i < |batch| && forall j, k :: 0 <= j < k < |batch| ==> batch[j].id != batch[k].id
    ensures var key := VectorKey(batch[i].id, model);
            key in Put(vectors, model, batch) && Put(vectors, model, batch)[key] == Vector(batch[i].contentHash, batch[i].values)
    decreases |batch|
  {
    var first := vectors[VectorKey(batch[0].id, model) := Vector(batch[0].contentHash, batch[0].values)];
    if i == 0 {
      forall j | 0 <= j < |batch| - 1 ensures batch[1..][j].id != batch[0].id { assert batch[1..][j] == batch[j + 1]; }
      PutFrame(first, model, batch[1..], VectorKey(batch[0].id, model));
    } else {
      PutStores(first, model, batch[1..], i - 1);
    }
  }

  lemma {:induction false} BacklogMembers(db: Db, rows: seq<Row>, model: string, row: Row)
    ensures row in Backlog(db, rows, model) <==> row in rows && !Covered(db, row, model)
  {
    hide Covered;
    if |rows| > 0 {
      BacklogMembers(db, rows[1..], model, row);
      assert rows == [rows[0]] + rows[1..];
    }
  }

  lemma {:induction false} BacklogDistinct(db: Db, rows: seq<Row>, model: string)
    requires DistinctIds(rows)
    ensures DistinctIds(Backlog(db, rows, model))
  {
    hide Covered;
    if |rows| > 0 {
      BacklogDistinct(db, rows[1..], model);
      forall r | r in Backlog(db, rows[1..], model) ensures r.id != rows[0].id {
        BacklogMembers(db, rows[1..], model, r);
        var j :| 0 <= j < |rows| - 1 && rows[1..][j] == r;
        assert rows[j + 1] == r;
      }
      var rest := Backlog(db, rows[1..], model);
      forall j | 0 <= j < |rest| ensures rest[j].id != rows[0].id { assert rest[j] in rest; }
    }
  }

  /** When exactly the first rows of the backlog become covered, the rest of it remains, in order. */
  lemma {:induction false} BacklogDrops(db: Db, db': Db, rows: seq<Row>, model: string, k: nat)
    requires DistinctIds(rows) && k <= |Backlog(db, rows, model)|
    requires forall r <- rows :: Covered(db, r, model) ==> Covered(db', r, model)
    requires forall i :: 0 <= i < |Backlog(db, rows, model)| ==> (Covered(db', Backlog(db, rows, model)[i], model) <==> i < k)
    ensures Backlog(db', rows, model) == Backlog(db, rows, model)[k..]
  {
    hide Covered, DistinctIds;
    if |rows| > 0 {
      var backlog, rest := Backlog(db, rows, model), Backlog(db, rows[1..], model);
      DistinctTail(rows);
      assert rows[0] in rows && forall r <- rows[1..] :: r in rows;
      if Covered(db, rows[0], model) {
        assert backlog == [] + rest == rest;
        BacklogDrops(db, db', rows[1..], model, k);
      } else {
        assert backlog[0] == rows[0] && backlog[1..] == rest;
        forall i | 0 <= i < |rest| ensures Covered(db', rest[i], model) <==> i + 1 < k { assert rest[i] == backlog[i + 1]; }
        BacklogDrops(db, db', rows[1..], model, if k > 0 then k - 1 else 0);
        if k > 0 { assert backlog[k..] == rest[k - 1..]; } else { assert rest[0..] == rest && backlog[0..] == backlog; }
      }
    }
  }

  lemma BacklogFrom(db: Db, rows: seq<Row>, model: string, k: nat)
    requires k < |rows|
    ensures Backlog(db, rows[k..], model) == (if Covered(db, rows[k], model) then [] else [rows[k]]) + Backlog(db, rows[k + 1..], model)
  {
    hide Covered;
    assert rows[k..][0] == rows[k] && rows[k..][1..] == rows[k + 1..];
  }

  lemma NoBacklog(db: Db, rows: seq<Row>, model: string)
    ensures Backlog(db, rows[|rows|..], model) == []
  {
  }

  lemma DistinctTail(rows: seq<Row>)
    requires |rows| > 0 && DistinctIds(rows)
    ensures DistinctIds(rows[1..])
  {
  }

  /** Each successful request removes the first min(32, size) rows of the backlog and nothing else; a failed one leaves the database alone or stores that same batch. */
  lemma CatchUpShrinksBacklog(db: Db, rows: seq<Row>, model: string, provider: Provider, fault: Fault)
    requires DistinctIds(rows)
    ensures var r := CatchUp(db, rows, model, provider, fault);
            var backlog := Backlog(db, rows, model);
            && (r.outcome.Reconciled? ==> Backlog(r.db, rows, model) == backlog[|FirstBatch(backlog)|..])
            && (r.db == db || Backlog(r.db, rows, model) == backlog[|FirstBatch(backlog)|..])
            && r.db.entries == db.entries && r.db.fingerprint == db.fingerprint
  {
    hide Backlog, Covered, Embed, Texts, DistinctIds, BatchOK;
    var backlog := Backlog(db, rows, model);
    if |backlog| > 0 {
      var batch := FirstBatch(backlog);
      match Embed(provider, Texts(batch))
      case None =>
      case Some(vectors) =>
        if |vectors| == |batch| { StoredBatchDrops(db, rows, model, Zip(batch, vectors), vectors); }
    } else {
      assert backlog[0..] == backlog;
    }
  }

  lemma StoredBatchDrops(db: Db, rows: seq<Row>, model: string, batch: seq<Embedded>, vectors: seq<seq<real>>)
    requires DistinctIds(rows)
    requires var head := FirstBatch(Backlog(db, rows, model)); |vectors| == |head| && batch == Zip(head, vectors)
    ensures var backlog := Backlog(db, rows, model);
            Backlog(db.(vectors := Put(db.vectors, model, batch)), rows, model) == backlog[|FirstBatch(backlog)|..]
  {
    hide Backlog, Put, Covered;
    var backlog := Backlog(db, rows, model);
    var head := FirstBatch(backlog);
    var db' := db.(vectors := Put(db.vectors, model, batch));
    BacklogDistinct(db, rows, model);
    assert forall j, k :: 0 <= j < k < |batch| ==> batch[j].id != batch[k].id by {
      forall j, k | 0 <= j < k < |batch| ensures batch[j].id != batch[k].id { assert backlog[j] == head[j] && backlog[k] == head[k]; }
    }
    forall i | 0 <= i < |backlog| ensures Covered(db', backlog[i], model) <==> i < |head| {
      BacklogMembers(db, rows, model, backlog[i]);
      if i < |head| {
        assert backlog[i] == head[i];
        PutStores(db.vectors, model, batch, i);
        StoredCovers(db', head[i], model, batch[i]);
      } else {
        forall j | 0 <= j < |batch| ensures batch[j].id != backlog[i].id { assert backlog[j] == head[j]; }
        PutFrame(db.vectors, model, batch, VectorKey(backlog[i].id, model));
        CoverFrame(db, db', backlog[i], model);
      }
    }
    forall r <- rows | Covered(db, r, model) ensures Covered(db', r, model) {
      forall j | 0 <= j < |batch| ensures batch[j].id != r.id {
        assert backlog[j] == head[j];
        BacklogMembers(db, rows, model, backlog[j]);
        SameIdSameRow(rows, r, backlog[j]);
      }
      PutFrame(db.vectors, model, batch, VectorKey(r.id, model));
      CoverFrame(db, db', r, model);
    }
    BacklogDrops(db, db', rows, model, |head|);
  }

  lemma StoredCovers(db: Db, row: Row, model: string, v: Embedded)
    requires v.id == row.id && v.contentHash == row.content
    requires var key := VectorKey(v.id, model); key in db.vectors && db.vectors[key] == Vector(v.contentHash, v.values)
    ensures Covered(db, row, model)
  {
  }

  lemma CoverFrame(db: Db, db': Db, row: Row, model: string)
    requires var key := VectorKey(row.id, model); (key in db.vectors <==> key in db'.vectors) && (key in db.vectors ==> db.vectors[key] == db'.vectors[key])
    ensures Covered(db', row, model) == Covered(db, row, model)
  {
  }

  lemma SameIdSameRow(rows: seq<Row>, a: Row, b: Row)
    requires DistinctIds(rows) && a in rows && b in rows
    ensures a.id == b.id ==> a == b
  {
    var i :| 0 <= i < |rows| && rows[i] == a;
    var j :| 0 <= j < |rows| && rows[j] == b;
  }

  /** The text a body is embedded as: its first 8192 characters. */
  ghost predicate EmbeddedAs(text: string, content: string) {
    text <= content && |text| == if |content| <= 8192 then |content| else 8192
  }

  /** The row has this vector of the model, for its current content. */
  ghost predicate HoldsVector(vectors: map<VectorKey, Vector>, row: Row, model: string, values: seq<real>) {
    var key := VectorKey(row.id, model);
    key in vectors && vectors[key] == Vector(row.content, values)
  }

  /**
    A successful request embeds the bodies at the head of the backlog, in order and cut to 8192 characters, and stores for
    each row the vector of its own text under its current content; every other vector stays.
  */
  lemma CatchUpStoresOwnVectors(db: Db, rows: seq<Row>, model: string, provider: Provider, fault: Fault)
    requires DistinctIds(rows) && CatchUp(db, rows, model, provider, fault).outcome == Reconciled(true)
    ensures var batch := FirstBatch(Backlog(db, rows, model));
            var after := CatchUp(db, rows, model, provider, fault).db.vectors;
            exists texts ::
              && |texts| == |batch| && (forall i :: 0 <= i < |batch| ==> EmbeddedAs(texts[i], batch[i].content))
              && provider(texts).Some? && |provider(texts).value| == |batch|
              && (forall i :: 0 <= i < |batch| ==> HoldsVector(after, batch[i], model, provider(texts).value[i]))
    ensures var batch := FirstBatch(Backlog(db, rows, model));
            var after := CatchUp(db, rows, model, provider, fault).db.vectors;
            forall k: VectorKey :: (k.model != model || forall row <- batch :: row.id != k.id) ==>
              (k in after <==> k in db.vectors) && (k in after ==> after[k] == db.vectors[k])
  {
    hide Backlog, Put, DistinctIds, BatchOK, Usable;
    var backlog := Backlog(db, rows, model);
    var batch := FirstBatch(backlog);
    var texts := Texts(batch);
    var vectors := provider(texts).value;
    var stored := Zip(batch, vectors);
    BacklogDistinct(db, rows, model);
    BatchDistinct(backlog);
    forall i | 0 <= i < |batch|
      ensures HoldsVector(Put(db.vectors, model, stored), batch[i], model, vectors[i])
    {
      PutStores(db.vectors, model, stored, i);
    }
    forall k: VectorKey | k.model != model || forall row <- batch :: row.id != k.id
      ensures var after := Put(db.vectors, model, stored); (k in after <==> k in db.vectors) && (k in after ==> after[k] == db.vectors[k])
    {
      forall i | 0 <= i < |stored| ensures VectorKey(stored[i].id, model) != k { assert batch[i] in batch; }
      PutFrame(db.vectors, model, stored, k);
    }
    assert forall i :: 0 <= i < |batch| ==> EmbeddedAs(texts[i], batch[i].content);
  }

  lemma BatchDistinct(backlog: seq<Row>)
    requires DistinctIds(backlog)
    ensures forall j, k :: 0 <= j < k < |FirstBatch(backlog)| ==> FirstBatch(backlog)[j].id != FirstBatch(backlog)[k].id
  {
    forall j, k | 0 <= j < k < |FirstBatch(backlog)| ensures FirstBatch(backlog)[j].id != FirstBatch(backlog)[k].id {
      assert FirstBatch(backlog)[j] == backlog[j] && FirstBatch(backlog)[k] == backlog[k];
    }
  }

  /** A run of requests over an unchanged store. */
  function CatchUps(db: Db, rows: seq<Row>, model: string, providers: seq<Provider>): Db
    decreases |providers|
  {
    if |providers| == 0 then db else CatchUps(CatchUp(db, rows, model, providers[0], Done).db, rows, model, providers[1..])
  }

  predicate AllHaveBodies(rows: seq<Row>) {
    forall row <- rows :: row.content != ""
  }

  predicate BoundedIds(rows: seq<Row>) {
    forall row <- rows :: 0 < |row.id| <= MAX_ID
  }

  /** With a faithful provider and no fault, a request embeds its batch exactly when none of the bodies in it is empty. */
  lemma CatchUpSucceedsIff(db: Db, rows: seq<Row>, model: string, provider: Provider)
    requires Faithful(provider) && BoundedIds(rows)
    ensures CatchUp(db, rows, model, provider, Done).outcome.Reconciled? <==> AllHaveBodies(FirstBatch(Backlog(db, rows, model)))
  {
    hide Backlog, Embed, Texts, Zip, BatchOK, Put, Faithful;
    var backlog := Backlog(db, rows, model);
    var batch := FirstBatch(backlog);
    if !AllHaveBodies(batch) {
      var row :| row in batch && row.content == "";
      var i :| 0 <= i < |batch| && batch[i] == row;
      EmptyBodyBlocksBacklog(db, rows, model, provider, Done, i);
    } else if |backlog| > 0 {
      TextsAreEmbeddable(batch);
      FaithfulAnswers(provider, Texts(batch));
      forall r | r in batch ensures 0 < |r.id| <= MAX_ID { BacklogMembers(db, rows, model, r); assert r in backlog; }
      ZipIsOK(batch, provider(Texts(batch)).value);
    }
  }

  lemma TextsAreEmbeddable(batch: seq<Row>)
    requires 0 < |batch| <= MAX_BATCH_TEXTS && AllHaveBodies(batch)
    ensures Embeddable(Texts(batch)) && |Texts(batch)| == |batch|
  {
    forall t | t in Texts(batch) ensures t != "" {
      var i :| 0 <= i < |batch| && Texts(batch)[i] == t;
      assert batch[i] in batch;
    }
  }

  lemma FaithfulAnswers(provider: Provider, texts: seq<string>)
    requires Faithful(provider) && Embeddable(texts)
    ensures Embed(provider, texts) == provider(texts) && provider(texts).Some? && |provider(texts).value| == |texts| && UsableVectors(provider(texts).value)
  {
  }

  lemma ZipIsOK(batch: seq<Row>, vectors: seq<seq<real>>)
    requires |batch| == |vectors| <= MAX_BATCH_TEXTS && UsableVectors(vectors) && BoundedIds(batch)
    ensures BatchOK(Zip(batch, vectors))
  {
    hide Usable;
    forall v | v in Zip(batch, vectors) ensures v.id != "" && |v.id| <= MAX_ID && Usable(v.values) {
      var i :| 0 <= i < |batch| && Zip(batch, vectors)[i] == v;
      assert batch[i] in batch && vectors[i] in vectors;
    }
  }

  /** With an unchanged store, faithful providers and no fault: k requests empty the backlog exactly when 32 k reaches its size and none of its bodies is empty. */
  lemma {:induction false} BacklogEmptiesIff(db: Db, rows: seq<Row>, model: string, providers: seq<Provider>)
    requires DistinctIds(rows) && BoundedIds(rows) && forall p <- providers :: Faithful(p)
    ensures var backlog := Backlog(db, rows, model);
            Backlog(CatchUps(db, rows, model, providers), rows, model) == [] <==>
            |backlog| <= MAX_EMBEDS * |providers| && AllHaveBodies(backlog)
    decreases |providers|
  {
    hide CatchUp, Backlog, DistinctIds, BoundedIds, Faithful;
    if |providers| > 0 {
      assert providers[0] in providers;
      var backlog := Backlog(db, rows, model);
      var batch := FirstBatch(backlog);
      CatchUpSucceedsIff(db, rows, model, providers[0]);
      CatchUpShrinksBacklog(db, rows, model, providers[0], Done);
      BacklogEmptiesIff(CatchUp(db, rows, model, providers[0], Done).db, rows, model, providers[1..]);
      if AllHaveBodies(batch) {
        assert backlog == batch + backlog[|batch|..];
      } else {
        var row :| row in batch && row.content == "";
        var i :| 0 <= i < |batch| && batch[i] == row;
        EmptyBodyBlocksBacklog(db, rows, model, providers[0], Done, i);
        assert row in backlog;
      }
    }
  }

  /** One entry with an empty body among the next 32 blocks the backlog for good: the batch contract refuses it, whatever the provider. */
  lemma EmptyBodyBlocksBacklog(db: Db, rows: seq<Row>, model: string, provider: Provider, fault: Fault, i: nat)
    requires i < |FirstBatch(Backlog(db, rows, model))| && FirstBatch(Backlog(db, rows, model))[i].content == ""
    ensures CatchUp(db, rows, model, provider, fault) == Reconciliation(db, Failed)
  {
    hide Backlog;
    var texts := Texts(FirstBatch(Backlog(db, rows, model)));
    assert texts[i] == "" && texts[i] in texts;
  }

  // ---- The index itself ----

  class SqliteMemoryIndex {
    var entries: seq<DbRow>
    var vectors: map<VectorKey, Vector>
    var fingerprint: Option<seq<Row>>

    function View(): Db
      reads this
    {
      Db(entries, vectors, fingerprint)
    }

    constructor ()
      ensures View() == EMPTY_DB
    {
      entries, vectors, fingerprint := [], map[], None;
    }

    /** `reconcile`. */
    method Reconcile(snapshot: seq<MemoryEntry>, readable: bool, fault: Fault) returns (outcome: Outcome)
      modifies this
      ensures Reconciliation(View(), outcome) == ReconcileSpec(old(View()), snapshot, readable, fault)
    {
      hide IndexRow, SortRows, ToDb, Ids, DistinctIds;
      NoRows();
      var rows: seq<Row> := [];
      var seen: set<string> := {};
      var duplicate := false;
      for k := 0 to |snapshot|
        invariant View() == old(View())
        invariant IndexRows(snapshot[..k]) == Some(rows)
        invariant seen == Ids(rows)
        invariant duplicate <==> !DistinctIds(rows)
      {
        IndexRowsSnoc(snapshot, k);
        var row := IndexRow(snapshot[k]);
        if row.None? { return Failed; }
        if row.value.id in seen { duplicate := true; }
        DistinctSnoc(rows, row.value);
        seen := seen + {row.value.id};
        rows := rows + [row.value];
      }
      assert snapshot[..|snapshot|] == snapshot;
      if |rows| > MAX_ENTRIES || duplicate || !readable { return Failed; }
      var sorted := SortRows(rows);
      if fingerprint == Some(sorted) { return Reconciled(false); }
      if Applied(fault) {
        entries := StoredRows(sorted);
        vectors := map k | k in vectors && k.id in Ids(rows) :: vectors[k];
        fingerprint := Some(sorted);
      }
      outcome := if fault.Done? then Reconciled(true) else if fault.Raise? then Failed else Died;
    }

    /** `vector_backlog`. */
    method VectorBacklog(rows: seq<Row>, model: string) returns (backlog: seq<Row>)
      ensures backlog == Backlog(View(), rows, model)
    {
      hide Covered, Backlog;
      backlog := [];
      assert rows[0..] == rows;
      for k := 0 to |rows|
        invariant backlog + Backlog(View(), rows[k..], model) == Backlog(View(), rows, model)
      {
        BacklogFrom(View(), rows, model, k);
        if !Covered(View(), rows[k], model) { backlog := backlog + [rows[k]]; }
      }
      NoBacklog(View(), rows, model);
    }

    /** `store_vectors`. */
    method StoreVectorBatch(model: string, batch: seq<Embedded>, fault: Fault) returns (outcome: Outcome)
      modifies this
      ensures Reconciliation(View(), outcome) == StoreVectors(old(View()), model, batch, fault)
    {
      hide BatchOK;
      if !BatchOK(batch) { return Failed; }
      var stored := vectors;
      for k := 0 to |batch|
        invariant View() == old(View())
        invariant Put(stored, model, batch[k..]) == Put(vectors, model, batch)
      {
        assert batch[k..][0] == batch[k] && batch[k..][1..] == batch[k + 1..];
        stored := stored[VectorKey(batch[k].id, model) := Vector(batch[k].contentHash, batch[k].values)];
      }
      assert batch[|batch|..] == [];
      if Applied(fault) { vectors := stored; }
      outcome := if fault.Done? then Reconciled(true) else if fault.Raise? then Failed else Died;
    }

    /** `_semantic_matches` up to the query: one bounded step through the backlog. */
    method CatchUpBacklog(rows: seq<Row>, model: string, provider: Provider, fault: Fault) returns (outcome: Outcome)
      modifies this
      ensures Reconciliation(View(), outcome) == CatchUp(old(View()), rows, model, provider, fault)
    {
      hide Backlog, Embed, StoreVectors;
      var backlog := VectorBacklog(rows, model);
      if |backlog| == 0 { return Reconciled(false); }
      var batch := FirstBatch(backlog);
      var vectors := Embed(provider, Texts(batch));
      if vectors.None? || |vectors.value| != |batch| { return Failed; }
      outcome := StoreVectorBatch(model, Zip(batch, vectors.value), fault);
    }
  }

  lemma {:induction false} IndexRowsSnoc(entries: seq<MemoryEntry>, k: nat)
    requires k < |entries| && IndexRows(entries[..k]).Some?
    ensures IndexRow(entries[k]).Some? ==> IndexRows(entries[..k + 1]) == Some(IndexRows(entries[..k]).value + [IndexRow(entries[k]).value])
    ensures IndexRow(entries[k]).None? ==> IndexRows(entries).None?
    decreases k
  {
    hide IndexRow;
    if k == 0 {
      assert entries[..1][0] == entries[0] && entries[..1][1..] == [] && entries[..0] == [];
      assert IndexRows(entries[..1][1..]) == IndexRows(entries[..0]) == Some([]);
      if IndexRow(entries[0]).Some? { assert [IndexRow(entries[0]).value] + [] == [] + [IndexRow(entries[0]).value]; }
    } else {
      var rest := entries[1..];
      assert entries[..k + 1][1..] == rest[..k] && entries[..k][1..] == rest[..k - 1];
      assert entries[..k + 1][0] == entries[..k][0] == entries[0] && rest[k - 1] == entries[k];
      IndexRowsSnoc(rest, k - 1);
      if IndexRow(entries[k]).Some? {
        ConcatAssoc([IndexRow(entries[0]).value], IndexRows(rest[..k - 1]).value, [IndexRow(entries[k]).value]);
      }
    }
  }

  lemma NoRows()
    ensures Ids([]) == {} && DistinctIds([])
  {
  }

  lemma DistinctSnoc(rows: seq<Row>, row: Row)
    ensures DistinctIds(rows + [row]) <==> DistinctIds(rows) && row.id !in Ids(rows)
    ensures Ids(rows + [row]) == Ids(rows) + {row.id}
  {
    assert Ids(rows + [row]) == Ids(rows) + {row.id} by {
      forall x ensures x in Ids(rows + [row]) <==> x in Ids(rows) || x == row.id {
        assert forall r :: r in rows + [row] <==> r in rows || r == row;
      }
    }
    assert row.id in Ids(rows) <==> exists i :: 0 <= i < |rows| && rows[i].id == row.id;
    var all := rows + [row];
    if DistinctIds(all) {
      forall i, j | 0 <= i < j < |rows| ensures rows[i].id != rows[j].id { assert all[i] == rows[i] && all[j] == rows[j]; }
      forall i | 0 <= i < |rows| ensures rows[i].id != row.id { assert all[i] == rows[i] && all[|rows|] == row; }
    } else if row.id !in Ids(rows) {
      var i, j :| 0 <= i < j < |all| && all[i].id == all[j].id;
      assert rows[i] in rows;
      assert j < |rows|;
    }
  }
}

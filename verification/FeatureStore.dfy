/** The columnar feature store of app/engine/feature_store.py: its writer, its paging reader and the
    streaming rewrite. A file is the sequence of its rows. */
module FeatureStore {
  import opened Wrappers
  import opened Sequences

  const ROW_GROUP_ROWS: nat := 50_000
  const READ_BATCH: nat := 5_000

  datatype Row = Row(id: string, entity: string, window: int, version: string, vector: string)

  /** A published store: the recorded count and the file. */
  datatype Store = Store(count: nat, version: string, file: seq<Row>)

  /** Python's `a or b` on version strings; the empty string stands for None. */
  function Or(a: string, b: string): string { if a != "" then a else b }

  // ---- the writer --------------------------------------------------------------------

  class Writer {
    var file: seq<Row>
    var pending: seq<Row>
    var rows: nat
    var version: string

    /** The count is the number of rows in the file, and a full row group does not wait. */
    ghost predicate Valid()
      reads this
    {
      rows == |file| && |pending| < ROW_GROUP_ROWS
    }

    /** Everything written so far, in order. */
    ghost function Contents(): seq<Row>
      reads this
    {
      file + pending
    }

    constructor ()
      ensures Valid() && Contents() == [] && version == ""
    {
      file, pending, rows, version := [], [], 0, "";
    }

    method Write(more: seq<Row>)
      requires Valid()
      modifies this
      ensures Valid() && Contents() == old(Contents()) + more
      ensures var waiting := old(pending) + more;
        version == if old(version) == "" && |waiting| >= 50_000 then waiting[0].version else old(version)
    {
      pending := pending + more;
      if |pending| >= ROW_GROUP_ROWS {
        Flush();
      }
    }

    method Flush()
      requires rows == |file|
      modifies this
      ensures rows == |file| && pending == [] && file == old(file) + old(pending)
      ensures version == if old(version) == "" && old(pending) != [] then old(pending)[0].version else old(version)
    {
      if pending == [] {
        return;
      }
      var group := pending;
      pending := [];
      version := Or(version, group[0].version);
      file := file + group;
      rows := rows + |group|;
    }

    /** `close_part`: the finished part with its count and version. */
    method ClosePart() returns (part: Store)
      requires Valid()
      modifies this
      ensures Valid() && part.file == old(Contents()) == Contents()
      ensures part.count == |part.file| && part.version == version
    {
      Flush();
      part := Store(rows, version, file);
    }

    /** `append_part` copies the part's rows in order; the count it adds is the caller's, so the count stays
        right exactly when the caller's is. */
    method AppendPart(part: seq<Row>, count: nat, partVersion: string)
      requires Valid()
      modifies this
      ensures Contents() == old(Contents()) + part && pending == []
      ensures rows == |old(Contents())| + count
      ensures Valid() <==> count == |part|
      ensures version ==
        if old(version) != "" then old(version)
        else if old(pending) != [] && old(pending)[0].version != "" then old(pending)[0].version
        else partVersion
    {
      Flush();
      var copied: nat := 0;
      ghost var before, flushed := file, version;
      while copied < |part|
        invariant copied <= |part| && file == before + part[..copied]
        invariant pending == [] && rows == |before| && version == flushed
      {
        var stop := if copied + ROW_GROUP_ROWS < |part| then copied + ROW_GROUP_ROWS else |part|;
        file := file + part[copied..stop];
        assert part[..stop] == part[..copied] + part[copied..stop];
        copied := stop;
      }
      assert part[..copied] == part;
      rows := rows + count;
      version := Or(version, partVersion);
    }

    /** `publish`: the store holds everything written, in order, and records its number. */
    method Publish(fallback: string) returns (store: Store)
      requires Valid()
      modifies this
      ensures store.file == old(Contents()) && store.count == |store.file|
      ensures store.version ==
        if old(version) != "" then old(version)
        else if old(pending) != [] && old(pending)[0].version != "" then old(pending)[0].version
        else fallback
    {
      Flush();
      store := Store(rows, Or(version, fallback), file);
    }
  }

  /** Workers write parts, and one writer collects them: the store is all parts in order. */
  method Collect(parts: seq<seq<Row>>, fallback: string) returns (store: Store)
    ensures store.file == Joined(parts) && store.count == |Joined(parts)|
  {
    var writer := new Writer();
    for k := 0 to |parts|
      invariant fresh(writer) && writer.Valid() && writer.Contents() == Joined(parts[..k])
    {
      var worker := new Writer();
      worker.Write(parts[k]);
      var part := worker.ClosePart();
      assert parts[..k + 1][..k] == parts[..k];
      writer.AppendPart(part.file, part.count, part.version);
    }
    assert parts[..|parts|] == parts;
    store := writer.Publish(fallback);
  }

  function Joined(parts: seq<seq<Row>>): seq<Row> {
    if parts == [] then [] else Joined(parts[..|parts| - 1]) + parts[|parts| - 1]
  }

  // ---- the reader ------------------------------------------------------------------------

  ghost predicate Counted(stores: seq<Store>) {
    forall k | 0 <= k < |stores| :: stores[k].count == |stores[k].file|
  }

  /** All rows: the legacy ones, then file after file. */
  function AllRows(legacy: seq<Row>, stores: seq<Store>): seq<Row> {
    if stores == [] then legacy
    else AllRows(legacy, stores[..|stores| - 1]) + stores[|stores| - 1].file
  }

  /** At most `limit` rows from `offset` on. */
  function Page(rows: seq<Row>, offset: nat, limit: Option<nat>): seq<Row> {
    var from := Least(offset, |rows|);
    match limit
    case None => rows[from..]
    case Some(n) => rows[from..Least(offset + n, |rows|)]
  }

  predicate Full(limit: Option<nat>, produced: nat) { limit.Some? && produced >= limit.value }

  /** What the reader has done after the first `k` of `rows`: the page of these, or, once full, the page of all. */
  ghost predicate Reading(rows: seq<Row>, k: nat, offset: nat, limit: Option<nat>, skipped: nat, out: seq<Row>) {
    && k <= |rows| && skipped == Least(offset, k)
    && out == Page(rows[..k], offset, limit) && !(limit.Some? && |out| > limit.value)
  }

  lemma ReadOne(rows: seq<Row>, k: nat, offset: nat, limit: Option<nat>, skipped: nat, out: seq<Row>)
    requires Reading(rows, k, offset, limit, skipped, out) && k < |rows| && !Full(limit, |out|)
    ensures skipped < offset ==> Reading(rows, k + 1, offset, limit, skipped + 1, out)
    ensures skipped >= offset ==> Reading(rows, k + 1, offset, limit, skipped, out + [rows[k]])
  {}

  /** Once the page is full, the rest of the rows does not change it. */
  lemma PageIsFull(rows: seq<Row>, k: nat, offset: nat, limit: Option<nat>, skipped: nat, out: seq<Row>)
    requires Reading(rows, k, offset, limit, skipped, out) && Full(limit, |out|)
    ensures out == Page(rows, offset, limit)
  {}

  lemma SkipFile(rows: seq<Row>, k: nat, offset: nat, limit: Option<nat>, skipped: nat, out: seq<Row>, count: nat)
    requires Reading(rows, k, offset, limit, skipped, out) && k + count <= |rows| && offset - skipped >= count
    ensures Reading(rows, k + count, offset, limit, skipped + count, out)
  {}

  /** The rows of one source, one by one, until the page is full. */
  method ReadRows(ghost rows: seq<Row>, ghost k: nat, source: seq<Row>, offset: nat, limit: Option<nat>,
                  skipped0: nat, out0: seq<Row>)
    returns (skipped: nat, out: seq<Row>, full: bool)
    requires k + |source| <= |rows| && rows[k..k + |source|] == source
    requires Reading(rows, k, offset, limit, skipped0, out0)
    ensures full ==> out == Page(rows, offset, limit)
    ensures !full ==> Reading(rows, k + |source|, offset, limit, skipped, out)
  {
    hide Reading, Page;
    skipped, out, full := skipped0, out0, false;
    for i := 0 to |source|
      invariant Reading(rows, k + i, offset, limit, skipped, out)
    {
      assert source[i] == rows[k + i];
      if Full(limit, |out|) {
        PageIsFull(rows, k + i, offset, limit, skipped, out);
        full := true;
        return;
      }
      ReadOne(rows, k + i, offset, limit, skipped, out);
      if skipped < offset {
        skipped := skipped + 1;
      } else {
        out := out + [source[i]];
      }
    }
  }

  /** `iter_feature_rows`, with its whole-file skip: exactly the page of all rows. */
  method IterRows(legacy: seq<Row>, stores: seq<Store>, offset: nat, limit: Option<nat>) returns (out: seq<Row>)
    requires Counted(stores)
    ensures out == Page(AllRows(legacy, stores), offset, limit)
  {
    hide Reading, Page, AllRows;
    ghost var rows := AllRows(legacy, stores);
    Prefix(legacy, stores, 0);
    NothingRead(rows, offset, limit);
    var skipped: nat, full: bool;
    skipped, out, full := ReadRows(rows, 0, legacy, offset, limit, 0, []);
    if full {
      return;
    }
    for s := 0 to |stores|
      invariant |AllRows(legacy, stores[..s])| <= |rows|
      invariant Reading(rows, |AllRows(legacy, stores[..s])|, offset, limit, skipped, out)
    {
      ghost var k := |AllRows(legacy, stores[..s])|;
      FileAt(legacy, stores, s);
      var store := stores[s];
      if offset - skipped >= store.count {
        SkipFile(rows, k, offset, limit, skipped, out, store.count);
        skipped := skipped + store.count;
        continue;
      }
      skipped, out, full := ReadFile(rows, k, store.file, offset, limit, skipped, out);
      if full {
        return;
      }
    }
    assert stores[..|stores|] == stores && rows[..|rows|] == rows;
    Finished(rows, offset, limit, skipped, out);
  }

  lemma NothingRead(rows: seq<Row>, offset: nat, limit: Option<nat>)
    ensures Reading(rows, 0, offset, limit, 0, [])
  {}

  lemma Finished(rows: seq<Row>, offset: nat, limit: Option<nat>, skipped: nat, out: seq<Row>)
    requires Reading(rows, |rows|, offset, limit, skipped, out)
    ensures out == Page(rows, offset, limit)
  {
    assert rows[..|rows|] == rows;
  }

  lemma SameSlice(rows: seq<Row>, k: nat, file: seq<Row>, start: nat, stop: nat)
    requires k + |file| <= |rows| && rows[k..k + |file|] == file && start <= stop <= |file|
    ensures rows[k + start..k + start + |file[start..stop]|] == file[start..stop]
  {
    var slice := rows[k + start..k + stop];
    forall i | 0 <= i < |slice| ensures slice[i] == file[start..stop][i] {
      assert rows[k..k + |file|][start + i] == file[start + i];
    }
    assert |file[start..stop]| == stop - start;
  }

  /** A file, batch by batch. */
  method ReadFile(ghost rows: seq<Row>, ghost k: nat, file: seq<Row>, offset: nat, limit: Option<nat>,
                  skipped0: nat, out0: seq<Row>)
    returns (skipped: nat, out: seq<Row>, full: bool)
    requires k + |file| <= |rows| && rows[k..k + |file|] == file
    requires Reading(rows, k, offset, limit, skipped0, out0)
    ensures full ==> out == Page(rows, offset, limit)
    ensures !full ==> Reading(rows, k + |file|, offset, limit, skipped, out)
  {
    hide Reading, Page;
    skipped, out, full := skipped0, out0, false;
    var start: nat := 0;
    while start < |file|
      invariant start <= |file| && !full && Reading(rows, k + start, offset, limit, skipped, out)
    {
      var stop := Least(start + READ_BATCH, |file|);
      SameSlice(rows, k, file, start, stop);
      skipped, out, full := ReadRows(rows, k + start, file[start..stop], offset, limit, skipped, out);
      if full {
        return;
      }
      start := stop;
    }
  }

  /** The rows up to store `s` are a prefix of all rows, and the last file is its end. */
  lemma {:induction false} Prefix(legacy: seq<Row>, stores: seq<Store>, s: nat)
    requires s <= |stores|
    ensures AllRows(legacy, stores[..s]) <= AllRows(legacy, stores)
    ensures s == 0 ==> AllRows(legacy, stores[..s]) == legacy
    decreases |stores|
  {
    if s == |stores| {
      assert stores[..s] == stores;
    } else {
      var front := stores[..|stores| - 1];
      Prefix(legacy, front, s);
      assert front[..s] == stores[..s];
    }
  }

  /** Where a file lies among all rows. */
  lemma FileAt(legacy: seq<Row>, stores: seq<Store>, s: nat)
    requires s < |stores|
    ensures var rows, k, file := AllRows(legacy, stores), |AllRows(legacy, stores[..s])|, stores[s].file;
      && |AllRows(legacy, stores[..s + 1])| == k + |file| <= |rows| && rows[k..k + |file|] == file
  {
    Prefix(legacy, stores, s + 1);
    assert stores[..s + 1][..s] == stores[..s] && stores[..s + 1][s] == stores[s];
    var front := AllRows(legacy, stores[..s]);
    var more := AllRows(legacy, stores[..s + 1]);
    assert more == front + stores[s].file;
    var rows := AllRows(legacy, stores);
    forall i | 0 <= i < |stores[s].file| ensures rows[|front| + i] == stores[s].file[i] {
      assert rows[|front| + i] == more[|front| + i];
    }
  }

  // ---- pages ---------------------------------------------------------------------------------

  /** The first `n` pages of `size` rows, one after the other. */
  function Pages(rows: seq<Row>, size: nat, n: nat): seq<Row> {
    if n == 0 then [] else Pages(rows, size, n - 1) + Page(rows, (n - 1) * size, Some(size))
  }

  lemma {:induction false} PagesArePrefix(rows: seq<Row>, size: nat, n: nat)
    ensures Pages(rows, size, n) == rows[..Least(n * size, |rows|)]
  {
    if n > 0 {
      PagesArePrefix(rows, size, n - 1);
      assert n * size == (n - 1) * size + size;
    }
  }

  /** `feature_count`. */
  method FeatureCount(legacy: seq<Row>, stores: seq<Store>) returns (count: nat)
    requires Counted(stores)
    ensures count == |AllRows(legacy, stores)|
  {
    count := |legacy|;
    for s := 0 to |stores|
      invariant count == |AllRows(legacy, stores[..s])|
    {
      assert stores[..s + 1][..s] == stores[..s];
      count := count + stores[s].count;
    }
    assert stores[..|stores|] == stores;
  }

  /** Asked for page after page until `feature_count` is reached, the reader yields every row once, in order. */
  lemma PagesReassemble(legacy: seq<Row>, stores: seq<Store>, size: nat, n: nat)
    requires n * size >= |AllRows(legacy, stores)|
    ensures Pages(AllRows(legacy, stores), size, n) == AllRows(legacy, stores)
  {
    PagesArePrefix(AllRows(legacy, stores), size, n);
  }

  // ---- the rewrite ------------------------------------------------------------------------------

  /** What the caller's transform makes of a row: an exception, no change, or a new vector. */
  type Transform = (string, int, string) -> Result<Option<string>, string>

  function Rewritten(row: Row, entities: set<string>, transform: Transform): Result<Row, string> {
    if row.entity !in entities then Ok(row)
    else
      match transform(row.entity, row.window, row.vector)
      case Err(e) => Err(e)
      case Ok(None) => Ok(row)
      case Ok(Some(vector)) => Ok(row.(vector := vector))
  }

  predicate Changes(row: Row, entities: set<string>, transform: Transform) {
    row.entity in entities && var t := transform(row.entity, row.window, row.vector); t.Ok? && t.value.Some?
  }

  function Changed(rows: seq<Row>, entities: set<string>, transform: Transform): nat {
    if rows == [] then 0
    else
      var front, last := rows[..|rows| - 1], rows[|rows| - 1];
      Changed(front, entities, transform) + if Changes(last, entities, transform) then 1 else 0
  }

  /** `after` holds the rewritten rows of `before`, row by row. */
  ghost predicate RowByRow(before: seq<Row>, after: seq<Row>, entities: set<string>, transform: Transform) {
    |after| == |before| && forall i | 0 <= i < |before| :: Rewritten(before[i], entities, transform) == Ok(after[i])
  }

  /** The rows the transform changes. */
  ghost function ChangedRows(rows: seq<Row>, entities: set<string>, transform: Transform): set<nat> {
    set i: nat | i < |rows| && Changes(rows[i], entities, transform)
  }

  lemma {:induction false} ChangedIsSize(rows: seq<Row>, entities: set<string>, transform: Transform)
    ensures Changed(rows, entities, transform) == |ChangedRows(rows, entities, transform)|
  {
    if rows != [] {
      var n := |rows| - 1;
      ChangedIsSize(rows[..n], entities, transform);
      var less := ChangedRows(rows[..n], entities, transform);
      assert ChangedRows(rows, entities, transform) ==
             less + if Changes(rows[n], entities, transform) then {n} else {};
    }
  }

  /** What becomes of one row. */
  ghost predicate RowRewritten(before: Row, after: Row, entities: set<string>, transform: Transform) {
    if before.entity !in entities then after == before
    else
      var t := transform(before.entity, before.window, before.vector);
      t.Ok? && after == if t.value.Some? then before.(vector := t.value.value) else before
  }

  /** Row `i` is the first the transform fails on, with `e`. */
  ghost predicate FailsFirst(rows: seq<Row>, entities: set<string>, transform: Transform, i: nat, e: string) {
    && i < |rows| && Rewritten(rows[i], entities, transform) == Err(e)
    && forall j | 0 <= j < i :: Rewritten(rows[j], entities, transform).Ok?
  }

  /** One batch: its vectors are edited in place. */
  method RewriteBatch(batch: seq<Row>, entities: set<string>, transform: Transform)
    returns (r: Result<(seq<Row>, nat), string>)
    ensures r.Ok? <==> forall i | 0 <= i < |batch| :: Rewritten(batch[i], entities, transform).Ok?
    ensures r.Err? ==> exists i: nat :: FailsFirst(batch, entities, transform, i, r.error)
    ensures r.Ok? ==> RowByRow(batch, r.value.0, entities, transform)
    ensures r.Ok? ==> r.value.1 == Changed(batch, entities, transform)
  {
    var n := |batch|;
    var vectors := new string[n](i requires 0 <= i < n => batch[i].vector);
    var changed: nat := 0;
    for i := 0 to n
      invariant forall j | 0 <= j < i :: Rewritten(batch[j], entities, transform) == Ok(batch[j].(vector := vectors[j]))
      invariant forall j | i <= j < n :: vectors[j] == batch[j].vector
      invariant changed == Changed(batch[..i], entities, transform)
    {
      assert batch[..i + 1][..i] == batch[..i];
      if batch[i].entity in entities {
        var updated := transform(batch[i].entity, batch[i].window, vectors[i]);
        if updated.Err? {
          assert FailsFirst(batch, entities, transform, i, updated.error);
          return Err(updated.error);
        }
        if updated.value.Some? {
          vectors[i] := updated.value.value;
          changed := changed + 1;
        }
      }
    }
    assert batch[..n] == batch;
    ghost var edited := vectors[..];
    r := Ok((seq(n, i requires 0 <= i < n reads vectors => batch[i].(vector := vectors[i])), changed));
  }

  /** A batch without any of the entities is copied as it is. */
  method RewriteOrCopy(batch: seq<Row>, entities: set<string>, transform: Transform)
    returns (r: Result<(seq<Row>, nat), string>)
    ensures r.Ok? <==> forall i | 0 <= i < |batch| :: Rewritten(batch[i], entities, transform).Ok?
    ensures r.Err? ==> exists i: nat :: FailsFirst(batch, entities, transform, i, r.error)
    ensures r.Ok? ==> RowByRow(batch, r.value.0, entities, transform)
    ensures r.Ok? ==> r.value.1 == Changed(batch, entities, transform)
  {
    if exists i :: 0 <= i < |batch| && batch[i].entity in entities {
      r := RewriteBatch(batch, entities, transform);
    } else {
      NothingChanges(batch, entities, transform);
      r := Ok((batch, 0));
    }
  }

  /** `rewrite_vectors`: an exception leaves the store as it was; otherwise the new file has the same rows in
      the same places, except the vectors the transform changed, and the number of these is returned. */
  method RewriteVectors(store: Store, entities: set<string>, transform: Transform)
    returns (after: Store, r: Result<nat, string>)
    ensures r.Ok? <==> forall i | 0 <= i < |store.file| :: Rewritten(store.file[i], entities, transform).Ok?
    ensures r.Err? ==> after == store && exists i: nat :: FailsFirst(store.file, entities, transform, i, r.error)
    ensures r.Ok? ==> after == store.(file := after.file) && RowByRow(store.file, after.file, entities, transform)
    ensures r.Ok? ==> forall i | 0 <= i < |store.file| ::
      RowRewritten(store.file[i], after.file[i], entities, transform)
    ensures r.Ok? ==> r.value == |ChangedRows(store.file, entities, transform)|
  {
    ChangedIsSize(store.file, entities, transform);
    after := store;
    if entities == {} {
      NothingChanges(store.file, entities, transform);
      return store, Ok(0);
    }
    var file: seq<Row>, changed: nat, start: nat := [], 0, 0;
    while start < |store.file|
      invariant start <= |store.file| && after == store
      invariant RowByRow(store.file[..start], file, entities, transform)
      invariant changed == Changed(store.file[..start], entities, transform)
    {
      var stop := Least(start + ROW_GROUP_ROWS, |store.file|);
      var batch := store.file[start..stop];
      var edited := RewriteOrCopy(batch, entities, transform);
      if edited.Err? {
        assert forall i | 0 <= i < |batch| :: batch[i] == store.file[start + i];
        ghost var i: nat :| FailsFirst(batch, entities, transform, i, edited.error);
        FailsInBatch(store.file, start, stop, entities, transform, i, edited.error, file);
        return store, Err(edited.error);
      }
      assert store.file[..stop] == store.file[..start] + batch;
      ChangedJoin(store.file[..start], batch, entities, transform);
      file, changed, start := file + edited.value.0, changed + edited.value.1, stop;
    }
    assert store.file[..start] == store.file;
    after, r := store.(file := file), Ok(changed);
  }

  lemma FailsInBatch(rows: seq<Row>, start: nat, stop: nat, entities: set<string>, transform: Transform, i: nat,
                     e: string, done: seq<Row>)
    requires start <= stop <= |rows| && FailsFirst(rows[start..stop], entities, transform, i, e)
    requires RowByRow(rows[..start], done, entities, transform)
    ensures FailsFirst(rows, entities, transform, start + i, e)
  {
    forall j | 0 <= j < start + i ensures Rewritten(rows[j], entities, transform).Ok? {
      if j < start {
        assert rows[..start][j] == rows[j];
      } else {
        assert rows[start..stop][j - start] == rows[j];
      }
    }
  }

  lemma {:induction false} NothingChanges(rows: seq<Row>, entities: set<string>, transform: Transform)
    requires forall i | 0 <= i < |rows| :: rows[i].entity !in entities
    ensures Changed(rows, entities, transform) == 0 && RowByRow(rows, rows, entities, transform)
  {
    if rows != [] {
      NothingChanges(rows[..|rows| - 1], entities, transform);
    }
  }

  lemma {:induction false} ChangedJoin(s: seq<Row>, t: seq<Row>, entities: set<string>, transform: Transform)
    ensures Changed(s + t, entities, transform) == Changed(s, entities, transform) + Changed(t, entities, transform)
  {
    if t == [] {
      assert s + t == s;
    } else {
      ChangedJoin(s, t[..|t| - 1], entities, transform);
      assert (s + t)[..|s + t| - 1] == s + t[..|t| - 1];
    }
  }

  function Ids(rows: seq<Row>): seq<(string, string, int)> {
    seq(|rows|, i requires 0 <= i < |rows| => (rows[i].id, rows[i].entity, rows[i].window))
  }

  /** A rewrite of one store leaves every page with the same rows in the same order, up to their vectors. */
  lemma RewriteKeepsPages(legacy: seq<Row>, stores: seq<Store>, s: nat, after: Store, entities: set<string>,
                          transform: Transform, offset: nat, limit: Option<nat>)
    requires s < |stores| && RowByRow(stores[s].file, after.file, entities, transform)
    ensures var before, rows := AllRows(legacy, stores), AllRows(legacy, stores[s := after]);
      Ids(Page(rows, offset, limit)) == Ids(Page(before, offset, limit))
  {
    RewriteKeepsRows(legacy, stores, s, after, entities, transform);
    var before, rows := AllRows(legacy, stores), AllRows(legacy, stores[s := after]);
    assert |Ids(before)| == |before| && |Ids(rows)| == |rows|;
    var from := Least(offset, |rows|);
    forall i | 0 <= i < |Page(rows, offset, limit)|
      ensures Ids(Page(rows, offset, limit))[i] == Ids(Page(before, offset, limit))[i]
    {
      assert Ids(before)[from + i] == Ids(rows)[from + i];
      assert Page(rows, offset, limit)[i] == rows[from + i] && Page(before, offset, limit)[i] == before[from + i];
    }
  }

  lemma {:induction false} RewriteKeepsRows(legacy: seq<Row>, stores: seq<Store>, s: nat, after: Store,
                                            entities: set<string>, transform: Transform)
    requires s < |stores| && RowByRow(stores[s].file, after.file, entities, transform)
    ensures Ids(AllRows(legacy, stores[s := after])) == Ids(AllRows(legacy, stores))
    decreases |stores|
  {
    var n := |stores| - 1;
    var changed := stores[s := after];
    if s < n {
      assert changed[..n] == stores[..n][s := after];
      RewriteKeepsRows(legacy, stores[..n], s, after, entities, transform);
      IdsJoin(AllRows(legacy, changed[..n]), stores[n].file);
    } else {
      assert changed[..n] == stores[..n];
      assert Ids(after.file) == Ids(stores[s].file);
      IdsJoin(AllRows(legacy, stores[..n]), after.file);
    }
    IdsJoin(AllRows(legacy, stores[..n]), stores[n].file);
  }

  lemma IdsJoin(s: seq<Row>, t: seq<Row>)
    ensures Ids(s + t) == Ids(s) + Ids(t)
  {}
}

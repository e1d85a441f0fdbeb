/**
 * The data side of `_static.parseCRUDresultList`: a LIST reply holds, per table, a
 * `columns` array and `records` (arrays of cells aligned with the columns). Each record
 * is zipped into a row object and stored under the text of its primary-key value; the
 * column list without the primary key is what the model caches.
 */
module ListResult {
  import opened Wrappers
  import opened JsValues
  import opened Strings

  /**
   * `mResponse[sTableName]`: an object with `records` and `columns`, each `None` when the
   * key is absent, or a value that is not an object (`null`, a number, a text).
   */
  datatype Listing = Listing(records: Option<seq<seq<Value>>>, columns: Option<seq<string>>) | ScalarListing

  /**
   * The reply: a value whose `typeof` is not `"object"`, `null` (whose `typeof` is
   * `"object"`), or an object with one listing per table.
   */
  datatype ListResponse = NotAnObject | NullReply | Response(tables: map<string, Listing>)

  /**
   * The guard of `parseCRUDresultList` throws: `sTableName in null`, or `'records' in`
   * a listing that is not an object.
   */
  predicate GuardThrows(response: ListResponse, t: string) {
    response.NullReply? || (response.Response? && t in response.tables && response.tables[t].ScalarListing?)
  }

  /** The guard of `parseCRUDresultList` holds: an object holding the table with both keys. */
  predicate Usable(response: ListResponse, t: string) {
    response.Response? && t in response.tables && response.tables[t].Listing?
    && response.tables[t].records.Some? && response.tables[t].columns.Some?
  }

  /** `mColums[iR]` as an object key: past the end of the columns it reads `undefined`. */
  function ColumnName(cols: seq<string>, k: nat): string {
    if k < |cols| then cols[k] else "undefined"
  }

  /** The inner loop: cell `k` of a record is stored under column name `k`, in order. */
  function ZipRecord(cols: seq<string>, rec: seq<Value>): Row
    decreases |rec|
  {
    if |rec| == 0 then map[]
    else ZipRecord(cols, rec[..|rec| - 1])[ColumnName(cols, |rec| - 1) := rec[|rec| - 1]]
  }

  /** `mData[mNewData[pk]]`: the key text of the row's primary key, `undefined` when absent. */
  function RecordKey(row: Row, pk: string): string {
    if pk in row then KeyOf(row[pk]) else "undefined"
  }

  /** The outer loop: every record zipped and stored under its key; a later record wins. */
  function RowsByKey(cols: seq<string>, records: seq<seq<Value>>, pk: string): map<string, map<string, Value>>
    decreases |records|
  {
    if |records| == 0 then map[]
    else
      var row := ZipRecord(cols, records[|records| - 1]);
      RowsByKey(cols, records[..|records| - 1], pk)[RecordKey(row, pk) := row]
  }

  /** The column list the model caches: the reply's columns without the primary key, in order. */
  function CacheColumns(cols: seq<string>, pk: string): (r: seq<string>)
    ensures pk !in r
    ensures forall c :: c in r <==> c in cols && c != pk
    ensures |r| <= |cols|
  {
    if |cols| == 0 then []
    else if cols[0] == pk then CacheColumns(cols[1..], pk)
    else [cols[0]] + CacheColumns(cols[1..], pk)
  }

  /** Caching a cached column list changes nothing. */
  lemma {:induction false} CacheColumnsIdempotent(cols: seq<string>, pk: string)
    ensures CacheColumns(CacheColumns(cols, pk), pk) == CacheColumns(cols, pk)
    decreases |cols|
  {
    if |cols| > 0 {
      CacheColumnsIdempotent(cols[1..], pk);
      if cols[0] != pk {
        assert ([cols[0]] + CacheColumns(cols[1..], pk))[1..] == CacheColumns(cols[1..], pk);
      }
    }
  }

  /**
   * With distinct column names and no more cells than columns, a row has exactly the
   * first `|rec|` column names as its keys, and column `k` holds cell `k`.
   */
  lemma {:induction false} ZipFields(cols: seq<string>, rec: seq<Value>)
    requires Distinct(cols) && |rec| <= |cols|
    ensures forall c :: c in ZipRecord(cols, rec) <==> c in cols[..|rec|]
    ensures forall k :: 0 <= k < |rec| ==> ZipRecord(cols, rec)[cols[k]] == rec[k]
    decreases |rec|
  {
    if |rec| > 0 {
      var n := |rec| - 1;
      ZipFields(cols, rec[..n]);
      assert cols[..|rec|] == cols[..n] + [cols[n]];
      forall k | 0 <= k < |rec| ensures ZipRecord(cols, rec)[cols[k]] == rec[k] {
        if k < n {
          assert cols[k] != cols[n];
          assert rec[..n][k] == rec[k];
        }
      }
    }
  }

  /** Cells past the last column all land under `undefined`; the last of them stays. */
  lemma ZipSurplusCell(cols: seq<string>, rec: seq<Value>)
    requires |rec| > |cols|
    ensures "undefined" in ZipRecord(cols, rec)
    ensures ZipRecord(cols, rec)["undefined"] == rec[|rec| - 1]
  {
  }

  /** The keys of the records, as a set. */
  function RecordKeys(cols: seq<string>, records: seq<seq<Value>>, pk: string): set<string> {
    set k | 0 <= k < |records| :: RecordKey(ZipRecord(cols, records[k]), pk)
  }

  /** The keys of the result are exactly the keys of the records. */
  lemma {:induction false} RowsKeys(cols: seq<string>, records: seq<seq<Value>>, pk: string)
    ensures RowsByKey(cols, records, pk).Keys == RecordKeys(cols, records, pk)
    decreases |records|
  {
    if |records| > 0 {
      var n := |records| - 1;
      RowsKeys(cols, records[..n], pk);
      RecordKeysSnoc(cols, records, pk);
    }
  }

  lemma RecordKeysSnoc(cols: seq<string>, records: seq<seq<Value>>, pk: string)
    requires |records| > 0
    ensures RecordKeys(cols, records, pk)
      == RecordKeys(cols, records[..|records| - 1], pk) + {RecordKey(ZipRecord(cols, records[|records| - 1]), pk)}
  {
    var n := |records| - 1;
    var before := RecordKeys(cols, records[..n], pk);
    var last := RecordKey(ZipRecord(cols, records[n]), pk);
    forall key | key in RecordKeys(cols, records, pk) ensures key in before + {last} {
      var k :| 0 <= k < |records| && key == RecordKey(ZipRecord(cols, records[k]), pk);
      if k < n {
        assert records[..n][k] == records[k];
      }
    }
    forall key | key in before ensures key in RecordKeys(cols, records, pk) {
      var k :| 0 <= k < n && key == RecordKey(ZipRecord(cols, records[..n][k]), pk);
      assert records[..n][k] == records[k];
    }
  }

  /** A record is stored under its key unless a later record has the same key. */
  lemma {:induction false} LastRecordWins(cols: seq<string>, records: seq<seq<Value>>, pk: string, k: nat)
    requires k < |records|
    requires forall j :: k < j < |records| ==>
      RecordKey(ZipRecord(cols, records[j]), pk) != RecordKey(ZipRecord(cols, records[k]), pk)
    ensures var key := RecordKey(ZipRecord(cols, records[k]), pk);
      key in RowsByKey(cols, records, pk) && RowsByKey(cols, records, pk)[key] == ZipRecord(cols, records[k])
    decreases |records|
  {
    var n := |records| - 1;
    if k < n {
      forall j | k < j < |records[..n]| ensures records[..n][j] == records[j] { }
      assert records[..n][k] == records[k];
      LastRecordWins(cols, records[..n], pk, k);
    }
  }

  /** Caching the columns of two pieces is caching each piece: the loop may go column by column. */
  lemma {:induction false} CacheColumnsAppend(a: seq<string>, b: seq<string>, pk: string)
    ensures CacheColumns(a + b, pk) == CacheColumns(a, pk) + CacheColumns(b, pk)
    decreases |a|
  {
    if |a| > 0 {
      assert (a + b)[1..] == a[1..] + b;
      CacheColumnsAppend(a[1..], b, pk);
    } else {
      assert a + b == b;
    }
  }

  /**
   * What `parseCRUDresultList` leaves behind: the column cache (`None` while it is
   * `null` or `undefined`), the rows it returns, and whether it threw.
   */
  datatype ListParse = ListParse(columns: Option<map<string, seq<string>>>, rows: map<string, Row>, thrown: bool)

  /**
   * `_static.parseCRUDresultList`: a `null` reply or a listing that is not an object
   * throws in the guard; any other unusable reply gives `{}`; otherwise the table's
   * column list is cached unless one is cached already, and the rows are returned keyed
   * by primary key. Testing the cache while it is `null` or `undefined` throws.
   */
  function ParseResultList(columns: Option<map<string, seq<string>>>, t: string, response: ListResponse, pk: string): ListParse {
    if GuardThrows(response, t) then ListParse(columns, map[], true)
    else if !Usable(response, t) then ListParse(columns, map[], false)
    else if columns.None? then ListParse(columns, map[], true)
    else
      var listing := response.tables[t];
      var cols := listing.columns.value;
      var cache := if t in columns.value then columns else Some(columns.value[t := CacheColumns(cols, pk)]);
      ListParse(cache, RowsByKey(cols, listing.records.value, pk), false)
  }

  /**
   * The column list is cached once: the first usable reply for a table stores its
   * columns without the primary key, and a later reply for that table, whatever its
   * columns, leaves the cache as it is and throws only when its guard does.
   */
  lemma ColumnsCachedOnce(columns: map<string, seq<string>>, t: string, first: ListResponse, later: ListResponse, pk: string)
    requires t !in columns && Usable(first, t)
    ensures var r1 := ParseResultList(Some(columns), t, first, pk);
      var r2 := ParseResultList(r1.columns, t, later, pk);
      r1.columns.Some? && t in r1.columns.value && pk !in r1.columns.value[t]
      && (forall c :: c in r1.columns.value[t] <==> c in first.tables[t].columns.value && c != pk)
      && r1.columns.value - {t} == columns
      && (r2.thrown <==> GuardThrows(later, t)) && r2.columns == r1.columns
  {
    var r1 := ParseResultList(Some(columns), t, first, pk);
    assert r1.columns.value - {t} == columns;
  }
}

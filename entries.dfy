/**
 * The two operations that write the model data as well as the ledger: `createEntry`,
 * which records a POST and stores the new row locally under its temporary id, and the
 * batch branch of `remove`, which records a DELETE and drops the row locally. These
 * functions are the specification the methods of `CrudModel` are proved against.
 */
module Entries {
  import opened Wrappers
  import opened JsValues
  import opened PathParser
  import opened Metadata
  import opened Batch
  import opened Reconcile

  /** The ledger and model data after a call, what it returned, and whether it threw. */
  datatype Effect<R> = Effect(ledger: Ledger, store: Store, result: R, thrown: bool)

  /**
   * The value `createEntry` writes into the primary key: the temporary id, or `false`
   * when the POST was refused (the only two results a POST has).
   */
  function IdValue(res: BatchResult): Value {
    match res
    case TempId(n) => Num(n)
    case _ => Bool(false)
  }

  /** A POST returns its temporary id, or `false` when it is refused. */
  lemma PostResults(l: Ledger, path: string, d: Option<Row>, now: nat, pk: string)
    ensures var res := BatchOp(l, path, "POST", d, now, pk).1;
      res == TempId(now) || res == False
  {
  }

  /**
   * `createEntry(sPath, oData)`: without a table it returns `null` (`None`); the payload
   * is shaped by the cached columns (testing a `null` cache throws), recorded as a POST,
   * given the returned id as its primary key and stored under that id when the table is
   * loaded locally.
   */
  function CreateEntryOp(l: Ledger, store: Store, columns: Option<map<string, seq<string>>>, path: string,
                         data: Option<Row>, now: nat, pk: string): Effect<Option<BatchResult>>
  {
    var t := ParsePath(path).table;
    if t == "" then Effect(l, store, None, false)
    else if columns.None? then Effect(l, store, None, true)
    else
      var d := GenerateCreateByMetadata(columns.value, t, data);
      var (l', res) := BatchOp(l, path, "POST", Some(d), now, pk);
      var id := IdValue(res);
      var store' := if t in store then store[t := store[t][KeyOf(id) := d[pk := id]]] else store;
      Effect(l', store', Some(res), false)
  }

  /**
   * A created entry with a payload: the POST entry and the local row are the same
   * shaped payload with the temporary id as primary key, both under the temporary id,
   * and nothing else in the model data changes.
   */
  lemma CreateEntryPending(l: Ledger, store: Store, columns: map<string, seq<string>>, path: string,
                           data: Option<Row>, now: nat, pk: string)
    requires ParsePath(path).table != ""
    requires GenerateCreateByMetadata(columns, ParsePath(path).table, data) != map[]
    ensures var t := ParsePath(path).table;
      var row := GenerateCreateByMetadata(columns, t, data)[pk := Num(now)];
      var e := CreateEntryOp(l, store, Some(columns), path, data, now, pk);
      !e.thrown && e.result == Some(TempId(now))
      && Entry(e.ledger.post, t, TempKey(now)) == Some(row)
      && (t in store ==> t in e.store && e.store[t] == store[t][TempKey(now) := row])
      && (t !in store ==> e.store == store)
      && e.store - {t} == store - {t}
  {
    var t := ParsePath(path).table;
    PostStores(l, path, t, GenerateCreateByMetadata(columns, t, data), now, pk);
  }

  /**
   * With a non-empty column list cached for the table, the pending entry has exactly
   * those columns and the primary key, whatever the caller passed.
   */
  lemma CreateEntryShaped(l: Ledger, store: Store, columns: map<string, seq<string>>, path: string,
                          data: Option<Row>, now: nat, pk: string)
    requires ParsePath(path).table != ""
    requires ParsePath(path).table in columns && |columns[ParsePath(path).table]| > 0
    ensures var t := ParsePath(path).table;
      var e := CreateEntryOp(l, store, Some(columns), path, data, now, pk);
      Entry(e.ledger.post, t, TempKey(now)).Some?
      && forall c :: c in Entry(e.ledger.post, t, TempKey(now)).value <==> c in columns[t] || c == pk
  {
    var t := ParsePath(path).table;
    var d := GenerateCreateByMetadata(columns, t, data);
    assert columns[t][0] in d;
    assert d != map[];
    CreateEntryPending(l, store, columns, path, data, now, pk);
  }

  /**
   * Without a cached column list for the table and without a payload, the POST is
   * refused, yet a row holding only `pk: false` is stored locally under `false`.
   */
  lemma CreateEntryEmptyPayload(l: Ledger, store: Store, columns: map<string, seq<string>>, path: string, now: nat, pk: string)
    requires ParsePath(path).table != "" && ParsePath(path).table !in columns
    ensures var t := ParsePath(path).table;
      var e := CreateEntryOp(l, store, Some(columns), path, None, now, pk);
      e.result == Some(False) && e.ledger == l
      && (t in store ==> e.store == store[t := store[t]["false" := map[pk := Bool(false)]]])
  {
  }

  /** `createEntry` without a table, or with a `null` column cache, changes nothing. */
  lemma CreateEntryNoChange(l: Ledger, store: Store, columns: Option<map<string, seq<string>>>, path: string,
                            data: Option<Row>, now: nat, pk: string)
    requires ParsePath(path).table == "" || columns.None?
    ensures var e := CreateEntryOp(l, store, columns, path, data, now, pk);
      e.ledger == l && e.store == store && e.result == None
      && (e.thrown <==> ParsePath(path).table != "")
  {
  }

  /**
   * The batch branch of `remove(sPath)`: a DELETE of the parsed `Path` is recorded, then
   * the row is dropped from the table's local data when it is there. A table that is not
   * loaded throws once the DELETE is recorded. An empty table name reads the whole model
   * data, so the id then names a table, which is dropped.
   */
  function RemoveOp(l: Ledger, store: Store, path: string, now: nat, pk: string): Effect<()> {
    var p := ParsePath(path);
    var l' := BatchOp(l, p.path, "DELETE", None, now, pk).0;
    if p.table == "" then Effect(l', if p.id in store then store - {p.id} else store, (), false)
    else if p.table !in store then Effect(l', store, (), true)
    else Effect(l', store[p.table := store[p.table] - {p.id}], (), false)
  }

  /**
   * Removing a loaded row: the row leaves the local table, no other row or table
   * changes, and the ledger is the one the DELETE gives.
   */
  lemma RemoveDropsRow(l: Ledger, store: Store, t: string, id: string, now: nat, pk: string)
    requires t != "" && id != "" && '/' !in t && '/' !in id && '\'' !in t && '\'' !in id
    requires t in store
    ensures var e := RemoveOp(l, store, "/" + t + "/" + id, now, pk);
      !e.thrown && t in e.store && id !in e.store[t]
      && (forall k :: k in store[t] && k != id ==> k in e.store[t] && e.store[t][k] == store[t][k])
      && e.store - {t} == store - {t}
      && e.ledger == BatchOp(l, "/" + t + "/" + id, "DELETE", None, now, pk).0
  {
    ParseTableIdPath(t, id, "");
    assert "/" + t + "/" + id + "" == "/" + t + "/" + id;
  }

  /** Removing from a table that is not loaded records the DELETE and then throws. */
  lemma RemoveUnloadedThrows(l: Ledger, store: Store, t: string, id: string, now: nat, pk: string)
    requires t != "" && '/' !in t && '/' !in id && '\'' !in t && '\'' !in id
    requires t !in store
    ensures var e := RemoveOp(l, store, "/" + t + "/" + id, now, pk);
      e.thrown && e.store == store && e.ledger == BatchOp(l, "/" + t + "/" + id, "DELETE", None, now, pk).0
  {
    ParseTableIdPath(t, id, "");
    assert "/" + t + "/" + id + "" == "/" + t + "/" + id;
  }

  /** A temporary id is a path segment: digits only. */
  lemma TempKeyPlain(now: nat)
    ensures TempKey(now) != "" && '/' !in TempKey(now) && '\'' !in TempKey(now)
  {
    var id := TempKey(now);
    assert forall i :: 0 <= i < |id| ==> '0' <= id[i] <= '9';
  }

  /** Removing a row that is pending as a create: no DELETE is listed and the POST entry goes. */
  lemma RemovePendingCreate(l: Ledger, store: Store, t: string, id: string, now: nat, pk: string)
    requires t != "" && id != "" && '/' !in t && '/' !in id && '\'' !in t && '\'' !in id
    requires t in store && Entry(l.post, t, id).Some?
    ensures var e := RemoveOp(l, store, "/" + t + "/" + id, now, pk);
      !e.thrown && Entry(e.ledger.post, t, id).None? && Listed(e.ledger, t) == Listed(l, t)
      && t in e.store && id !in e.store[t] && e.store - {t} == store - {t}
  {
    RemoveDropsRow(l, store, t, id, now, pk);
    ParseTableIdPath(t, id, "");
    assert "/" + t + "/" + id + "" == "/" + t + "/" + id;
    DeleteOfCreated(l, "/" + t + "/" + id, t, id, now, pk);
  }

  /** The facts `CreateThenRemove` takes from the create. */
  lemma CreatedLocally(l: Ledger, store: Store, columns: map<string, seq<string>>, t: string,
                       data: Option<Row>, now: nat, pk: string)
    requires t != "" && '/' !in t && '\'' !in t && t in store
    requires GenerateCreateByMetadata(columns, t, data) != map[]
    ensures var e1 := CreateEntryOp(l, store, Some(columns), "/" + t, data, now, pk);
      Entry(e1.ledger.post, t, TempKey(now)).Some? && t in e1.store && e1.store - {t} == store - {t}
  {
    ParseTablePath(t);
    CreateEntryPending(l, store, columns, "/" + t, data, now, pk);
  }

  /** The facts `CreateThenRemove` takes from the remove. */
  lemma RemovedLocally(l: Ledger, s: Store, store: Store, t: string, now: nat, later: nat, pk: string)
    requires t != "" && '/' !in t && '\'' !in t
    requires Entry(l.post, t, TempKey(now)).Some? && t in s && s - {t} == store - {t}
    ensures var e2 := RemoveOp(l, s, "/" + t + "/" + TempKey(now), later, pk);
      !e2.thrown && Entry(e2.ledger.post, t, TempKey(now)).None? && Listed(e2.ledger, t) == Listed(l, t)
      && t in e2.store && TempKey(now) !in e2.store[t] && e2.store - {t} == store - {t}
  {
    TempKeyPlain(now);
    RemovePendingCreate(l, s, t, TempKey(now), later, pk);
  }

  /**
   * Creating an entry and removing it again before submitting leaves nothing to send:
   * the POST entry is gone, the id is not listed for deletion, and the local row is gone.
   */
  lemma CreateThenRemove(l: Ledger, store: Store, columns: map<string, seq<string>>, t: string,
                         data: Option<Row>, now: nat, later: nat, pk: string)
    requires t != "" && '/' !in t && '\'' !in t && t in store
    requires GenerateCreateByMetadata(columns, t, data) != map[]
    ensures var e1 := CreateEntryOp(l, store, Some(columns), "/" + t, data, now, pk);
      var e2 := RemoveOp(e1.ledger, e1.store, "/" + t + "/" + TempKey(now), later, pk);
      !e2.thrown
      && Entry(e2.ledger.post, t, TempKey(now)).None?
      && Listed(e2.ledger, t) == Listed(e1.ledger, t)
      && t in e2.store && TempKey(now) !in e2.store[t]
      && e2.store - {t} == store - {t}
  {
    var e1 := CreateEntryOp(l, store, Some(columns), "/" + t, data, now, pk);
    CreatedLocally(l, store, columns, t, data, now, pk);
    RemovedLocally(e1.ledger, e1.store, store, t, now, later, pk);
  }
}

/**
 * The model object itself: the settings and primary key fixed at construction, the
 * column cache, the pending-change ledger and the model data, with the operations
 * that read and change them step by step. Each method is proved against the function
 * that specifies it (`BatchOp`, `Pending`, `Clear`, `CreateEntryOp`, `RemoveOp`,
 * `ParseResultList`, `Submit`).
 */
module Model {
  import opened Wrappers
  import opened JsValues
  import opened Strings
  import opened PathParser
  import opened Metadata
  import opened ListResult
  import opened Settings
  import opened Batch
  import opened Reconcile
  import opened Entries

  /** The loop over the tables of a POST or PUT bucket: is there one with an entry? */
  method AnyRows(tables: Tables) returns (r: bool)
    ensures r <==> HasEntries(tables)
  {
    var todo := tables.Keys;
    while todo != {}
      invariant todo <= tables.Keys
      invariant forall t :: t in tables && t !in todo ==> tables[t] == map[]
      decreases |todo|
    {
      var t :| t in todo;
      if tables[t] != map[] {
        return true;
      }
      todo := todo - {t};
    }
    return false;
  }

  /** The loop over the tables of the DELETE bucket: is there a non-empty list? */
  method AnyIds(lists: map<string, seq<string>>) returns (r: bool)
    ensures r <==> HasIds(lists)
  {
    var todo := lists.Keys;
    while todo != {}
      invariant todo <= lists.Keys
      invariant forall t :: t in lists && t !in todo ==> |lists[t]| == 0
      decreases |todo|
    {
      var t :| t in todo;
      if |lists[t]| > 0 {
        return true;
      }
      todo := todo - {t};
    }
    return false;
  }

  /** The inner loop of `parseCRUDresultList`: one record zipped with the columns. */
  method Zip(cols: seq<string>, rec: seq<Value>) returns (row: Row)
    ensures row == ZipRecord(cols, rec)
  {
    row := map[];
    var k := 0;
    while k < |rec|
      invariant 0 <= k <= |rec|
      invariant row == ZipRecord(cols, rec[..k])
    {
      assert rec[..k + 1][..k] == rec[..k];
      row := row[ColumnName(cols, k) := rec[k]];
      k := k + 1;
    }
    assert rec[..|rec|] == rec;
  }

  /** The `$.each` over the columns: every column but the primary key is pushed, in order. */
  method CacheColumnList(cols: seq<string>, pk: string) returns (cached: seq<string>)
    ensures cached == CacheColumns(cols, pk)
  {
    cached := [];
    var i := 0;
    while i < |cols|
      invariant 0 <= i <= |cols|
      invariant cached == CacheColumns(cols[..i], pk)
    {
      assert cols[..i + 1] == cols[..i] + [cols[i]];
      CacheColumnsAppend(cols[..i], [cols[i]], pk);
      if cols[i] != pk {
        cached := cached + [cols[i]];
      }
      i := i + 1;
    }
    assert cols[..|cols|] == cols;
  }

  /** The outer loop of `parseCRUDresultList`: every record stored under its key. */
  method KeyRows(cols: seq<string>, records: seq<seq<Value>>, pk: string) returns (data: map<string, Row>)
    ensures data == RowsByKey(cols, records, pk)
  {
    data := map[];
    var i := 0;
    while i < |records|
      invariant 0 <= i <= |records|
      invariant data == RowsByKey(cols, records[..i], pk)
    {
      assert records[..i + 1][..i] == records[..i];
      var row := Zip(cols, records[i]);
      data := data[RecordKey(row, pk) := row];
      i := i + 1;
    }
    assert records[..|records|] == records;
  }

  /** `indexOf(id)` on the DELETE list, holes included: the first slot holding `id`. */
  method IndexOfSlot(a: array<Option<string>>, id: Option<string>) returns (r: Option<nat>)
    ensures r == FirstSlot(a[..], id)
  {
    if id.None? {
      return None;
    }
    var i := 0;
    while i < a.Length
      invariant 0 <= i <= a.Length
      invariant forall j :: 0 <= j < i ==> a[j] != id
    {
      if a[i] == id {
        FirstSlotUnique(a[..], id, i);
        return Some(i);
      }
      i := i + 1;
    }
    r := None;
    assert forall j :: 0 <= j < |a[..]| ==> a[..][j] != id;
  }

  /** The first slot holding `id` is the one `FirstSlot` finds. */
  lemma FirstSlotUnique(s: Slots, id: Option<string>, i: nat)
    requires id.Some? && i < |s| && s[i] == id
    requires forall j :: 0 <= j < i ==> s[j] != id
    ensures FirstSlot(s, id) == Some(i)
  {
  }

  /** `Object.keys(list).length === 0` on the DELETE list: every slot is a hole. */
  method NoSlotLeft(a: array<Option<string>>) returns (r: bool)
    ensures r <==> AllHoles(a[..])
  {
    var i := 0;
    while i < a.Length
      invariant 0 <= i <= a.Length
      invariant forall j :: 0 <= j < i ==> a[j].None?
    {
      if a[i].Some? {
        assert a[..][i].Some?;
        return false;
      }
      i := i + 1;
    }
    return true;
  }

  /** Compacting two pieces is compacting each: the filter may go slot by slot. */
  lemma {:induction false} CompactAppend(s: Slots, u: Slots)
    ensures Compact(s + u) == Compact(s) + Compact(u)
    decreases |s|
  {
    if |s| == 0 {
      assert s + u == u;
    } else {
      var head := if s[0].Some? then [s[0].value] else [];
      assert (s + u)[0] == s[0] && (s + u)[1..] == s[1..] + u;
      assert Compact(s + u) == head + Compact(s[1..] + u);
      CompactAppend(s[1..], u);
      assert Compact(s) == head + Compact(s[1..]);
    }
  }

  /** `list.filter(function(){return true;})`: the ids left, holes skipped, in order. */
  method CompactSlots(a: array<Option<string>>) returns (r: seq<string>)
    ensures r == Compact(a[..])
  {
    r := [];
    var i := 0;
    while i < a.Length
      invariant 0 <= i <= a.Length
      invariant r == Compact(a[..i])
    {
      assert a[..i + 1] == a[..i] + [a[i]];
      CompactAppend(a[..i], [a[i]]);
      if a[i].Some? {
        r := r + [a[i].value];
      }
      i := i + 1;
    }
    assert a[..a.Length] == a[..];
  }

  /**
   * The delete reply's loop once the table's list is gone: each flag other than 1 adds
   * the error, and the next flag 1 reads the missing list and throws.
   */
  method ErrorsUntilOne(vs: seq<Value>, k: nat, failed: bool) returns (f: bool)
    ensures f == FailsAfterEmpty(vs, k, failed)
  {
    var i, g := k, failed;
    while i < |vs| && !LooseOne(vs[i])
      invariant FailsAfterEmpty(vs, i, g) == FailsAfterEmpty(vs, k, failed)
      decreases |vs| - i
    {
      g := true;
      i := i + 1;
    }
    return g;
  }

  /**
   * The delete reply's loop over the flags, on the table's list in place: a flag other
   * than 1 records the error, a flag 1 makes a hole of the first slot holding the id at
   * that index. `emptied`: every slot became a hole, so the list was removed.
   */
  method MarkDeleted(a: array<Option<string>>, vs: seq<Value>) returns (emptied: bool, failed: bool)
    modifies a
    ensures (if emptied then None else Some(a[..]), failed) == DeleteKeys(old(a[..]), vs, 0, false)
  {
    var k := 0;
    failed := false;
    while k < |vs|
      invariant 0 <= k <= |vs|
      invariant DeleteKeys(a[..], vs, k, failed) == DeleteKeys(old(a[..]), vs, 0, false)
      decreases |vs| - k
    {
      if !LooseOne(vs[k]) {
        failed := true;
      } else {
        var id := if k < a.Length then a[k] else None;
        assert id == (if k < |a[..]| then a[..][k] else None);
        var j := IndexOfSlot(a, id);
        ghost var s := a[..];
        if j.Some? {
          a[j.value] := None;
        }
        assert a[..] == (match FirstSlot(s, id) case None => s case Some(i) => s[i := None]);
        var empty := NoSlotLeft(a);
        if empty {
          failed := ErrorsUntilOne(vs, k + 1, failed);
          return true, failed;
        }
      }
      k := k + 1;
    }
    return false, failed;
  }

  /** A `CRUDModel` instance. Its `_oCRUDdata` is modelled as its own. */
  class CrudModel {
    /** `_mSettings` once the constructor has merged them with the defaults. */
    const settings: SettingsMap
    /** `getPrimaryKey()`. */
    const pk: string
    /** `_oCRUDdata.oColumns`; `None` once metadata parsing left it `undefined` or `null`. */
    var columns: Option<map<string, seq<string>>>
    /** `_oCRUDdata.oBatch`. */
    var batch: Ledger
    /** The model data, `getData()`. */
    var store: Store

    /**
     * The constructor's settings part, on a model with no columns, no pending change and
     * no data; it throws (and no model exists) when `ConstructSettings` gives `None`.
     */
    constructor(serviceUrl: Setting, params: Option<seq<(string, Setting)>>)
      requires ConstructSettings(serviceUrl, params).Some?
      ensures settings == ConstructSettings(serviceUrl, params).value
      ensures "primaryKey" in settings && settings["primaryKey"] == Text(pk)
      ensures columns == Some(map[]) && batch == EmptyLedger && store == map[]
    {
      var s := ConstructSettings(serviceUrl, params).value;
      ConstructedWellTyped(serviceUrl, params);
      assert TypeOf(s["primaryKey"]) == "string";
      settings := s;
      pk := s["primaryKey"].s;
      columns := Some(map[]);
      batch := EmptyLedger;
      store := map[];
    }

    /**
     * The metadata `success` handler: the parsed column data replaces the cache; a
     * parse that throws leaves it as it was.
     */
    method LoadMetadata(doc: MetadataDoc) returns (thrown: bool)
      modifies this
      ensures var c := ParseMetadataToColumndata(doc, pk);
        thrown == c.TypeError?
        && columns == (match c case Columns(m) => Some(m) case TypeError => old(columns) case _ => None)
      ensures batch == old(batch) && store == old(store)
    {
      var c := ParseMetadataToColumndata(doc, pk);
      match c
      case TypeError =>
        thrown := true;
      case Columns(m) =>
        columns := Some(m);
        thrown := false;
      case _ =>
        columns := None;
        thrown := false;
    }

    /** `clearBatch(type)`. */
    method ClearBatch(kind: Option<string>)
      modifies this
      ensures batch == Clear(old(batch), kind)
      ensures columns == old(columns) && store == old(store)
    {
      if kind.None? || kind.value == "" {
        batch := EmptyLedger;
      } else if kind.value == "POST" && batch.post.Some? {
        batch := batch.(post := Some(map[]));
      } else if kind.value == "PUT" && batch.put.Some? {
        batch := batch.(put := Some(map[]));
      } else if kind.value == "DELETE" && batch.del.Some? {
        batch := batch.(del := Some(map[]));
      }
    }

    /** `hasPendingChanges()`: the buckets one by one, each table of a bucket in turn. */
    method HasPendingChanges() returns (r: bool)
      ensures r == Pending(batch)
    {
      if batch.post.Some? {
        r := AnyRows(batch.post.value);
        if r {
          return;
        }
      }
      if batch.put.Some? {
        r := AnyRows(batch.put.value);
        if r {
          return;
        }
      }
      if batch.del.Some? {
        r := AnyIds(batch.del.value);
        if r {
          return;
        }
      }
      return false;
    }

    /**
     * `createBatchOperation(sPath, sMethod, oData)`, with `now` for `Date.now()`: the
     * checks, the loop adding every missing bucket, then the branch of the method.
     */
    method CreateBatchOperation(path: string, m: string, data: Option<Row>, now: nat) returns (r: BatchResult)
      modifies this
      ensures (batch, r) == BatchOp(old(batch), path, m, data, now, pk)
      ensures columns == old(columns) && store == old(store)
    {
      var p := ParsePath(path);
      var d := data.GetOr(map[]);
      if p.table == "" || !KnownMethod(m) || ((m == "PUT" || m == "POST") && d == map[]) {
        return False;
      }
      if batch.post.None? {
        batch := batch.(post := Some(map[]));
      }
      if batch.put.None? {
        batch := batch.(put := Some(map[]));
      }
      if batch.del.None? {
        batch := batch.(del := Some(map[]));
      }
      assert EnsureBuckets(batch) == EnsureBuckets(old(batch));
      if m == "PUT" {
        r := RecordPut(p.table, p.id, d);
      } else if m == "POST" {
        r := RecordPost(p.table, d, now);
      } else {
        r := RecordDelete(p.table, p.id);
      }
    }

    /** The PUT branch of `createBatchOperation`, once every bucket exists. */
    method RecordPut(t: string, id: string, d: Row) returns (r: BatchResult)
      requires batch.post.Some? && batch.put.Some? && batch.del.Some?
      modifies this
      ensures (batch, r) == (Filled(PutOp(EnsureBuckets(old(batch)), t, id, d).0), PutOp(EnsureBuckets(old(batch)), t, id, d).1)
      ensures columns == old(columns) && store == old(store)
    {
      var post, put, del := batch.post.value, batch.put.value, batch.del.value;
      if t !in put {
        put := put[t := map[]];
      }
      if id == "" {
        r := False;
      } else if t in del && HasIndexKey(del[t], id) {
        r := False;
      } else if t in post && id in post[t] {
        post := post[t := post[t][id := Merge(post[t][id], d)]];
        r := True;
      } else if id in put[t] {
        put := put[t := put[t][id := Merge(put[t][id], d)]];
        r := True;
      } else {
        put := put[t := put[t][id := d]];
        r := True;
      }
      batch := Ledger(Some(post), Some(put), Some(del));
    }

    /** The POST branch of `createBatchOperation`, once every bucket exists. */
    method RecordPost(t: string, d: Row, now: nat) returns (r: BatchResult)
      requires batch.post.Some? && batch.put.Some? && batch.del.Some?
      modifies this
      ensures (batch, r) == (Filled(Batch.PostOp(EnsureBuckets(old(batch)), t, d, now, pk).0), Batch.PostOp(EnsureBuckets(old(batch)), t, d, now, pk).1)
      ensures columns == old(columns) && store == old(store)
    {
      var post := batch.post.value;
      if t !in post {
        post := post[t := map[]];
      }
      post := post[t := post[t][TempKey(now) := d[pk := Num(now)]]];
      batch := batch.(post := Some(post));
      r := TempId(now);
    }

    /**
     * The DELETE branch of `createBatchOperation`, once every bucket exists; an id
     * already listed falls out of the `switch` and gives `undefined`.
     */
    method RecordDelete(t: string, id: string) returns (r: BatchResult)
      requires batch.post.Some? && batch.put.Some? && batch.del.Some?
      modifies this
      ensures (batch, r) == (Filled(DeleteOp(EnsureBuckets(old(batch)), t, id).0), DeleteOp(EnsureBuckets(old(batch)), t, id).1)
      ensures columns == old(columns) && store == old(store)
    {
      var post, put, del := batch.post.value, batch.put.value, batch.del.value;
      if t !in del {
        del := del[t := []];
      }
      if id == "" {
        r := False;
      } else {
        if t in put && id in put[t] {
          put := put[t := put[t] - {id}];
        }
        if t in post && id in post[t] {
          post := post[t := post[t] - {id}];
          r := True;
        } else if id !in del[t] {
          del := del[t := del[t] + [id]];
          r := True;
        } else {
          r := BatchResult.Undefined;
        }
      }
      batch := Ledger(Some(post), Some(put), Some(del));
    }

    /** `createEntry(sPath, oData)`; `thrown` when the column cache is `null`. */
    method CreateEntry(path: string, data: Option<Row>, now: nat) returns (r: Option<BatchResult>, thrown: bool)
      modifies this
      ensures var e := CreateEntryOp(old(batch), old(store), old(columns), path, data, now, pk);
        batch == e.ledger && store == e.store && r == e.result && thrown == e.thrown
      ensures columns == old(columns)
    {
      var t := ParsePath(path).table;
      if t == "" {
        return None, false;
      }
      if columns.None? {
        return None, true;
      }
      var d := GenerateCreateByMetadata(columns.value, t, data);
      var res := CreateBatchOperation(path, "POST", Some(d), now);
      var id := IdValue(res);
      d := d[pk := id];
      if t in store {
        store := store[t := store[t][KeyOf(id) := d]];
      }
      return Some(res), false;
    }

    /** The batch branch of `remove(sPath)`; `thrown` when the table is not loaded. */
    method RemoveBatch(path: string, now: nat) returns (thrown: bool)
      modifies this
      ensures var e := RemoveOp(old(batch), old(store), path, now, pk);
        batch == e.ledger && store == e.store && thrown == e.thrown
      ensures columns == old(columns)
    {
      var p := ParsePath(path);
      var _ := CreateBatchOperation(p.path, "DELETE", None, now);
      if p.table == "" {
        if p.id in store {
          store := store - {p.id};
        }
        return false;
      }
      if p.table !in store {
        return true;
      }
      store := store[p.table := store[p.table] - {p.id}];
      return false;
    }

    /**
     * `_static.parseCRUDresultList(this, sTableName, mResponse)`: the rows of a LIST
     * reply keyed by primary key, caching the table's columns the first time; `thrown`
     * when the reply is `null`, the table's listing is not an object, or the cache is
     * `null` or `undefined`.
     */
    method ParseCrudResultList(t: string, response: ListResponse) returns (rows: map<string, Row>, thrown: bool)
      modifies this
      ensures var e := ParseResultList(old(columns), t, response, pk);
        columns == e.columns && rows == e.rows && thrown == e.thrown
      ensures batch == old(batch) && store == old(store)
    {
      if GuardThrows(response, t) {
        return map[], true;
      }
      if !Usable(response, t) {
        return map[], false;
      }
      if columns.None? {
        return map[], true;
      }
      var listing := response.tables[t];
      var cols := listing.columns.value;
      if t !in columns.value {
        var cached := CacheColumnList(cols, pk);
        columns := Some(columns.value[t := cached]);
      }
      rows := KeyRows(cols, listing.records.value, pk);
      thrown := false;
    }

    /**
     * The loop over one create reply: row `ids[k]` moves to the key of the new id
     * `vs[k]` with that id as primary key, and its POST entry goes, the table's entry
     * too once it is empty. `halted`: a missing table made the handler throw.
     */
    method MoveCreated(t: string, ids: seq<string>, vs: seq<Value>) returns (halted: bool)
      requires batch.post.Some?
      modifies this
      ensures var m := CreateKeys(old(batch).post.value, old(store), t, pk, ids, vs, 0);
        batch == old(batch).(post := Some(m.post)) && store == m.store && halted == m.halted
      ensures columns == old(columns)
    {
      var k := 0;
      while k < |vs|
        invariant batch.post.Some? && batch == old(batch).(post := batch.post)
        invariant columns == old(columns)
        invariant CreateKeys(batch.post.value, store, t, pk, ids, vs, k)
          == CreateKeys(old(batch).post.value, old(store), t, pk, ids, vs, 0)
        decreases |vs| - k
      {
        if t !in store {
          return true;
        }
        var oldId := IdAt(ids, k);
        var moved := RowAt(store[t], oldId)[pk := vs[k]];
        store := store[t := (store[t] - {oldId})[KeyOf(vs[k]) := moved]];
        var post := batch.post.value;
        if t !in post {
          return true;
        }
        var rest := post[t] - {oldId};
        post := if rest == map[] then post - {t} else post[t := rest];
        batch := batch.(post := Some(post));
        k := k + 1;
      }
      return false;
    }

    /**
     * `submitCreates` and its handlers, with `before` the errors recorded so far: the
     * POST entries lose their primary key, then each reply is processed in turn, or
     * `Create` is recorded when the requests are rejected.
     */
    method CreateStage(input: Settled<Answer>, before: set<string>) returns (after: set<string>, halted: bool)
      modifies this
      ensures var r := CreatePhase(World(old(batch), old(store), before), pk, input);
        batch == r.world.ledger && store == r.world.store && after == r.world.errors && halted == r.halted
      ensures columns == old(columns)
    {
      if batch.post.None? {
        return before, false;
      }
      var any := AnyRows(batch.post.value);
      if !any {
        return before, false;
      }
      batch := batch.(post := Some(StripKey(batch.post.value, pk)));
      if input.Rejected? {
        return before + {"Create"}, false;
      }
      var answers := input.answers;
      ghost var post0, store0 := batch.post.value, store;
      var failed := false;
      var i := 0;
      while i < |answers|
        invariant 0 <= i <= |answers|
        invariant batch.post.Some? && batch == old(batch).(post := batch.post)
        invariant columns == old(columns)
        invariant var rest := CreateAnswers(batch.post.value, store, pk, answers[i..]);
          CreateRun(rest.post, rest.store, failed || rest.failed, rest.halted) == CreateAnswers(post0, store0, pk, answers)
      {
        var a := answers[i];
        assert answers[i..][0] == a && answers[i..][1..] == answers[i + 1..];
        failed := failed || !Truthy(a.reply);
        if a.reply.Items? {
          var h := MoveCreated(a.table, a.ids, a.reply.vs);
          if h {
            return before + (if failed then {"Create"} else {}), true;
          }
        }
        i := i + 1;
      }
      return before + (if failed then {"Create"} else {}), false;
    }

    /**
     * The loop over one update reply of length `n`: the PUT entry of `ids[k]` goes, the
     * table's entry too once it is empty. `halted`: the table's entry was already gone.
     */
    method DropUpdated(t: string, ids: seq<string>, n: nat) returns (halted: bool)
      requires batch.put.Some?
      modifies this
      ensures var u := UpdateKeys(old(batch).put.value, t, ids, n, 0);
        batch == old(batch).(put := Some(u.0)) && halted == u.1
      ensures columns == old(columns) && store == old(store)
    {
      var k := 0;
      while k < n
        invariant batch.put.Some? && batch == old(batch).(put := batch.put)
        invariant columns == old(columns) && store == old(store)
        invariant UpdateKeys(batch.put.value, t, ids, n, k) == UpdateKeys(old(batch).put.value, t, ids, n, 0)
        decreases n - k
      {
        var put := batch.put.value;
        if t !in put {
          return true;
        }
        var rest := put[t] - {IdAt(ids, k)};
        put := if rest == map[] then put - {t} else put[t := rest];
        batch := batch.(put := Some(put));
        k := k + 1;
      }
      return false;
    }

    /** `submitUpdates` and its handlers, in the shape of `CreateStage`. */
    method UpdateStage(input: Settled<Answer>, before: set<string>) returns (after: set<string>, halted: bool)
      modifies this
      ensures var r := UpdatePhase(World(old(batch), old(store), before), pk, input);
        batch == r.world.ledger && store == r.world.store && after == r.world.errors && halted == r.halted
      ensures columns == old(columns)
    {
      if batch.put.None? {
        return before, false;
      }
      var any := AnyRows(batch.put.value);
      if !any {
        return before, false;
      }
      batch := batch.(put := Some(StripKey(batch.put.value, pk)));
      if input.Rejected? {
        return before + {"Update"}, false;
      }
      var answers := input.answers;
      ghost var put0 := batch.put.value;
      var failed := false;
      var i := 0;
      while i < |answers|
        invariant 0 <= i <= |answers|
        invariant batch.put.Some? && batch == old(batch).(put := batch.put)
        invariant columns == old(columns) && store == old(store)
        invariant var rest := UpdateAnswers(batch.put.value, answers[i..]);
          (rest.0, failed || rest.1, rest.2) == UpdateAnswers(put0, answers)
      {
        var a := answers[i];
        assert answers[i..][0] == a && answers[i..][1..] == answers[i + 1..];
        failed := failed || !Truthy(a.reply);
        if a.reply.Items? {
          var h := DropUpdated(a.table, a.ids, |a.reply.vs|);
          if h {
            return before + (if failed then {"Update"} else {}), true;
          }
        }
        i := i + 1;
      }
      return before + (if failed then {"Update"} else {}), false;
    }

    /**
     * One delete reply: a falsy number is an error, the number 1 drops the table's list,
     * another number leaves it (and throws when the list is missing); a flag array is
     * processed on the list in place and the list is compacted afterwards.
     */
    method ApplyDeleteReply(a: DeleteAnswer) returns (failed: bool, halted: bool)
      requires batch.del.Some?
      modifies this
      ensures var step := DeleteStep(old(batch).del.value, a);
        batch == old(batch).(del := Some(step.0)) && failed == step.1 && halted == step.2
      ensures columns == old(columns) && store == old(store)
    {
      var t := a.table;
      var del := batch.del.value;
      match a.reply
      case Number(n) =>
        if n == 0 {
          return true, false;
        } else if n == 1 {
          batch := batch.(del := Some(del - {t}));
          return false, false;
        } else {
          return false, t !in del;
        }
      case Items(vs) =>
        if t !in del {
          failed := ErrorsUntilOne(vs, 0, false);
          return failed, true;
        }
        var ids := del[t];
        var slots := new Option<string>[|ids|](j requires 0 <= j < |ids| => Some(ids[j]));
        assert slots[..] == AsSlots(ids);
        var emptied;
        emptied, failed := MarkDeleted(slots, vs);
        if emptied {
          batch := batch.(del := Some(del - {t}));
          return failed, true;
        }
        var kept := CompactSlots(slots);
        batch := batch.(del := Some(del[t := kept]));
        return failed, false;
    }

    /** `submitDeletes` and its handlers. */
    method DeleteStage(input: Settled<DeleteAnswer>, before: set<string>) returns (after: set<string>, halted: bool)
      modifies this
      ensures var r := DeletePhase(World(old(batch), old(store), before), input);
        batch == r.world.ledger && store == r.world.store && after == r.world.errors && halted == r.halted
      ensures columns == old(columns)
    {
      if batch.del.None? {
        return before, false;
      }
      var any := AnyIds(batch.del.value);
      if !any {
        return before, false;
      }
      if input.Rejected? {
        return before + {"Delete"}, false;
      }
      var answers := input.answers;
      ghost var del0 := batch.del.value;
      var failed := false;
      var i := 0;
      while i < |answers|
        invariant 0 <= i <= |answers|
        invariant batch.del.Some? && batch == old(batch).(del := batch.del)
        invariant columns == old(columns) && store == old(store)
        invariant var rest := DeleteAnswers(batch.del.value, answers[i..]);
          (rest.0, failed || rest.1, rest.2) == DeleteAnswers(del0, answers)
      {
        assert answers[i..][0] == answers[i] && answers[i..][1..] == answers[i + 1..];
        var f, h := ApplyDeleteReply(answers[i]);
        failed := failed || f;
        if h {
          return before + (if failed then {"Delete"} else {}), true;
        }
        i := i + 1;
      }
      return before + (if failed then {"Delete"} else {}), false;
    }

    /**
     * `submitChanges(fnSuccess, fnError)` with the replies given: with nothing pending
     * the success callback runs; otherwise the progress handler runs the phases in
     * turn, from status `Start` until the submission resolves or a handler throws.
     */
    method SubmitChanges(creates: Settled<Answer>, updates: Settled<Answer>, deletes: Settled<DeleteAnswer>)
      returns (outcome: Outcome)
      modifies this
      ensures (batch, store, outcome) == Submit(old(batch), old(store), pk, creates, updates, deletes)
      ensures columns == old(columns)
    {
      var pending := HasPendingChanges();
      if !pending {
        return Succeeded;
      }
      var stage := Start;
      var errors := {};
      while stage != Deleted && stage != Halted
        invariant columns == old(columns)
        invariant RunFrom(stage, World(batch, store, errors), pk, creates, updates, deletes)
          == RunFrom(Start, World(old(batch), old(store), {}), pk, creates, updates, deletes)
        decreases Remaining(stage)
      {
        var halted;
        if stage == Start {
          errors, halted := CreateStage(creates, errors);
          stage := if halted then Halted else Created;
        } else if stage == Created {
          errors, halted := UpdateStage(updates, errors);
          stage := if halted then Halted else Updated;
        } else {
          errors, halted := DeleteStage(deletes, errors);
          stage := if halted then Halted else Deleted;
        }
      }
      outcome := if stage == Halted then Stopped else Finish(errors);
    }
  }
}

/**
 * The pending-change ledger (`_oCRUDdata.oBatch`) and the rules by which
 * `createBatchOperation` records a PUT, POST or DELETE in it, with `clearBatch` and the
 * question `hasPendingChanges` answers. These functions are the specification the
 * methods of `CrudModel` are proved against.
 */
module Batch {
  import opened Wrappers
  import opened JsValues
  import opened Strings
  import opened PathParser

  /** Entries of one table: id -> payload. */
  type Rows = map<string, Row>

  /** A bucket: table -> entries. */
  type Tables = map<string, Rows>

  /**
   * `oBatch`: the `POST` and `PUT` buckets hold payloads per table and id, the `DELETE`
   * bucket a list of ids per table. `None`: the bucket is not a key of `oBatch`.
   */
  datatype Ledger = Ledger(post: Option<Tables>, put: Option<Tables>, del: Option<map<string, seq<string>>>)

  /** `oBatch = {}`. */
  const EmptyLedger := Ledger(None, None, None)

  /** The three buckets once they exist. */
  datatype Buckets = Buckets(post: Tables, put: Tables, del: map<string, seq<string>>)

  /**
   * What `createBatchOperation` returns: `false`, `true`, the temporary id of a new
   * entry, or `undefined` (a DELETE of an id already listed).
   */
  datatype BatchResult = False | True | TempId(id: nat) | Undefined

  /** The loop over `aMethods` that adds every missing bucket as `{}`. */
  function EnsureBuckets(l: Ledger): Buckets {
    Buckets(l.post.GetOr(map[]), l.put.GetOr(map[]), l.del.GetOr(map[]))
  }

  function Filled(b: Buckets): Ledger {
    Ledger(Some(b.post), Some(b.put), Some(b.del))
  }

  /** `$.extend(true, old, data)` on flat rows: every field of `data` overwrites. */
  function Merge(prev: Row, data: Row): (r: Row)
    ensures r.Keys == prev.Keys + data.Keys
    ensures forall f :: f in data ==> r[f] == data[f]
    ensures forall f :: f in prev && f !in data ==> r[f] == prev[f]
  {
    prev + data
  }

  /**
   * `key in list` for a JavaScript array: true for `length` and for the decimal text of
   * an index of the list, whatever the list holds.
   */
  predicate HasIndexKey(list: seq<string>, key: string) {
    key == "length" || exists n :: 0 <= n < |list| && NatToString(n) == key
  }

  /**
   * The guard against updating an id listed for deletion: the table has a DELETE list
   * and the id is a key of that array.
   */
  predicate Blocked(l: Ledger, t: string, id: string) {
    l.del.Some? && t in l.del.value && HasIndexKey(l.del.value[t], id)
  }

  /** The PUT branch, once the buckets exist. */
  function PutOp(b: Buckets, t: string, id: string, d: Row): (Buckets, BatchResult) {
    var put := if t in b.put then b.put else b.put[t := map[]];
    var b1 := b.(put := put);
    if id == "" then (b1, False)
    else if t in b1.del && HasIndexKey(b1.del[t], id) then (b1, False)
    else if t in b1.post && id in b1.post[t] then
      (b1.(post := b1.post[t := b1.post[t][id := Merge(b1.post[t][id], d)]]), True)
    else if id in put[t] then (b1.(put := put[t := put[t][id := Merge(put[t][id], d)]]), True)
    else (b1.(put := put[t := put[t][id := d]]), True)
  }

  /** The key a temporary id is stored under: the decimal text of `Date.now()`. */
  function TempKey(now: nat): string {
    KeyOf(Num(now))
  }

  /** The POST branch: the payload, its primary key set to `now`, stored under `now`. */
  function PostOp(b: Buckets, t: string, d: Row, now: nat, pk: string): (Buckets, BatchResult) {
    var post := if t in b.post then b.post else b.post[t := map[]];
    (b.(post := post[t := post[t][TempKey(now) := d[pk := Num(now)]]]), TempId(now))
  }

  /** The DELETE branch. */
  function DeleteOp(b: Buckets, t: string, id: string): (Buckets, BatchResult) {
    var del := if t in b.del then b.del else b.del[t := []];
    var b1 := b.(del := del);
    if id == "" then (b1, False)
    else
      var put := if t in b1.put && id in b1.put[t] then b1.put[t := b1.put[t] - {id}] else b1.put;
      var b2 := b1.(put := put);
      if t in b2.post && id in b2.post[t] then (b2.(post := b2.post[t := b2.post[t] - {id}]), True)
      else if id !in del[t] then (b2.(del := del[t := del[t] + [id]]), True)
      else (b2, Undefined)
  }

  /** One of the three methods `createBatchOperation` accepts. */
  predicate KnownMethod(m: string) {
    m == "PUT" || m == "POST" || m == "DELETE"
  }

  /** The checks that make `createBatchOperation` return `false` before touching the ledger. */
  predicate Refused(path: string, m: string, data: Option<Row>) {
    ParsePath(path).table == "" || !KnownMethod(m)
    || ((m == "PUT" || m == "POST") && data.GetOr(map[]) == map[])
  }

  /**
   * `createBatchOperation(sPath, sMethod, oData)` with `now` for `Date.now()` and `pk`
   * for the primary key. `data` is `None` when `oData` is not an object; the payload is
   * a copy either way, so the caller's object is never the stored one.
   */
  function BatchOp(l: Ledger, path: string, m: string, data: Option<Row>, now: nat, pk: string): (Ledger, BatchResult) {
    if Refused(path, m, data) then (l, False)
    else
      var p := ParsePath(path);
      var d := data.GetOr(map[]);
      var b := EnsureBuckets(l);
      var step := if m == "PUT" then PutOp(b, p.table, p.id, d)
                  else if m == "POST" then PostOp(b, p.table, d, now, pk)
                  else DeleteOp(b, p.table, p.id);
      (Filled(step.0), step.1)
  }

  /** The payload pending in a bucket for a table and id, if any. */
  function Entry(bucket: Option<Tables>, t: string, id: string): Option<Row> {
    if bucket.Some? && t in bucket.value && id in bucket.value[t] then Some(bucket.value[t][id]) else None
  }

  /** The DELETE list of a table (`[]` when there is none). */
  function Listed(l: Ledger, t: string): seq<string> {
    if l.del.Some? && t in l.del.value then l.del.value[t] else []
  }

  /** No pending payload and no listed id differs between two ledgers. */
  ghost predicate SameEntries(a: Ledger, b: Ledger) {
    (forall t, id :: Entry(a.post, t, id) == Entry(b.post, t, id))
    && (forall t, id :: Entry(a.put, t, id) == Entry(b.put, t, id))
    && (forall t :: Listed(a, t) == Listed(b, t))
  }

  /** `hasPendingChanges`: some POST or PUT table has an entry, or some DELETE list an id. */
  predicate Pending(l: Ledger) {
    (l.post.Some? && exists t :: t in l.post.value && l.post.value[t] != map[])
    || (l.put.Some? && exists t :: t in l.put.value && l.put.value[t] != map[])
    || (l.del.Some? && exists t :: t in l.del.value && |l.del.value[t]| > 0)
  }

  /** `clearBatch(type)`: `kind` is `None` for `undefined`; a falsy kind clears everything. */
  function Clear(l: Ledger, kind: Option<string>): Ledger {
    if kind.None? || kind.value == "" then EmptyLedger
    else if kind.value == "POST" && l.post.Some? then l.(post := Some(map[]))
    else if kind.value == "PUT" && l.put.Some? then l.(put := Some(map[]))
    else if kind.value == "DELETE" && l.del.Some? then l.(del := Some(map[]))
    else l
  }

  /** Every DELETE list holds each id once. */
  predicate NoDuplicates(l: Ledger) {
    l.del.Some? ==> forall t :: t in l.del.value ==> Distinct(l.del.value[t])
  }

  // ---------------------------------------------------------------- PUT

  /**
   * A refused call (no table, unknown method, empty payload) returns `false` and leaves
   * the ledger as it was; a PUT or DELETE without an id returns `false` and changes no
   * entry either (it only adds empty buckets).
   */
  lemma RefusedAddsNothing(l: Ledger, path: string, m: string, data: Option<Row>, now: nat, pk: string)
    requires Refused(path, m, data) || ((m == "PUT" || m == "DELETE") && ParsePath(path).id == "")
    ensures BatchOp(l, path, m, data, now, pk).1 == False
    ensures SameEntries(BatchOp(l, path, m, data, now, pk).0, l)
  {
    if !Refused(path, m, data) {
      var p := ParsePath(path);
      var b := EnsureBuckets(l);
      EnsureKeepsEntries(l);
      var r := BatchOp(l, path, m, data, now, pk).0;
      if m == "PUT" {
        assert r == Filled(PutOp(b, p.table, p.id, data.GetOr(map[])).0);
        AddEmptyTable(b.put, p.table);
      } else {
        assert r == Filled(DeleteOp(b, p.table, p.id).0);
        AddEmptyList(b.del, p.table);
      }
    }
  }

  /** Adding the buckets changes no entry and no list. */
  lemma EnsureKeepsEntries(l: Ledger)
    ensures var b := EnsureBuckets(l);
      (forall t, id :: Entry(Some(b.post), t, id) == Entry(l.post, t, id))
      && (forall t, id :: Entry(Some(b.put), t, id) == Entry(l.put, t, id))
      && (forall t :: Listed(Filled(b), t) == Listed(l, t))
  {
  }

  /** Adding an empty table to a bucket changes no entry. */
  lemma AddEmptyTable(m: Tables, t: string)
    ensures forall t', id :: Entry(Some(if t in m then m else m[t := map[]]), t', id) == Entry(Some(m), t', id)
  {
  }

  /** Adding an empty list to the DELETE bucket changes no list. */
  lemma AddEmptyList(m: map<string, seq<string>>, t: string)
    ensures forall b: Buckets, t' :: b.del == (if t in m then m else m[t := []]) ==>
      Listed(Filled(b), t') == (if t' in m then m[t'] else [])
  {
  }

  /** The preconditions under which a PUT for `/t/id` gets past the checks. */
  predicate PutReaches(path: string, t: string, id: string, d: Row) {
    ParsePath(path) == PathRef(t, id, ParsePath(path).path) && t != "" && id != "" && d != map[]
  }

  /** A PUT that gets past the checks is the PUT branch on the ledger with every bucket added. */
  lemma PutUnfold(l: Ledger, path: string, t: string, id: string, d: Row, now: nat, pk: string)
    requires PutReaches(path, t, id, d)
    ensures BatchOp(l, path, "PUT", Some(d), now, pk)
      == (Filled(PutOp(EnsureBuckets(l), t, id, d).0), PutOp(EnsureBuckets(l), t, id, d).1)
  {
  }

  /** A PUT for an id listed for deletion, by index, is refused and changes no entry. */
  lemma PutAfterDeleteRefused(l: Ledger, path: string, t: string, id: string, d: Row, now: nat, pk: string)
    requires PutReaches(path, t, id, d)
    requires Blocked(l, t, id)
    ensures BatchOp(l, path, "PUT", Some(d), now, pk).1 == False
    ensures SameEntries(BatchOp(l, path, "PUT", Some(d), now, pk).0, l)
  {
    var b := EnsureBuckets(l);
    EnsureKeepsEntries(l);
    assert BatchOp(l, path, "PUT", Some(d), now, pk).0 == Filled(PutOp(b, t, id, d).0);
    AddEmptyTable(b.put, t);
  }

  /**
   * A PUT for an id pending creation merges into the create payload: the POST entry
   * becomes `old + d`, the call returns `true` and no PUT entry is made.
   */
  lemma PutIntoCreate(l: Ledger, path: string, t: string, id: string, d: Row, now: nat, pk: string)
    requires PutReaches(path, t, id, d)
    requires !Blocked(l, t, id)
    requires Entry(l.post, t, id).Some?
    ensures var (r, res) := BatchOp(l, path, "PUT", Some(d), now, pk);
      res == True
      && Entry(r.post, t, id) == Some(Merge(Entry(l.post, t, id).value, d))
      && Entry(r.put, t, id) == Entry(l.put, t, id)
      && (forall t', id' :: (t', id') != (t, id) ==> Entry(r.post, t', id') == Entry(l.post, t', id'))
      && (forall t' :: Listed(r, t') == Listed(l, t'))
  {
    PutUnfold(l, path, t, id, d, now, pk);
    EnsureKeepsEntries(l);
    var r := BatchOp(l, path, "PUT", Some(d), now, pk).0;
    forall t', id' | (t', id') != (t, id) ensures Entry(r.post, t', id') == Entry(l.post, t', id') {
    }
    assert Entry(r.put, t, id) == Entry(l.put, t, id) by {
      if l.put.None? || t !in l.put.value {
        assert r.put.value[t] == map[];
      }
    }
  }

  /** A PUT for an id already pending update merges into that entry. */
  lemma PutMerges(l: Ledger, path: string, t: string, id: string, d: Row, now: nat, pk: string)
    requires PutReaches(path, t, id, d)
    requires !Blocked(l, t, id)
    requires Entry(l.post, t, id).None? && Entry(l.put, t, id).Some?
    ensures var (r, res) := BatchOp(l, path, "PUT", Some(d), now, pk);
      res == True
      && Entry(r.put, t, id) == Some(Merge(Entry(l.put, t, id).value, d))
      && (forall t', id' :: (t', id') != (t, id) ==> Entry(r.put, t', id') == Entry(l.put, t', id'))
      && (forall t', id' :: Entry(r.post, t', id') == Entry(l.post, t', id'))
  {
    PutUnfold(l, path, t, id, d, now, pk);
    EnsureKeepsEntries(l);
  }

  /** A PUT for an id pending nowhere stores the payload as a new update entry. */
  lemma PutStoresNew(l: Ledger, path: string, t: string, id: string, d: Row, now: nat, pk: string)
    requires PutReaches(path, t, id, d)
    requires !Blocked(l, t, id)
    requires Entry(l.post, t, id).None? && Entry(l.put, t, id).None?
    ensures var (r, res) := BatchOp(l, path, "PUT", Some(d), now, pk);
      res == True
      && Entry(r.put, t, id) == Some(d)
      && (forall t', id' :: (t', id') != (t, id) ==> Entry(r.put, t', id') == Entry(l.put, t', id'))
      && (forall t', id' :: Entry(r.post, t', id') == Entry(l.post, t', id'))
  {
    PutUnfold(l, path, t, id, d, now, pk);
    EnsureKeepsEntries(l);
    var r := BatchOp(l, path, "PUT", Some(d), now, pk).0;
    forall t', id' | (t', id') != (t, id) ensures Entry(r.put, t', id') == Entry(l.put, t', id') {
      if t' == t && (l.put.None? || t !in l.put.value) {
        assert r.put.value[t] == map[id := d];
      }
    }
  }

  /** Two PUTs for a fresh id leave one entry: the field-wise merge of both payloads. */
  lemma TwoPutsMerge(l: Ledger, path: string, t: string, id: string, a: Row, b: Row, now: nat, pk: string)
    requires PutReaches(path, t, id, a) && b != map[]
    requires !Blocked(l, t, id)
    requires Entry(l.post, t, id).None? && Entry(l.put, t, id).None?
    ensures var l1 := BatchOp(l, path, "PUT", Some(a), now, pk).0;
      var l2 := BatchOp(l1, path, "PUT", Some(b), now, pk).0;
      Entry(l2.put, t, id) == Some(Merge(a, b))
  {
    PutStoresNew(l, path, t, id, a, now, pk);
    var l1 := BatchOp(l, path, "PUT", Some(a), now, pk).0;
    assert l1.del == Some(l.del.GetOr(map[]));
    PutMerges(l1, path, t, id, b, now, pk);
  }

  // ---------------------------------------------------------------- POST

  /** What a POST for `/t` needs to get past the checks. */
  predicate PostReaches(path: string, t: string, d: Row) {
    ParsePath(path).table == t && t != "" && d != map[]
  }

  /**
   * A POST stores the payload with its primary key set to the temporary id `now`,
   * under that id, returns the id and touches no other entry.
   */
  lemma PostStores(l: Ledger, path: string, t: string, d: Row, now: nat, pk: string)
    requires PostReaches(path, t, d)
    ensures var (r, res) := BatchOp(l, path, "POST", Some(d), now, pk);
      res == TempId(now)
      && Entry(r.post, t, TempKey(now)) == Some(d[pk := Num(now)])
      && Entry(r.post, t, TempKey(now)).value[pk] == Num(now)
      && (forall t', id' :: (t', id') != (t, TempKey(now)) ==> Entry(r.post, t', id') == Entry(l.post, t', id'))
      && (forall t', id' :: Entry(r.put, t', id') == Entry(l.put, t', id'))
      && (forall t' :: Listed(r, t') == Listed(l, t'))
  {
    var r := BatchOp(l, path, "POST", Some(d), now, pk).0;
    forall t', id' | (t', id') != (t, TempKey(now)) ensures Entry(r.post, t', id') == Entry(l.post, t', id') {
      if t' == t && (l.post.None? || t !in l.post.value) {
        assert r.post.value[t] == map[TempKey(now) := d[pk := Num(now)]];
      }
    }
  }

  /**
   * Two creates in the same millisecond share a temporary id: the second payload
   * replaces the first, and only one entry remains under that id.
   */
  lemma SameMillisecondCollides(l: Ledger, path: string, t: string, a: Row, b: Row, now: nat, pk: string)
    requires PostReaches(path, t, a) && b != map[]
    ensures var l1 := BatchOp(l, path, "POST", Some(a), now, pk).0;
      var l2 := BatchOp(l1, path, "POST", Some(b), now, pk).0;
      Entry(l2.post, t, TempKey(now)) == Some(b[pk := Num(now)])
  {
    var l1 := BatchOp(l, path, "POST", Some(a), now, pk).0;
    PostStores(l1, path, t, b, now, pk);
  }

  // ---------------------------------------------------------------- DELETE

  /** What a DELETE for `/t/id` needs to get past the checks. */
  predicate DeleteReaches(path: string, t: string, id: string) {
    ParsePath(path).table == t && ParsePath(path).id == id && t != "" && id != ""
  }

  /**
   * A DELETE always discards a pending update of the id, and touches no other update,
   * no create entry of another id and no other table's list.
   */
  lemma DeleteDropsUpdate(l: Ledger, path: string, t: string, id: string, now: nat, pk: string)
    requires DeleteReaches(path, t, id)
    ensures var r := BatchOp(l, path, "DELETE", None, now, pk).0;
      Entry(r.put, t, id).None?
      && (forall t', id' :: (t', id') != (t, id) ==> Entry(r.put, t', id') == Entry(l.put, t', id'))
      && (forall t', id' :: (t', id') != (t, id) ==> Entry(r.post, t', id') == Entry(l.post, t', id'))
      && (forall t' :: t' != t ==> Listed(r, t') == Listed(l, t'))
  {
    var b := EnsureBuckets(l);
    EnsureKeepsEntries(l);
    var b' := DeleteOp(b, t, id).0;
    assert BatchOp(l, path, "DELETE", None, now, pk).0 == Filled(b');
    DeleteOpShape(b, t, id);
    forall t', id' | (t', id') != (t, id) ensures Entry(Some(b'.put), t', id') == Entry(Some(b.put), t', id') {
    }
    forall t', id' | (t', id') != (t, id) ensures Entry(Some(b'.post), t', id') == Entry(Some(b.post), t', id') {
    }
  }

  /** What the DELETE branch changes: the id's update entry, its create entry, the table's list. */
  lemma DeleteOpShape(b: Buckets, t: string, id: string)
    requires id != ""
    ensures var b' := DeleteOp(b, t, id).0;
      b'.put == (if t in b.put && id in b.put[t] then b.put[t := b.put[t] - {id}] else b.put)
      && (b'.post == b.post || (t in b.post && b'.post == b.post[t := b.post[t] - {id}]))
      && (forall t' :: t' != t ==> (t' in b'.del <==> t' in b.del))
      && (forall t' :: t' != t && t' in b.del ==> b'.del[t'] == b.del[t'])
  {
  }

  /**
   * A DELETE of an id pending creation removes the create entry and returns `true`
   * without listing the id: the row never reached the server.
   */
  lemma DeleteOfCreated(l: Ledger, path: string, t: string, id: string, now: nat, pk: string)
    requires DeleteReaches(path, t, id)
    requires Entry(l.post, t, id).Some?
    ensures var (r, res) := BatchOp(l, path, "DELETE", None, now, pk);
      res == True && Entry(r.post, t, id).None? && Listed(r, t) == Listed(l, t)
  {
    var b := EnsureBuckets(l);
    EnsureKeepsEntries(l);
    assert BatchOp(l, path, "DELETE", None, now, pk) == (Filled(DeleteOp(b, t, id).0), DeleteOp(b, t, id).1);
  }

  /**
   * A DELETE of any other id appends it when it is not listed yet (`true`); a repeat
   * leaves the list as it is and returns `undefined`.
   */
  lemma DeleteListsOnce(l: Ledger, path: string, t: string, id: string, now: nat, pk: string)
    requires DeleteReaches(path, t, id)
    requires Entry(l.post, t, id).None?
    ensures var (r, res) := BatchOp(l, path, "DELETE", None, now, pk);
      Entry(r.post, t, id).None?
      && (id !in Listed(l, t) ==> res == True && Listed(r, t) == Listed(l, t) + [id])
      && (id in Listed(l, t) ==> res == Undefined && Listed(r, t) == Listed(l, t))
  {
    var b := EnsureBuckets(l);
    EnsureKeepsEntries(l);
    assert BatchOp(l, path, "DELETE", None, now, pk) == (Filled(DeleteOp(b, t, id).0), DeleteOp(b, t, id).1);
  }

  /** Deleting an entry created in the same batch reports success and leaves nothing to send. */
  lemma DeleteAfterCreate(l: Ledger, t: string, d: Row, now: nat, pk: string)
    requires t != "" && '/' !in t && '\'' !in t && d != map[]
    ensures var l1 := BatchOp(l, "/" + t, "POST", Some(d), now, pk).0;
      var (l2, res) := BatchOp(l1, "/" + t + "/" + TempKey(now), "DELETE", None, now, pk);
      res == True && Entry(l2.post, t, TempKey(now)).None? && Listed(l2, t) == Listed(l1, t)
  {
    ParseTablePath(t);
    PostStores(l, "/" + t, t, d, now, pk);
    var k := TempKey(now);
    assert '/' !in k && '\'' !in k by {
      assert forall i :: 0 <= i < |k| ==> '0' <= k[i] <= '9';
    }
    ParseTableIdPath(t, k, "");
    assert "/" + t + "/" + k + "" == "/" + t + "/" + k;
    var l1 := BatchOp(l, "/" + t, "POST", Some(d), now, pk).0;
    DeleteOfCreated(l1, "/" + t + "/" + k, t, k, now, pk);
  }

  /** For an id not pending creation, a second DELETE leaves the ledger as the first did. */
  lemma DeleteTwiceIsOnce(l: Ledger, path: string, t: string, id: string, now: nat, pk: string)
    requires DeleteReaches(path, t, id)
    requires Entry(l.post, t, id).None?
    ensures var l1 := BatchOp(l, path, "DELETE", None, now, pk).0;
      BatchOp(l1, path, "DELETE", None, now, pk).0 == l1
  {
    var l1 := BatchOp(l, path, "DELETE", None, now, pk).0;
    DeleteDropsUpdate(l, path, t, id, now, pk);
    DeleteListsOnce(l, path, t, id, now, pk);
    assert id in Listed(l1, t);
    DeleteListsOnce(l1, path, t, id, now, pk);
    var l2 := BatchOp(l1, path, "DELETE", None, now, pk).0;
    assert l2.put == l1.put;
  }

  /**
   * For an id pending creation a second DELETE is not a repeat: the first drops the
   * create entry, the second lists the temporary id for deletion on the server.
   */
  lemma DeleteTwiceAfterCreate(l: Ledger, path: string, t: string, id: string, now: nat, pk: string)
    requires DeleteReaches(path, t, id)
    requires Entry(l.post, t, id).Some? && id !in Listed(l, t)
    ensures var l1 := BatchOp(l, path, "DELETE", None, now, pk).0;
      Listed(BatchOp(l1, path, "DELETE", None, now, pk).0, t) == Listed(l, t) + [id]
  {
    DeleteOfCreated(l, path, t, id, now, pk);
    var l1 := BatchOp(l, path, "DELETE", None, now, pk).0;
    DeleteListsOnce(l1, path, t, id, now, pk);
  }

  /**
   * The guard against updating an id listed for deletion tests array indices: after
   * `/t/7` is listed on an empty list, a PUT for `/t/0` is refused and a PUT for `/t/7`
   * is accepted, so `7` is then pending both update and deletion.
   */
  lemma DeleteGuardTestsIndices(t: string, d: Row, now: nat, pk: string)
    requires t != "" && '/' !in t && '\'' !in t && d != map[]
    ensures var l1 := BatchOp(EmptyLedger, "/" + t + "/7", "DELETE", None, now, pk).0;
      Listed(l1, t) == ["7"]
      && BatchOp(l1, "/" + t + "/0", "PUT", Some(d), now, pk).1 == False
      && var (l2, res) := BatchOp(l1, "/" + t + "/7", "PUT", Some(d), now, pk);
         res == True && Entry(l2.put, t, "7") == Some(d) && Listed(l2, t) == ["7"]
  {
    var l1 := BatchOp(EmptyLedger, "/" + t + "/7", "DELETE", None, now, pk).0;
    SevenListed(t, now, pk);
    ParseTableIdPath(t, "0", "");
    assert "/" + t + "/" + "0" + "" == "/" + t + "/0";
    assert NatToString(0) == "0";
    assert Blocked(l1, t, "0");
    PutAfterDeleteRefused(l1, "/" + t + "/0", t, "0", d, now, pk);
    assert !HasIndexKey(["7"], "7") by {
      forall n | 0 <= n < 1 ensures NatToString(n) != "7" {
        assert NatToString(0) == "0";
      }
    }
    PutStoresNew(l1, "/" + t + "/7", t, "7", d, now, pk);
    PutKeepsLists(l1, "/" + t + "/7", Some(d), now, pk);
  }

  /** `DeleteGuardTestsIndices` from the empty ledger: `/t/7` is listed and pending nowhere else. */
  lemma SevenListed(t: string, now: nat, pk: string)
    requires t != "" && '/' !in t && '\'' !in t
    ensures var l1 := BatchOp(EmptyLedger, "/" + t + "/7", "DELETE", None, now, pk).0;
      Listed(l1, t) == ["7"] && Entry(l1.post, t, "7").None? && Entry(l1.put, t, "7").None?
      && ParsePath("/" + t + "/7") == PathRef(t, "7", "/" + t + "/7")
  {
    ParseTableIdPath(t, "7", "");
    assert "/" + t + "/" + "7" + "" == "/" + t + "/7";
    DeleteListsOnce(EmptyLedger, "/" + t + "/7", t, "7", now, pk);
  }

  /** A PUT leaves every DELETE list as it was. */
  lemma PutKeepsLists(l: Ledger, path: string, d: Option<Row>, now: nat, pk: string)
    ensures forall t :: Listed(BatchOp(l, path, "PUT", d, now, pk).0, t) == Listed(l, t)
  {
  }

  /** Every call keeps each DELETE list free of repeats. */
  lemma BatchOpKeepsNoDuplicates(l: Ledger, path: string, m: string, data: Option<Row>, now: nat, pk: string)
    requires NoDuplicates(l)
    ensures NoDuplicates(BatchOp(l, path, m, data, now, pk).0)
  {
    var r := BatchOp(l, path, m, data, now, pk).0;
    if !Refused(path, m, data) && m == "DELETE" {
      var t := ParsePath(path).table;
      var id := ParsePath(path).id;
      var ids := Listed(l, t);
      if id != "" && Entry(l.post, t, id).None? && id !in ids {
        assert r.del.value[t] == ids + [id];
        assert Distinct(ids + [id]) by {
          forall i, j | 0 <= i < j < |ids| + 1 ensures (ids + [id])[i] != (ids + [id])[j] {
            if j == |ids| { assert ids[i] in ids; }
          }
        }
      }
    }
  }

  // ---------------------------------------------------------------- clear, pending

  /** `clearBatch()` leaves nothing pending. */
  lemma ClearAllNothingPending(l: Ledger)
    ensures !Pending(Clear(l, None))
    ensures !Pending(Clear(l, Some("")))
  {
  }

  /** Clearing a bucket empties exactly that bucket when it exists; other kinds change nothing. */
  lemma ClearOneBucket(l: Ledger, kind: string)
    requires kind != ""
    ensures var r := Clear(l, Some(kind));
      (kind == "POST" ==> r.put == l.put && r.del == l.del && (forall t, id :: Entry(r.post, t, id).None?))
      && (kind == "PUT" ==> r.post == l.post && r.del == l.del && (forall t, id :: Entry(r.put, t, id).None?))
      && (kind == "DELETE" ==> r.post == l.post && r.put == l.put && (forall t :: Listed(r, t) == []))
      && (!KnownMethod(kind) ==> r == l)
      && (r.post.Some? <==> l.post.Some?) && (r.put.Some? <==> l.put.Some?) && (r.del.Some? <==> l.del.Some?)
  {
  }

  /** Clearing twice is clearing once. */
  lemma ClearIdempotent(l: Ledger, kind: Option<string>)
    ensures Clear(Clear(l, kind), kind) == Clear(l, kind)
  {
  }

  /** A stored create or update is a pending change. */
  lemma StoredIsPending(l: Ledger, path: string, m: string, data: Option<Row>, now: nat, pk: string)
    requires m == "POST" || m == "PUT"
    requires BatchOp(l, path, m, data, now, pk).1 != False
    ensures Pending(BatchOp(l, path, m, data, now, pk).0)
  {
    var (r, res) := BatchOp(l, path, m, data, now, pk);
    var p := ParsePath(path);
    if m == "POST" {
      assert TempKey(now) in r.post.value[p.table];
    } else if Entry(l.post, p.table, p.id).Some? {
      assert p.id in r.post.value[p.table];
    } else {
      assert p.id in r.put.value[p.table];
    }
  }
}

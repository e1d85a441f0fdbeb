/**
 * The result processing of `submitChanges`: the Create, Update and Delete phases as
 * functions of the ledger, the model data and the phase's replies, and the state machine
 * that runs them in order. A reply is an input. A TypeError thrown inside a phase's
 * `done` handler ends the run: no later phase starts and no callback fires. Such a run
 * is `halted`, and it keeps the changes made before the throw.
 */
module Reconcile {
  import opened Wrappers
  import opened JsValues
  import opened Strings
  import opened Batch

  /** The model data (`getData()`): table -> key -> row. */
  type Store = map<string, Rows>

  /** `oRes[0]`, the body of one reply: a number, or an array of values. */
  datatype Reply = Number(n: int) | Items(vs: seq<Value>)

  /**
   * One request of the Create or Update phase: its table, the ids in the order they
   * were sent (`_CreatedIds` or `_updateIds`, the key order of the table's entries), and
   * the reply.
   */
  datatype Answer = Answer(table: string, ids: seq<string>, reply: Reply)

  /** One request of the Delete phase: its table and the reply. */
  datatype DeleteAnswer = DeleteAnswer(table: string, reply: Reply)

  /**
   * How `$.when` settles a phase: rejected as a whole when one request fails,
   * otherwise with every reply, in the order of the requests.
   */
  datatype Settled<A> = Rejected | Resolved(answers: seq<A>)

  /** What the phases read and write: the ledger, the model data and the error names. */
  datatype World = World(ledger: Ledger, store: Store, errors: set<string>)

  /** A phase's end state. `halted`: a TypeError ended the `done` handler. */
  datatype Run = Run(world: World, halted: bool)

  /** `oRes[0]` is truthy. */
  predicate Truthy(r: Reply) {
    r.Items? || r.n != 0
  }

  /** A table with at least one entry: the tables a phase sends a request for. */
  predicate HasEntries(tables: Tables) {
    exists t :: t in tables && tables[t] != map[]
  }

  /** `delete mEntry[pk]` on every pending entry of every table of a bucket. */
  function StripKey(tables: Tables, pk: string): (r: Tables)
    ensures r.Keys == tables.Keys
    ensures forall t :: t in r ==> r[t].Keys == tables[t].Keys
  {
    map t | t in tables :: map id | id in tables[t] :: tables[t][id] - {pk}
  }

  /** `_CreatedIds[key]` or `_updateIds[key]`: `undefined` past the end of the ids. */
  function IdAt(ids: seq<string>, k: nat): string {
    if k < |ids| then ids[k] else "undefined"
  }

  /** `getProperty("/t/id")` on a table that exists: the row, or `{}` when there is none. */
  function RowAt(rows: Rows, id: string): Row {
    if id in rows then rows[id] else map[]
  }

  // ---------------------------------------------------------------- Create

  /** The state of the POST bucket and the model data while a create reply is processed. */
  datatype Moved = Moved(post: Tables, store: Store, halted: bool)

  /**
   * The loop over a create reply from index `k`: the row of temporary id `ids[k]` is
   * moved to the key of the new id `vs[k]` with its primary key set to that id, and the
   * POST entry is removed, the table's entry too once it is empty. A table missing from
   * the model data, or from the POST bucket once its last entry is gone, throws.
   */
  function CreateKeys(post: Tables, store: Store, t: string, pk: string, ids: seq<string>, vs: seq<Value>, k: nat): Moved
    decreases |vs| - k
  {
    if k >= |vs| then Moved(post, store, false)
    else if t !in store then Moved(post, store, true)
    else
      var oldId := IdAt(ids, k);
      var moved := RowAt(store[t], oldId)[pk := vs[k]];
      var store' := store[t := (store[t] - {oldId})[KeyOf(vs[k]) := moved]];
      if t !in post then Moved(post, store', true)
      else
        var rest := post[t] - {oldId};
        var post' := if rest == map[] then post - {t} else post[t := rest];
        CreateKeys(post', store', t, pk, ids, vs, k + 1)
  }

  /** The create phase's loop over the replies; `failed` is whether `Create` was recorded. */
  datatype CreateRun = CreateRun(post: Tables, store: Store, failed: bool, halted: bool)

  function CreateAnswers(post: Tables, store: Store, pk: string, answers: seq<Answer>): CreateRun
    decreases |answers|
  {
    if |answers| == 0 then CreateRun(post, store, false, false)
    else
      var a := answers[0];
      var failed := !Truthy(a.reply);
      var m := if a.reply.Items? then CreateKeys(post, store, a.table, pk, a.ids, a.reply.vs, 0)
               else Moved(post, store, false);
      if m.halted then CreateRun(m.post, m.store, failed, true)
      else
        var rest := CreateAnswers(m.post, m.store, pk, answers[1..]);
        CreateRun(rest.post, rest.store, failed || rest.failed, rest.halted)
  }

  /**
   * `submitCreates` and its handlers: without a POST bucket, or without a table with
   * entries, the phase ends at once; otherwise the entries lose their primary key and
   * the replies are processed, or `Create` is recorded when the phase is rejected.
   */
  function CreatePhase(w: World, pk: string, input: Settled<Answer>): Run {
    if w.ledger.post.None? || !HasEntries(w.ledger.post.value) then Run(w, false)
    else
      var post := StripKey(w.ledger.post.value, pk);
      match input
      case Rejected => Run(World(w.ledger.(post := Some(post)), w.store, w.errors + {"Create"}), false)
      case Resolved(answers) =>
        var r := CreateAnswers(post, w.store, pk, answers);
        Run(World(w.ledger.(post := Some(r.post)), r.store, w.errors + (if r.failed then {"Create"} else {})), r.halted)
  }

  // ---------------------------------------------------------------- Update

  /**
   * The loop over an update reply from index `k` up to `n`, the reply's length: the
   * entry of `ids[k]` is removed, the table's entry once it is empty; the flag values
   * are never read. Touching a table whose entry was removed throws.
   */
  function UpdateKeys(put: Tables, t: string, ids: seq<string>, n: nat, k: nat): (Tables, bool)
    decreases n - k
  {
    if k >= n then (put, false)
    else if t !in put then (put, true)
    else
      var rest := put[t] - {IdAt(ids, k)};
      UpdateKeys(if rest == map[] then put - {t} else put[t := rest], t, ids, n, k + 1)
  }

  /** The update phase's loop over the replies: the PUT bucket, `failed`, `halted`. */
  function UpdateAnswers(put: Tables, answers: seq<Answer>): (Tables, bool, bool)
    decreases |answers|
  {
    if |answers| == 0 then (put, false, false)
    else
      var a := answers[0];
      var failed := !Truthy(a.reply);
      var step := if a.reply.Items? then UpdateKeys(put, a.table, a.ids, |a.reply.vs|, 0) else (put, false);
      if step.1 then (step.0, failed, true)
      else
        var rest := UpdateAnswers(step.0, answers[1..]);
        (rest.0, failed || rest.1, rest.2)
  }

  /** `submitUpdates` and its handlers, in the shape of `CreatePhase`. */
  function UpdatePhase(w: World, pk: string, input: Settled<Answer>): Run {
    if w.ledger.put.None? || !HasEntries(w.ledger.put.value) then Run(w, false)
    else
      var put := StripKey(w.ledger.put.value, pk);
      match input
      case Rejected => Run(World(w.ledger.(put := Some(put)), w.store, w.errors + {"Update"}), false)
      case Resolved(answers) =>
        var r := UpdateAnswers(put, answers);
        Run(World(w.ledger.(put := Some(r.0)), w.store, w.errors + (if r.1 then {"Update"} else {})), r.2)
  }

  // ---------------------------------------------------------------- Delete

  /** `flag != 1` is false: the number 1, `true` or the text `1`. */
  predicate LooseOne(v: Value) {
    v == Num(1) || v == Bool(true) || v == Str("1")
  }

  /** A DELETE list while it is processed: `delete` leaves holes (`None`). */
  type Slots = seq<Option<string>>

  function AsSlots(ids: seq<string>): (s: Slots)
    ensures |s| == |ids| && forall j :: 0 <= j < |ids| ==> s[j] == Some(ids[j])
  {
    seq(|ids|, j requires 0 <= j < |ids| => Some(ids[j]))
  }

  /** `indexOf(id)`: the first slot holding `id`; holes and `undefined` are never found. */
  function FirstSlot(s: Slots, id: Option<string>): (r: Option<nat>)
    ensures r.Some? ==> r.value < |s| && id.Some? && s[r.value] == id
    ensures r.Some? ==> forall j :: 0 <= j < r.value ==> s[j] != id
    ensures r.None? && id.Some? ==> forall j :: 0 <= j < |s| ==> s[j] != id
  {
    if id.None? || |s| == 0 then None
    else if s[0] == id then Some(0)
    else
      match FirstSlot(s[1..], id)
      case None => None
      case Some(j) => Some(j + 1)
  }

  /** `Object.keys(list).length === 0`: every slot is a hole. */
  predicate AllHoles(s: Slots) {
    forall j :: 0 <= j < |s| ==> s[j].None?
  }

  /** The flags after the list was emptied: errors until the next flag 1, which throws. */
  function FailsAfterEmpty(vs: seq<Value>, k: nat, failed: bool): bool
    decreases |vs| - k
  {
    if k >= |vs| then failed
    else if !LooseOne(vs[k]) then FailsAfterEmpty(vs, k + 1, true)
    else failed
  }

  /**
   * The loop over a delete reply from index `k`: a flag other than 1 records an error;
   * a flag 1 makes a hole of the first slot holding the id at that index (the ids read
   * are the list itself, holes included). `None`: every slot became a hole and the
   * table's list was removed, after which the handler throws.
   */
  function DeleteKeys(s: Slots, vs: seq<Value>, k: nat, failed: bool): (Option<Slots>, bool)
    decreases |vs| - k
  {
    if k >= |vs| then (Some(s), failed)
    else if !LooseOne(vs[k]) then DeleteKeys(s, vs, k + 1, true)
    else
      var id := if k < |s| then s[k] else None;
      var s' := match FirstSlot(s, id) case None => s case Some(j) => s[j := None];
      if AllHoles(s') then (None, FailsAfterEmpty(vs, k + 1, failed))
      else DeleteKeys(s', vs, k + 1, failed)
  }

  /** `filter(function(){return true;})`: the list without its holes. */
  function Compact(s: Slots): seq<string> {
    if |s| == 0 then []
    else (if s[0].Some? then [s[0].value] else []) + Compact(s[1..])
  }

  /** One delete reply: the DELETE bucket after it, `failed`, `halted`. */
  function DeleteStep(del: map<string, seq<string>>, a: DeleteAnswer): (map<string, seq<string>>, bool, bool) {
    var t := a.table;
    match a.reply
    case Number(n) =>
      if n == 0 then (del, true, false)
      else if n == 1 then (del - {t}, false, false)
      else (del, false, t !in del)
    case Items(vs) =>
      if t !in del then (del, FailsAfterEmpty(vs, 0, false), true)
      else
        match DeleteKeys(AsSlots(del[t]), vs, 0, false)
        case (None, f) => (del - {t}, f, true)
        case (Some(s), f) => (del[t := Compact(s)], f, false)
  }

  function DeleteAnswers(del: map<string, seq<string>>, answers: seq<DeleteAnswer>): (map<string, seq<string>>, bool, bool)
    decreases |answers|
  {
    if |answers| == 0 then (del, false, false)
    else
      var step := DeleteStep(del, answers[0]);
      if step.2 then step
      else
        var rest := DeleteAnswers(step.0, answers[1..]);
        (rest.0, step.1 || rest.1, rest.2)
  }

  /** A table with a non-empty DELETE list. */
  predicate HasIds(del: map<string, seq<string>>) {
    exists t :: t in del && |del[t]| > 0
  }

  /** `submitDeletes` and its handlers. */
  function DeletePhase(w: World, input: Settled<DeleteAnswer>): Run {
    if w.ledger.del.None? || !HasIds(w.ledger.del.value) then Run(w, false)
    else
      match input
      case Rejected => Run(w.(errors := w.errors + {"Delete"}), false)
      case Resolved(answers) =>
        var r := DeleteAnswers(w.ledger.del.value, answers);
        Run(World(w.ledger.(del := Some(r.0)), w.store, w.errors + (if r.1 then {"Delete"} else {})), r.2)
  }

  // ---------------------------------------------------------------- properties of one reply

  /** `ids` lists the keys of `rows`, each once: the order `Object.keys` gave them in. */
  ghost predicate KeyOrder(ids: seq<string>, rows: Rows) {
    Distinct(ids) && (forall id :: id in ids <==> id in rows)
  }

  /** The first `k` ids as a set. */
  function Prefix(ids: seq<string>, k: nat): set<string> {
    set j | 0 <= j < k && j < |ids| :: ids[j]
  }

  lemma PrefixStep(ids: seq<string>, k: nat)
    requires k < |ids|
    ensures Prefix(ids, k + 1) == Prefix(ids, k) + {ids[k]}
  {
  }

  /** Removing the first `k` of the ids leaves an entry exactly while `k` is short of all of them. */
  lemma PrefixLeaves(ids: seq<string>, rows: Rows, k: nat)
    requires KeyOrder(ids, rows) && k <= |ids|
    ensures (rows - Prefix(ids, k) == map[]) <==> k == |ids|
  {
    if k < |ids| {
      assert ids[k] in rows;
      assert ids[k] !in Prefix(ids, k);
      assert ids[k] in rows - Prefix(ids, k);
    } else {
      forall id | id in rows ensures id in Prefix(ids, k) {
        var j :| 0 <= j < |ids| && ids[j] == id;
      }
    }
  }

  /** A table with entries sent at least one id. */
  lemma NonEmptyHasIds(ids: seq<string>, rows: Rows)
    requires KeyOrder(ids, rows) && rows != map[]
    ensures |ids| > 0
  {
    var id :| id in rows;
    assert id in ids;
  }

  /** One step of the update loop keeps the table's entries at "all but the first `k` ids". */
  lemma {:induction false} UpdateKeysFrom(put0: Tables, put: Tables, t: string, ids: seq<string>, n: nat, k: nat)
    requires t in put0 && KeyOrder(ids, put0[t]) && k <= n && k <= |ids|
    requires put - {t} == put0 - {t}
    requires k < |ids| ==> t in put && put[t] == put0[t] - Prefix(ids, k)
    requires k == |ids| ==> t !in put
    ensures var r := UpdateKeys(put, t, ids, n, k);
      (r.1 <==> n > |ids|)
      && r.0 - {t} == put0 - {t}
      && (n < |ids| ==> t in r.0 && r.0[t] == put0[t] - Prefix(ids, n))
      && (n >= |ids| ==> t !in r.0)
    decreases n - k
  {
    if k < n && t in put {
      var rest := put[t] - {IdAt(ids, k)};
      var put' := if rest == map[] then put - {t} else put[t := rest];
      UpdateOneStep(put0, put, t, ids, k);
      assert UpdateKeys(put, t, ids, n, k) == UpdateKeys(put', t, ids, n, k + 1);
      UpdateKeysFrom(put0, put', t, ids, n, k + 1);
    } else if k >= n {
      assert UpdateKeys(put, t, ids, n, k) == (put, false);
    } else {
      assert k == |ids|;
      assert UpdateKeys(put, t, ids, n, k) == (put, true);
    }
  }

  /** One turn of the update loop, while ids are left. */
  lemma UpdateOneStep(put0: Tables, put: Tables, t: string, ids: seq<string>, k: nat)
    requires t in put0 && KeyOrder(ids, put0[t]) && k < |ids|
    requires put - {t} == put0 - {t} && t in put && put[t] == put0[t] - Prefix(ids, k)
    ensures var rest := put[t] - {IdAt(ids, k)};
      var put' := if rest == map[] then put - {t} else put[t := rest];
      put' - {t} == put0 - {t}
      && (k + 1 < |ids| ==> t in put' && put'[t] == put0[t] - Prefix(ids, k + 1))
      && (k + 1 == |ids| ==> t !in put')
  {
    var rest := put[t] - {IdAt(ids, k)};
    PrefixStep(ids, k);
    assert rest == put0[t] - Prefix(ids, k + 1);
    PrefixLeaves(ids, put0[t], k + 1);
    var put' := if rest == map[] then put - {t} else put[t := rest];
    assert put' - {t} == put0 - {t};
  }

  /**
   * An update reply of `n` values, for a table whose entries were sent as `ids`: the
   * entries of the first `n` ids are removed (the table's entry once none is left),
   * whatever the values; a reply longer than the ids throws once the table is gone.
   * No other table changes.
   */
  lemma UpdateConfirms(put: Tables, t: string, ids: seq<string>, n: nat)
    requires t in put && put[t] != map[] && KeyOrder(ids, put[t])
    ensures var r := UpdateKeys(put, t, ids, n, 0);
      (r.1 <==> n > |ids|)
      && r.0 - {t} == put - {t}
      && (n < |ids| ==> t in r.0 && r.0[t] == put[t] - Prefix(ids, n))
      && (n >= |ids| ==> t !in r.0)
  {
    NonEmptyHasIds(ids, put[t]);
    assert put[t] - Prefix(ids, 0) == put[t];
    UpdateKeysFrom(put, put, t, ids, n, 0);
  }

  /** The update phase never reads the flags: replies of the same length have the same effect. */
  lemma UpdateIgnoresFlags(put: Tables, t: string, ids: seq<string>, vs1: seq<Value>, vs2: seq<Value>, rest: seq<Answer>)
    requires |vs1| == |vs2|
    ensures UpdateAnswers(put, [Answer(t, ids, Items(vs1))] + rest) == UpdateAnswers(put, [Answer(t, ids, Items(vs2))] + rest)
  {
    assert ([Answer(t, ids, Items(vs1))] + rest)[1..] == rest;
    assert ([Answer(t, ids, Items(vs2))] + rest)[1..] == rest;
  }

  /** The keys the new ids are stored under. */
  function NewKeys(vs: seq<Value>): (r: seq<string>)
    ensures |r| == |vs| && forall k :: 0 <= k < |vs| ==> r[k] == KeyOf(vs[k])
  {
    seq(|vs|, k requires 0 <= k < |vs| => KeyOf(vs[k]))
  }

  /** The server's ids are new: their keys are distinct and none is a temporary id. */
  ghost predicate FreshIds(vs: seq<Value>, ids: seq<string>) {
    Distinct(NewKeys(vs)) && forall k, j :: 0 <= k < |vs| && 0 <= j < |ids| ==> KeyOf(vs[k]) != ids[j]
  }

  /**
   * The table's rows after the first `k` replies, against the rows `s` before: each
   * processed row is under its new key with the new primary key, no processed temporary
   * id is left, and every other row is as it was.
   */
  ghost predicate MovedUpTo(s: Rows, rows: Rows, pk: string, ids: seq<string>, vs: seq<Value>, k: nat)
    requires k <= |vs| && k <= |ids|
  {
    MovedRows(s, rows, pk, ids, vs, k) && GoneIds(rows, ids, k)
    && KeptRows(s, rows, ids, vs, k) && KnownKeys(s, rows, vs, k)
  }

  ghost predicate MovedRows(s: Rows, rows: Rows, pk: string, ids: seq<string>, vs: seq<Value>, k: nat)
    requires k <= |vs| && k <= |ids|
  {
    forall j :: 0 <= j < k ==> KeyOf(vs[j]) in rows && rows[KeyOf(vs[j])] == RowAt(s, ids[j])[pk := vs[j]]
  }

  ghost predicate GoneIds(rows: Rows, ids: seq<string>, k: nat)
    requires k <= |ids|
  {
    forall j :: 0 <= j < k ==> ids[j] !in rows
  }

  ghost predicate KeptRows(s: Rows, rows: Rows, ids: seq<string>, vs: seq<Value>, k: nat)
    requires k <= |vs|
  {
    forall key :: key in s && key !in Prefix(ids, k) && key !in NewKeys(vs)[..k] ==> key in rows && rows[key] == s[key]
  }

  ghost predicate KnownKeys(s: Rows, rows: Rows, vs: seq<Value>, k: nat)
    requires k <= |vs|
  {
    forall key :: key in rows ==> key in s || key in NewKeys(vs)[..k]
  }

  /** The move of reply `k` reads the row the temporary id had at the start. */
  lemma MovedReadsStart(s: Rows, rows: Rows, pk: string, ids: seq<string>, vs: seq<Value>, k: nat)
    requires k < |vs| && k < |ids| && Distinct(ids) && FreshIds(vs, ids)
    requires KeptRows(s, rows, ids, vs, k) && KnownKeys(s, rows, vs, k)
    ensures RowAt(rows, ids[k]) == RowAt(s, ids[k])
  {
    assert ids[k] !in Prefix(ids, k);
    assert ids[k] !in NewKeys(vs)[..k];
  }

  /** One move keeps `MovedUpTo`. */
  lemma MovedStep(s: Rows, rows: Rows, pk: string, ids: seq<string>, vs: seq<Value>, k: nat)
    requires k < |vs| && k < |ids| && Distinct(ids) && FreshIds(vs, ids)
    requires MovedUpTo(s, rows, pk, ids, vs, k)
    ensures RowAt(rows, ids[k]) == RowAt(s, ids[k])
    ensures MovedUpTo(s, (rows - {ids[k]})[KeyOf(vs[k]) := RowAt(rows, ids[k])[pk := vs[k]]], pk, ids, vs, k + 1)
  {
    MovedReadsStart(s, rows, pk, ids, vs, k);
    var rows' := (rows - {ids[k]})[KeyOf(vs[k]) := RowAt(s, ids[k])[pk := vs[k]]];
    MovedRowsStep(s, rows, pk, ids, vs, k);
    GoneIdsStep(rows, ids, vs, k, RowAt(s, ids[k])[pk := vs[k]]);
    KeptRowsStep(s, rows, ids, vs, k, RowAt(s, ids[k])[pk := vs[k]]);
    KnownKeysStep(s, rows, ids, vs, k, RowAt(s, ids[k])[pk := vs[k]]);
  }

  lemma MovedRowsStep(s: Rows, rows: Rows, pk: string, ids: seq<string>, vs: seq<Value>, k: nat)
    requires k < |vs| && k < |ids| && FreshIds(vs, ids)
    requires MovedRows(s, rows, pk, ids, vs, k)
    ensures MovedRows(s, (rows - {ids[k]})[KeyOf(vs[k]) := RowAt(s, ids[k])[pk := vs[k]]], pk, ids, vs, k + 1)
  {
    var nk := NewKeys(vs);
    forall j | 0 <= j < k ensures KeyOf(vs[j]) != KeyOf(vs[k]) && KeyOf(vs[j]) != ids[k] {
      assert nk[j] != nk[k];
    }
  }

  lemma GoneIdsStep(rows: Rows, ids: seq<string>, vs: seq<Value>, k: nat, row: Row)
    requires k < |vs| && k < |ids| && FreshIds(vs, ids)
    requires GoneIds(rows, ids, k)
    ensures GoneIds((rows - {ids[k]})[KeyOf(vs[k]) := row], ids, k + 1)
  {
    forall j | 0 <= j <= k ensures KeyOf(vs[k]) != ids[j] {
    }
  }

  lemma KeptRowsStep(s: Rows, rows: Rows, ids: seq<string>, vs: seq<Value>, k: nat, row: Row)
    requires k < |vs| && k < |ids|
    requires KeptRows(s, rows, ids, vs, k)
    ensures KeptRows(s, (rows - {ids[k]})[KeyOf(vs[k]) := row], ids, vs, k + 1)
  {
    PrefixStep(ids, k);
    assert NewKeys(vs)[..k + 1] == NewKeys(vs)[..k] + [KeyOf(vs[k])];
  }

  lemma KnownKeysStep(s: Rows, rows: Rows, ids: seq<string>, vs: seq<Value>, k: nat, row: Row)
    requires k < |vs| && k < |ids|
    requires KnownKeys(s, rows, vs, k)
    ensures KnownKeys(s, (rows - {ids[k]})[KeyOf(vs[k]) := row], vs, k + 1)
  {
    assert NewKeys(vs)[..k + 1] == NewKeys(vs)[..k] + [KeyOf(vs[k])];
  }

  /** The create loop from index `k`, for one table whose ids and replies fit. */
  lemma {:induction false} CreateKeysFrom(post0: Tables, store0: Store, post: Tables, store: Store, t: string, pk: string,
                                          ids: seq<string>, vs: seq<Value>, k: nat)
    requires t in store0 && t in post0 && KeyOrder(ids, post0[t]) && FreshIds(vs, ids)
    requires k <= |vs| && k <= |ids|
    requires t in store && store - {t} == store0 - {t} && MovedUpTo(store0[t], store[t], pk, ids, vs, k)
    requires post - {t} == post0 - {t}
    requires k < |ids| ==> t in post && post[t] == post0[t] - Prefix(ids, k)
    requires k == |ids| ==> t !in post
    ensures var m := CreateKeys(post, store, t, pk, ids, vs, k);
      (m.halted <==> |vs| > |ids|)
      && (|vs| <= |ids| ==>
        t in m.store && m.store - {t} == store0 - {t} && MovedUpTo(store0[t], m.store[t], pk, ids, vs, |vs|)
        && m.post - {t} == post0 - {t}
        && (|vs| < |ids| ==> t in m.post && m.post[t] == post0[t] - Prefix(ids, |vs|))
        && (|vs| == |ids| ==> t !in m.post))
    decreases |vs| - k
  {
    if k < |vs| && k < |ids| {
      var moved := RowAt(store[t], ids[k])[pk := vs[k]];
      var store' := store[t := (store[t] - {ids[k]})[KeyOf(vs[k]) := moved]];
      StoreOneStep(store0, store, t, pk, ids, vs, k);
      var rest := post[t] - {ids[k]};
      var post' := if rest == map[] then post - {t} else post[t := rest];
      UpdateOneStep(post0, post, t, ids, k);
      assert CreateKeys(post, store, t, pk, ids, vs, k) == CreateKeys(post', store', t, pk, ids, vs, k + 1);
      CreateKeysFrom(post0, store0, post', store', t, pk, ids, vs, k + 1);
    } else if k == |vs| {
      assert CreateKeys(post, store, t, pk, ids, vs, k) == Moved(post, store, false);
    } else {
      assert t !in post;
      assert CreateKeys(post, store, t, pk, ids, vs, k).halted;
    }
  }

  /** One turn of the create loop on the model data, while ids and replies are left. */
  lemma StoreOneStep(store0: Store, store: Store, t: string, pk: string, ids: seq<string>, vs: seq<Value>, k: nat)
    requires t in store0 && Distinct(ids) && FreshIds(vs, ids) && k < |vs| && k < |ids|
    requires t in store && store - {t} == store0 - {t} && MovedUpTo(store0[t], store[t], pk, ids, vs, k)
    ensures var store' := store[t := (store[t] - {ids[k]})[KeyOf(vs[k]) := RowAt(store[t], ids[k])[pk := vs[k]]]];
      t in store' && store' - {t} == store0 - {t} && MovedUpTo(store0[t], store'[t], pk, ids, vs, k + 1)
  {
    MovedStep(store0[t], store[t], pk, ids, vs, k);
    var store' := store[t := (store[t] - {ids[k]})[KeyOf(vs[k]) := RowAt(store[t], ids[k])[pk := vs[k]]]];
    assert store' - {t} == store0 - {t};
  }

  /**
   * A create reply for one table, with fresh server ids and no more of them than
   * temporary ids: every row moves from its temporary id to the key of its server id
   * with the primary key set to that id, no processed temporary id is left, the other
   * rows and tables stay, and the processed POST entries are gone (the table's entry
   * with the last of them).
   */
  lemma CreateMovesRows(post: Tables, store: Store, t: string, pk: string, ids: seq<string>, vs: seq<Value>)
    requires t in store && t in post && post[t] != map[] && KeyOrder(ids, post[t]) && FreshIds(vs, ids) && |vs| <= |ids|
    ensures var m := CreateKeys(post, store, t, pk, ids, vs, 0);
      !m.halted && t in m.store
      && (forall k :: 0 <= k < |vs| ==>
            KeyOf(vs[k]) in m.store[t] && m.store[t][KeyOf(vs[k])] == RowAt(store[t], ids[k])[pk := vs[k]]
            && m.store[t][KeyOf(vs[k])][pk] == vs[k])
      && (forall k :: 0 <= k < |vs| ==> ids[k] !in m.store[t])
      && (forall key :: key in store[t] && key !in Prefix(ids, |vs|) && key !in NewKeys(vs) ==>
            key in m.store[t] && m.store[t][key] == store[t][key])
      && m.store - {t} == store - {t}
      && m.post - {t} == post - {t}
      && (|vs| < |ids| ==> t in m.post && m.post[t] == post[t] - Prefix(ids, |vs|))
      && (|vs| == |ids| ==> t !in m.post)
  {
    assert post[t] - Prefix(ids, 0) == post[t];
    NonEmptyHasIds(ids, post[t]);
    CreateKeysFrom(post, store, post, store, t, pk, ids, vs, 0);
    assert NewKeys(vs)[..|vs|] == NewKeys(vs);
  }

  /** A create reply longer than the temporary ids throws once the table's entry is gone. */
  lemma CreateLongReplyThrows(post: Tables, store: Store, t: string, pk: string, ids: seq<string>, vs: seq<Value>)
    requires t in store && t in post && post[t] != map[] && KeyOrder(ids, post[t]) && FreshIds(vs, ids) && |vs| > |ids|
    ensures CreateKeys(post, store, t, pk, ids, vs, 0).halted
  {
    assert post[t] - Prefix(ids, 0) == post[t];
    NonEmptyHasIds(ids, post[t]);
    CreateKeysFrom(post, store, post, store, t, pk, ids, vs, 0);
  }

  /**
   * The DELETE list `ids` after the flags before index `k` were applied: the slot of each
   * id confirmed with flag 1 is a hole, every other slot still holds its id.
   */
  function Marked(ids: seq<string>, vs: seq<Value>, k: nat): (s: Slots)
    ensures |s| == |ids|
  {
    seq(|ids|, j requires 0 <= j < |ids| => if j < k && j < |vs| && LooseOne(vs[j]) then None else Some(ids[j]))
  }

  /** The ids a delete reply leaves pending, in their order: those without a flag 1. */
  function Kept(ids: seq<string>, vs: seq<Value>, i: nat): seq<string>
    decreases |ids| - i
  {
    if i >= |ids| then []
    else (if i < |vs| && LooseOne(vs[i]) then [] else [ids[i]]) + Kept(ids, vs, i + 1)
  }

  /** Some flag of the reply is not 1. */
  predicate SomeRefused(vs: seq<Value>) {
    exists j :: 0 <= j < |vs| && !LooseOne(vs[j])
  }

  /** With distinct ids, `indexOf` finds the id of index `k` at index `k` itself. */
  lemma FindsOwnSlot(ids: seq<string>, vs: seq<Value>, k: nat)
    requires Distinct(ids) && k < |ids|
    ensures FirstSlot(Marked(ids, vs, k), Some(ids[k])) == Some(k)
  {
    var s := Marked(ids, vs, k);
    var r := FirstSlot(s, Some(ids[k]));
    assert s[k] == Some(ids[k]);
  }

  /** The flags from index `k` on, one at a time: the closed form of the delete loop. */
  lemma {:induction false} DeleteKeysFrom(ids: seq<string>, vs: seq<Value>, k: nat, failed: bool)
    requires Distinct(ids) && |vs| <= |ids| && k <= |vs|
    requires !AllHoles(Marked(ids, vs, k))
    requires failed <==> exists j :: 0 <= j < k && !LooseOne(vs[j])
    ensures DeleteKeys(Marked(ids, vs, k), vs, k, failed)
      == if |vs| == |ids| && !SomeRefused(vs) then (None, false)
         else (Some(Marked(ids, vs, |vs|)), SomeRefused(vs))
    decreases |vs| - k
  {
    var s := Marked(ids, vs, k);
    if k == |vs| {
    } else if !LooseOne(vs[k]) {
      assert Marked(ids, vs, k + 1) == s;
      assert DeleteKeys(s, vs, k, failed) == DeleteKeys(s, vs, k + 1, true);
      DeleteKeysFrom(ids, vs, k + 1, true);
    } else {
      MarkOne(ids, vs, k);
      var s' := Marked(ids, vs, k + 1);
      if AllHoles(s') {
        EmptiedAtLast(ids, vs, k);
        assert DeleteKeys(s, vs, k, failed) == (None, FailsAfterEmpty(vs, k + 1, failed));
      } else {
        assert DeleteKeys(s, vs, k, failed) == DeleteKeys(s', vs, k + 1, failed);
        DeleteKeysFrom(ids, vs, k + 1, failed);
      }
    }
  }

  /** A flag 1 at index `k` makes a hole of slot `k`, the first holding `ids[k]`. */
  lemma MarkOne(ids: seq<string>, vs: seq<Value>, k: nat)
    requires Distinct(ids) && k < |vs| <= |ids| && LooseOne(vs[k])
    ensures var s := Marked(ids, vs, k);
      s[k] == Some(ids[k]) && FirstSlot(s, Some(ids[k])) == Some(k) && s[k := None] == Marked(ids, vs, k + 1)
  {
    FindsOwnSlot(ids, vs, k);
    assert Marked(ids, vs, k)[k := None] == Marked(ids, vs, k + 1);
  }

  /** The list empties only at the last flag, when there are as many flags as ids and all are 1. */
  lemma EmptiedAtLast(ids: seq<string>, vs: seq<Value>, k: nat)
    requires k < |vs| <= |ids| && AllHoles(Marked(ids, vs, k + 1))
    ensures k + 1 == |vs| == |ids| && !SomeRefused(vs)
  {
    var s' := Marked(ids, vs, k + 1);
    assert s'[|ids| - 1].None?;
    forall j | 0 <= j < |vs| ensures LooseOne(vs[j]) {
      assert s'[j].None?;
    }
  }

  /** Removing the holes of the marked list leaves exactly the ids without a flag 1. */
  lemma {:induction false} CompactMarked(ids: seq<string>, vs: seq<Value>, i: nat)
    requires i <= |ids|
    ensures Compact(Marked(ids, vs, |vs|)[i..]) == Kept(ids, vs, i)
    decreases |ids| - i
  {
    var s := Marked(ids, vs, |vs|);
    if i < |ids| {
      assert s[i..][1..] == s[i + 1..];
      CompactMarked(ids, vs, i + 1);
    }
  }

  /**
   * An array reply to a DELETE of a list of distinct ids, no longer than the list: the
   * ids flagged 1 leave the list, the others stay in order and make the phase fail. When
   * every id is confirmed the list goes, the table's entry with it, and the handler then
   * throws, as `Object.keys` is applied to the removed entry.
   */
  lemma DeleteReplyEffect(del: map<string, seq<string>>, t: string, vs: seq<Value>)
    requires t in del && |del[t]| > 0 && Distinct(del[t]) && |vs| <= |del[t]|
    ensures DeleteStep(del, DeleteAnswer(t, Items(vs)))
      == if |vs| == |del[t]| && !SomeRefused(vs) then (del - {t}, false, true)
         else (del[t := Kept(del[t], vs, 0)], SomeRefused(vs), false)
  {
    var ids := del[t];
    assert Marked(ids, vs, 0) == AsSlots(ids);
    assert Marked(ids, vs, 0)[0].Some?;
    DeleteKeysFrom(ids, vs, 0, false);
    CompactMarked(ids, vs, 0);
    assert Marked(ids, vs, |vs|)[0..] == Marked(ids, vs, |vs|);
  }

  /** Confirming every id of a list, one flag each, always throws. */
  lemma DeleteAllConfirmedThrows(del: map<string, seq<string>>, t: string, vs: seq<Value>)
    requires t in del && |del[t]| > 0 && Distinct(del[t]) && |vs| == |del[t]|
    requires forall j :: 0 <= j < |vs| ==> vs[j] == Num(1)
    ensures DeleteStep(del, DeleteAnswer(t, Items(vs))).2
    ensures DeleteStep(del, DeleteAnswer(t, Items(vs))).0 == del - {t}
  {
    DeleteReplyEffect(del, t, vs);
  }

  // ---------------------------------------------------------------- errors of a phase

  /** A create or update reply fails the phase when it is falsy. */
  predicate SomeFalsy(answers: seq<Answer>) {
    exists i :: 0 <= i < |answers| && !Truthy(answers[i].reply)
  }

  /** A delete reply fails the phase when it is `0` or an array with a flag other than 1. */
  predicate DeleteRefused(a: DeleteAnswer) {
    a.reply == Number(0) || (a.reply.Items? && SomeRefused(a.reply.vs))
  }

  lemma {:induction false} CreateAnswersFailed(post: Tables, store: Store, pk: string, answers: seq<Answer>)
    ensures var r := CreateAnswers(post, store, pk, answers);
      !r.halted ==> (r.failed <==> SomeFalsy(answers))
    decreases |answers|
  {
    if |answers| > 0 {
      var a := answers[0];
      var m := if a.reply.Items? then CreateKeys(post, store, a.table, pk, a.ids, a.reply.vs, 0) else Moved(post, store, false);
      if !m.halted {
        CreateAnswersFailed(m.post, m.store, pk, answers[1..]);
        assert forall i :: 1 <= i < |answers| ==> answers[i] == answers[1..][i - 1];
      }
    }
  }

  lemma {:induction false} UpdateAnswersFailed(put: Tables, answers: seq<Answer>)
    ensures var r := UpdateAnswers(put, answers);
      !r.2 ==> (r.1 <==> SomeFalsy(answers))
    decreases |answers|
  {
    if |answers| > 0 {
      var a := answers[0];
      var step := if a.reply.Items? then UpdateKeys(put, a.table, a.ids, |a.reply.vs|, 0) else (put, false);
      if !step.1 {
        UpdateAnswersFailed(step.0, answers[1..]);
        assert forall i :: 1 <= i < |answers| ==> answers[i] == answers[1..][i - 1];
      }
    }
  }

  /** A delete loop that ends with a list reads every flag: it failed iff one is not 1. */
  lemma {:induction false} DeleteKeysFailed(s: Slots, vs: seq<Value>, k: nat, failed: bool)
    ensures var r := DeleteKeys(s, vs, k, failed);
      r.0.Some? ==> (r.1 <==> failed || exists j :: k <= j < |vs| && !LooseOne(vs[j]))
    decreases |vs| - k
  {
    if k < |vs| {
      if !LooseOne(vs[k]) {
        DeleteKeysFailed(s, vs, k + 1, true);
      } else {
        var id := if k < |s| then s[k] else None;
        var s' := match FirstSlot(s, id) case None => s case Some(j) => s[j := None];
        if !AllHoles(s') {
          DeleteKeysFailed(s', vs, k + 1, failed);
        }
      }
    }
  }

  lemma DeleteStepFailed(del: map<string, seq<string>>, a: DeleteAnswer)
    ensures var r := DeleteStep(del, a);
      !r.2 ==> (r.1 <==> DeleteRefused(a))
  {
    if a.reply.Items? && a.table in del {
      DeleteKeysFailed(AsSlots(del[a.table]), a.reply.vs, 0, false);
    }
  }

  lemma {:induction false} DeleteAnswersFailed(del: map<string, seq<string>>, answers: seq<DeleteAnswer>)
    ensures var r := DeleteAnswers(del, answers);
      !r.2 ==> (r.1 <==> exists i :: 0 <= i < |answers| && DeleteRefused(answers[i]))
    decreases |answers|
  {
    if |answers| > 0 {
      var step := DeleteStep(del, answers[0]);
      DeleteStepFailed(del, answers[0]);
      if !step.2 {
        DeleteAnswersFailed(step.0, answers[1..]);
        assert forall i :: 1 <= i < |answers| ==> answers[i] == answers[1..][i - 1];
      }
    }
  }

  // ---------------------------------------------------------------- the state machine

  /**
   * The last status `oDeferred` was notified of, which decides what its progress handler
   * does next: `Start` runs the Create phase, `Created` the Update phase, `Updated` the
   * Delete phase, and `Deleted` resolves the submission. `Halted`: a handler threw, so
   * no further status is notified.
   */
  datatype Stage = Start | Created | Updated | Deleted | Halted

  /** The stages still to come, for termination. */
  function Remaining(s: Stage): nat {
    match s
    case Start => 3
    case Created => 2
    case Updated => 1
    case Deleted => 0
    case Halted => 0
  }

  /** How a submission ends: the success callback, the error callback with the failed phases, or neither. */
  datatype Outcome = Succeeded | Failed(phases: set<string>) | Stopped

  /** The callback chosen once the Delete phase has settled. */
  function Finish(errors: set<string>): (o: Outcome)
    ensures o.Failed? <==> errors != {}
    ensures o.Failed? ==> o.phases == errors
    ensures o != Stopped
  {
    if errors == {} then Succeeded else Failed(errors)
  }

  /** One turn of the progress handler: the phase the status starts, and the status it ends with. */
  function Advance(s: Stage, w: World, pk: string, creates: Settled<Answer>, updates: Settled<Answer>,
                   deletes: Settled<DeleteAnswer>): (next: (Stage, World))
    requires s != Deleted && s != Halted
    ensures Remaining(next.0) < Remaining(s)
  {
    var r := match s
      case Start => CreatePhase(w, pk, creates)
      case Created => UpdatePhase(w, pk, updates)
      case _ => DeletePhase(w, deletes);
    var after := match s case Start => Created case Created => Updated case _ => Deleted;
    (if r.halted then Halted else after, r.world)
  }

  /** The progress handler from status `s` on, until the submission resolves or a handler throws. */
  function RunFrom(s: Stage, w: World, pk: string, creates: Settled<Answer>, updates: Settled<Answer>,
                   deletes: Settled<DeleteAnswer>): (Stage, World)
    decreases Remaining(s)
  {
    if s == Deleted || s == Halted then (s, w)
    else
      var next := Advance(s, w, pk, creates, updates, deletes);
      RunFrom(next.0, next.1, pk, creates, updates, deletes)
  }

  /**
   * A whole submission: the final ledger and model data, and the outcome. With nothing
   * pending the success callback runs at once; otherwise the run starts with no errors.
   */
  function Submit(l: Ledger, store: Store, pk: string, creates: Settled<Answer>, updates: Settled<Answer>,
                  deletes: Settled<DeleteAnswer>): (Ledger, Store, Outcome)
  {
    if !Pending(l) then (l, store, Succeeded)
    else
      var end := RunFrom(Start, World(l, store, {}), pk, creates, updates, deletes);
      (end.1.ledger, end.1.store, if end.0 == Halted then Stopped else Finish(end.1.errors))
  }

  /** The Create phase records `Create`: it sent requests and was rejected or got a falsy reply. */
  predicate CreateFails(l: Ledger, input: Settled<Answer>) {
    l.post.Some? && HasEntries(l.post.value) && (input.Rejected? || SomeFalsy(input.answers))
  }

  predicate UpdateFails(l: Ledger, input: Settled<Answer>) {
    l.put.Some? && HasEntries(l.put.value) && (input.Rejected? || SomeFalsy(input.answers))
  }

  predicate DeleteFails(l: Ledger, input: Settled<DeleteAnswer>) {
    l.del.Some? && HasIds(l.del.value)
    && (input.Rejected? || exists i :: 0 <= i < |input.answers| && DeleteRefused(input.answers[i]))
  }

  /** The phases whose errors the error callback receives, from the ledger at the start. */
  function Reported(l: Ledger, creates: Settled<Answer>, updates: Settled<Answer>, deletes: Settled<DeleteAnswer>): set<string> {
    (if CreateFails(l, creates) then {"Create"} else {})
    + (if UpdateFails(l, updates) then {"Update"} else {})
    + (if DeleteFails(l, deletes) then {"Delete"} else {})
  }

  /** The Create phase adds at most its own name and touches neither the PUT bucket nor the DELETE lists. */
  lemma CreatePhaseEffect(w: World, pk: string, input: Settled<Answer>)
    ensures var r := CreatePhase(w, pk, input);
      r.world.ledger.put == w.ledger.put && r.world.ledger.del == w.ledger.del
      && (!r.halted ==> r.world.errors == w.errors + (if CreateFails(w.ledger, input) then {"Create"} else {}))
  {
    if w.ledger.post.Some? && HasEntries(w.ledger.post.value) && input.Resolved? {
      CreateAnswersFailed(StripKey(w.ledger.post.value, pk), w.store, pk, input.answers);
    }
  }

  /** The Update phase adds at most its own name and touches neither the model data nor the DELETE lists. */
  lemma UpdatePhaseEffect(w: World, pk: string, input: Settled<Answer>)
    ensures var r := UpdatePhase(w, pk, input);
      r.world.store == w.store && r.world.ledger.del == w.ledger.del
      && (!r.halted ==> r.world.errors == w.errors + (if UpdateFails(w.ledger, input) then {"Update"} else {}))
  {
    if w.ledger.put.Some? && HasEntries(w.ledger.put.value) && input.Resolved? {
      UpdateAnswersFailed(StripKey(w.ledger.put.value, pk), input.answers);
    }
  }

  /** The Delete phase adds at most its own name and touches neither the model data nor the POST and PUT buckets. */
  lemma DeletePhaseEffect(w: World, input: Settled<DeleteAnswer>)
    ensures var r := DeletePhase(w, input);
      r.world.store == w.store && r.world.ledger.post == w.ledger.post && r.world.ledger.put == w.ledger.put
      && (!r.halted ==> r.world.errors == w.errors + (if DeleteFails(w.ledger, input) then {"Delete"} else {}))
  {
    if w.ledger.del.Some? && HasIds(w.ledger.del.value) && input.Resolved? {
      DeleteAnswersFailed(w.ledger.del.value, input.answers);
    }
  }

  /** With nothing pending, `submitChanges` calls the success callback at once and changes nothing. */
  lemma SubmitIdle(l: Ledger, store: Store, pk: string, creates: Settled<Answer>, updates: Settled<Answer>,
                   deletes: Settled<DeleteAnswer>)
    requires !Pending(l)
    ensures Submit(l, store, pk, creates, updates, deletes) == (l, store, Succeeded)
    ensures Reported(l, creates, updates, deletes) == {}
  {
  }

  /** `Submit` once something is pending, written with the three phase results. */
  lemma SubmitPhases(l: Ledger, store: Store, pk: string, creates: Settled<Answer>, updates: Settled<Answer>,
                     deletes: Settled<DeleteAnswer>, r1: Run, r2: Run, r3: Run)
    requires Pending(l)
    requires r1 == CreatePhase(World(l, store, {}), pk, creates)
    requires r2 == UpdatePhase(r1.world, pk, updates)
    requires r3 == DeletePhase(r2.world, deletes)
    ensures var o := Submit(l, store, pk, creates, updates, deletes).2;
      o == if r1.halted || r2.halted || r3.halted then Stopped else Finish(r3.world.errors)
  {
    var w0 := World(l, store, {});
    var end := RunFrom(Start, w0, pk, creates, updates, deletes);
    assert Advance(Start, w0, pk, creates, updates, deletes) == (if r1.halted then Halted else Created, r1.world);
    if r1.halted {
      assert end == (Halted, r1.world);
    } else {
      assert end == RunFrom(Created, r1.world, pk, creates, updates, deletes);
      assert Advance(Created, r1.world, pk, creates, updates, deletes) == (if r2.halted then Halted else Updated, r2.world);
      if r2.halted {
        assert end == (Halted, r2.world);
      } else {
        assert end == RunFrom(Updated, r2.world, pk, creates, updates, deletes);
        assert Advance(Updated, r2.world, pk, creates, updates, deletes) == (if r3.halted then Halted else Deleted, r3.world);
        assert end == (if r3.halted then Halted else Deleted, r3.world);
      }
    }
  }

  /** The errors of three phases that did not throw are the names `Reported` gives. */
  lemma PhasesReport(l: Ledger, store: Store, pk: string, creates: Settled<Answer>, updates: Settled<Answer>,
                     deletes: Settled<DeleteAnswer>, r1: Run, r2: Run, r3: Run)
    requires r1 == CreatePhase(World(l, store, {}), pk, creates)
    requires r2 == UpdatePhase(r1.world, pk, updates)
    requires r3 == DeletePhase(r2.world, deletes)
    requires !r1.halted && !r2.halted && !r3.halted
    ensures r3.world.errors == Reported(l, creates, updates, deletes)
  {
    CreatePhaseEffect(World(l, store, {}), pk, creates);
    UpdatePhaseEffect(r1.world, pk, updates);
    DeletePhaseEffect(r2.world, deletes);
    assert UpdateFails(r1.world.ledger, updates) == UpdateFails(l, updates);
    assert DeleteFails(r2.world.ledger, deletes) == DeleteFails(l, deletes);
  }

  /**
   * A submission that is not stopped by a TypeError calls the error callback exactly
   * when some phase failed, with the names of exactly those phases, and the success
   * callback otherwise.
   */
  lemma SubmitOutcome(l: Ledger, store: Store, pk: string, creates: Settled<Answer>, updates: Settled<Answer>,
                      deletes: Settled<DeleteAnswer>)
    requires Pending(l)
    ensures var o := Submit(l, store, pk, creates, updates, deletes).2;
      o != Stopped ==> o == Finish(Reported(l, creates, updates, deletes))
  {
    var r1 := CreatePhase(World(l, store, {}), pk, creates);
    var r2 := UpdatePhase(r1.world, pk, updates);
    var r3 := DeletePhase(r2.world, deletes);
    SubmitPhases(l, store, pk, creates, updates, deletes, r1, r2, r3);
    if !r1.halted && !r2.halted && !r3.halted {
      PhasesReport(l, store, pk, creates, updates, deletes, r1, r2, r3);
    }
  }

  lemma StripOneRow(row: Row)
    requires row == map["name" := Str("Ann"), "id" := Num(123)]
    ensures StripKey(map["Users" := map["123" := row]], "id") == map["Users" := map["123" := map["name" := Str("Ann")]]]
  {
    var post := StripKey(map["Users" := map["123" := row]], "id");
    assert row - {"id"} == map["name" := Str("Ann")];
    assert post.Keys == {"Users"};
    assert post["Users"].Keys == {"123"};
    assert post["Users"]["123"] == row - {"id"};
    assert post["Users"] == map["123" := map["name" := Str("Ann")]];
  }

  lemma MoveOneRow(post: Tables, store: Store, row: Row)
    requires row == map["name" := Str("Ann"), "id" := Num(123)]
    requires post == map["Users" := map["123" := map["name" := Str("Ann")]]]
    requires store == map["Users" := map["123" := row], "Orders" := map["7" := map[]]]
    ensures CreateAnswers(post, store, "id", [Answer("Users", ["123"], Items([Num(42)]))])
      == CreateRun(map[], map["Users" := map["42" := map["name" := Str("Ann"), "id" := Num(42)]], "Orders" := map["7" := map[]]], false, false)
  {
    var store' := map["Users" := map["42" := map["name" := Str("Ann"), "id" := Num(42)]], "Orders" := map["7" := map[]]];
    MoveOneKey(post, store, store', row);
    assert [Answer("Users", ["123"], Items([Num(42)]))][1..] == [];
  }

  /** The create loop of the scenario, for its one reply value. */
  lemma MoveOneKey(post: Tables, store: Store, store': Store, row: Row)
    requires row == map["name" := Str("Ann"), "id" := Num(123)]
    requires post == map["Users" := map["123" := map["name" := Str("Ann")]]]
    requires store == map["Users" := map["123" := row], "Orders" := map["7" := map[]]]
    requires store' == map["Users" := map["42" := map["name" := Str("Ann"), "id" := Num(42)]], "Orders" := map["7" := map[]]]
    ensures CreateKeys(post, store, "Users", "id", ["123"], [Num(42)], 0) == Moved(map[], store', false)
  {
    Key42();
    var moved := RowAt(store["Users"], "123")["id" := Num(42)];
    assert moved == map["name" := Str("Ann"), "id" := Num(42)];
    MovedStore(store, moved);
    EmptiedPost(post);
    assert CreateKeys(post, store, "Users", "id", ["123"], [Num(42)], 0)
      == CreateKeys(map[], store', "Users", "id", ["123"], [Num(42)], 1);
  }

  lemma Key42()
    ensures KeyOf(Num(42)) == "42"
  {
    assert NatToString(42) == NatToString(4) + [DigitChar(2)];
  }

  lemma EmptiedPost(post: Tables)
    requires post == map["Users" := map["123" := map["name" := Str("Ann")]]]
    ensures post["Users"] - {"123"} == map[] && post - {"Users"} == map[]
  {
    assert post["Users"] - {"123"} == map[];
  }

  lemma MovedStore(store: Store, moved: Row)
    requires store.Keys == {"Users", "Orders"} && store["Users"].Keys == {"123"} && store["Orders"] == map["7" := map[]]
    ensures store["Users" := (store["Users"] - {"123"})["42" := moved]] == map["Users" := map["42" := moved], "Orders" := map["7" := map[]]]
  {
    assert store["Users"] - {"123"} == map[];
  }

  /**
   * One pending create that succeeds and a pending delete on another table whose phase
   * is rejected: the error callback receives `Delete` only, the POST bucket is empty, the
   * DELETE list is still there, and the created row sits under its server id.
   */
  lemma CreateSucceedsDeleteRejected()
    ensures var row := map["name" := Str("Ann"), "id" := Num(123)];
      var l := Ledger(Some(map["Users" := map["123" := row]]), None, Some(map["Orders" := ["7"]]));
      var store := map["Users" := map["123" := row], "Orders" := map["7" := map[]]];
      var r := Submit(l, store, "id", Resolved([Answer("Users", ["123"], Items([Num(42)]))]), Rejected, Rejected);
      r.2 == Failed({"Delete"})
      && r.0 == Ledger(Some(map[]), None, Some(map["Orders" := ["7"]]))
      && r.1 == map["Users" := map["42" := map["name" := Str("Ann"), "id" := Num(42)]], "Orders" := map["7" := map[]]]
  {
    var row := map["name" := Str("Ann"), "id" := Num(123)];
    var l := Ledger(Some(map["Users" := map["123" := row]]), None, Some(map["Orders" := ["7"]]));
    var store := map["Users" := map["123" := row], "Orders" := map["7" := map[]]];
    var creates := Resolved([Answer("Users", ["123"], Items([Num(42)]))]);
    var store' := map["Users" := map["42" := map["name" := Str("Ann"), "id" := Num(42)]], "Orders" := map["7" := map[]]];
    var l' := Ledger(Some(map[]), None, Some(map["Orders" := ["7"]]));
    assert "123" in l.post.value["Users"];
    assert Pending(l);
    ScenarioCreatePhase(row, l, store, store');
    assert RunFrom(Start, World(l, store, {}), "id", creates, Rejected, Rejected)
      == RunFrom(Created, World(l', store', {}), "id", creates, Rejected, Rejected);
    ScenarioLaterPhases(l', store', creates);
  }

  /** The scenario's Create phase: the row moves to the server id and the POST bucket empties. */
  lemma ScenarioCreatePhase(row: Row, l: Ledger, store: Store, store': Store)
    requires row == map["name" := Str("Ann"), "id" := Num(123)]
    requires l == Ledger(Some(map["Users" := map["123" := row]]), None, Some(map["Orders" := ["7"]]))
    requires store == map["Users" := map["123" := row], "Orders" := map["7" := map[]]]
    requires store' == map["Users" := map["42" := map["name" := Str("Ann"), "id" := Num(42)]], "Orders" := map["7" := map[]]]
    ensures CreatePhase(World(l, store, {}), "id", Resolved([Answer("Users", ["123"], Items([Num(42)]))]))
      == Run(World(l.(post := Some(map[])), store', {}), false)
  {
    assert "123" in l.post.value["Users"];
    assert HasEntries(l.post.value);
    StripOneRow(row);
    MoveOneRow(StripKey(l.post.value, "id"), store, row);
  }

  /** The scenario after the Create phase: nothing to update, and the Delete phase is rejected. */
  lemma ScenarioLaterPhases(l: Ledger, store: Store, creates: Settled<Answer>)
    requires l == Ledger(Some(map[]), None, Some(map["Orders" := ["7"]]))
    ensures RunFrom(Created, World(l, store, {}), "id", creates, Rejected, Rejected)
      == (Deleted, World(l, store, {"Delete"}))
  {
    assert HasIds(l.del.value) by { assert "Orders" in l.del.value; }
    assert UpdatePhase(World(l, store, {}), "id", Rejected) == Run(World(l, store, {}), false);
    assert DeletePhase(World(l, store, {}), Rejected) == Run(World(l, store, {"Delete"}), false);
  }
}

/**
 * Schema ingestion: `_static.parseMetadataToColumndata`, which turns the API's route
 * description into the table -> column-list registry, and
 * `_static.generateCreateByMetadata`, which shapes a new row to the known columns.
 */
module Metadata {
  import opened Wrappers
  import opened JsValues
  import opened Strings
  import opened PathParser

  /**
   * `post.parameters[0]` of a route: an object whose `schema.properties` has the given
   * keys (in `Object.keys` order), an object without them or `null` (reading
   * `schema.properties` then throws), or a value that is not an object.
   */
  datatype Parameter = Schema(properties: seq<string>) | Malformed | NotAnObject

  /**
   * The `post` member of a route: an object, whose `parameters` is `None` when the key is
   * absent, or `null` or a primitive (`"parameters" in` it throws).
   */
  datatype PostOp = PostOp(parameters: Option<seq<Parameter>>) | ScalarPost

  /**
   * A route: an object, whose `post` is `None` when the key is absent, or `null` or a
   * primitive (`"post" in` it throws).
   */
  datatype Route = Route(post: Option<PostOp>) | ScalarRoute

  /**
   * The metadata reply: an object with its `paths` object as (path, route) pairs in key
   * order, if present; or `null` or a primitive (`"paths" in` it throws).
   */
  datatype MetadataDoc = MetadataDoc(paths: Option<seq<(string, Route)>>) | ScalarDoc

  /** What `parseMetadataToColumndata` gives: `undefined`, `null`, the registry, or a thrown TypeError. */
  datatype ColumnData = Undefined | NullColumns | Columns(tables: map<string, seq<string>>) | TypeError

  /** How one route is treated by the `$.each` callback. */
  datatype RouteUse = Skip | Contribute(table: string, props: seq<string>) | Throws

  /** The first index of `x` in `s` (`indexOf`), `None` for -1. */
  function Find(s: seq<string>, x: string): (r: Option<nat>)
    ensures r.None? <==> x !in s
    ensures r.Some? ==> r.value < |s| && s[r.value] == x && x !in s[..r.value]
  {
    if |s| == 0 then None
    else if s[0] == x then Some(0)
    else
      match Find(s[1..], x)
      case None => None
      case Some(k) =>
        assert s[..k + 1] == [s[0]] + s[1..][..k];
        Some(k + 1)
  }

  /**
   * Routes with an id, without `post.parameters`, or whose first parameter is not an
   * object are skipped; a route or `post` that is not an object throws.
   */
  function Classify(key: string, route: Route): RouteUse {
    var p := ParsePath(key);
    if p.id != "" then Skip
    else if route.ScalarRoute? then Throws
    else if route.post.None? then Skip
    else if route.post.value.ScalarPost? then Throws
    else if route.post.value.parameters.None? then Skip
    else
      var ps := route.post.value.parameters.value;
      if |ps| == 0 then Skip
      else
        match ps[0]
        case NotAnObject => Skip
        case Malformed => Throws
        case Schema(props) => Contribute(p.table, props)
  }

  /** `delete list[indexOf(pk)]` followed by `filter`: the list without the primary key. */
  function WithoutKey(props: seq<string>, pk: string): (r: seq<string>)
    requires pk in props
    ensures |r| == |props| - 1
    ensures forall c :: c in r ==> c in props
    ensures forall c :: c in props && c != pk ==> c in r
    ensures Distinct(props) ==> pk !in r
    ensures exists i :: 0 <= i < |props| && props[i] == pk && pk !in props[..i] && r == props[..i] + props[i + 1..]
  {
    var i := Find(props, pk).value;
    assert props == props[..i] + [pk] + props[i + 1..];
    props[..i] + props[i + 1..]
  }


  /** One contributing route: the table gets the columns without the key, or is dropped. */
  function Store(acc: map<string, seq<string>>, t: string, props: seq<string>, pk: string): map<string, seq<string>> {
    if pk in props then acc[t := WithoutKey(props, pk)] else acc - {t}
  }

  /** The `$.each` loop over `paths`, from the registry built so far; `None` when a route throws. */
  function Collect(acc: map<string, seq<string>>, pk: string, paths: seq<(string, Route)>): Option<map<string, seq<string>>>
    decreases |paths|
  {
    if |paths| == 0 then Some(acc)
    else
      match Classify(paths[0].0, paths[0].1)
      case Skip => Collect(acc, pk, paths[1..])
      case Throws => None
      case Contribute(t, props) => Collect(Store(acc, t, props, pk), pk, paths[1..])
  }

  /** `_static.parseMetadataToColumndata`, with the primary key name `pk`. */
  function ParseMetadataToColumndata(doc: MetadataDoc, pk: string): (r: ColumnData)
    ensures r.Undefined? <==> doc.MetadataDoc? && doc.paths.None?
    ensures doc.ScalarDoc? ==> r.TypeError?
    ensures r.Columns? ==> r.tables != map[]
  {
    match doc
    case ScalarDoc => TypeError
    case MetadataDoc(None) => Undefined
    case MetadataDoc(Some(paths)) =>
      match Collect(map[], pk, paths)
      case None => TypeError
      case Some(m) => if m == map[] then NullColumns else Columns(m)
  }

  /** Running the loop over two parts of `paths` in turn is running it over all of them. */
  lemma {:induction false} CollectAppend(acc: map<string, seq<string>>, pk: string, a: seq<(string, Route)>, b: seq<(string, Route)>)
    ensures Collect(acc, pk, a + b)
      == (match Collect(acc, pk, a) case None => None case Some(m) => Collect(m, pk, b))
    decreases |a|
  {
    if |a| == 0 {
      assert a + b == b;
    } else {
      assert (a + b)[0] == a[0];
      assert (a + b)[1..] == a[1..] + b;
      match Classify(a[0].0, a[0].1)
      case Skip => CollectAppend(acc, pk, a[1..], b);
      case Throws =>
      case Contribute(t, props) => CollectAppend(Store(acc, t, props, pk), pk, a[1..], b);
    }
  }

  /** The routes in `b` neither throw nor describe table `t`. */
  predicate Unrelated(b: seq<(string, Route)>, t: string) {
    forall j :: 0 <= j < |b| ==> Leaves(Classify(b[j].0, b[j].1), t)
  }

  predicate Leaves(u: RouteUse, t: string) {
    u.Skip? || (u.Contribute? && u.table != t)
  }

  /** Routes that do not describe `t` leave its entry as it was. */
  lemma {:induction false} CollectUnrelated(acc: map<string, seq<string>>, pk: string, t: string, b: seq<(string, Route)>)
    requires Unrelated(b, t)
    ensures Collect(acc, pk, b).Some?
    ensures t in Collect(acc, pk, b).value <==> t in acc
    ensures t in acc ==> Collect(acc, pk, b).value[t] == acc[t]
    decreases |b|
  {
    if |b| > 0 {
      assert Unrelated(b[1..], t) by {
        forall j | 0 <= j < |b[1..]| ensures b[1..][j] == b[j + 1] { }
      }
      match Classify(b[0].0, b[0].1)
      case Skip => CollectUnrelated(acc, pk, t, b[1..]);
      case Contribute(u, props) => CollectUnrelated(Store(acc, u, props, pk), pk, t, b[1..]);
    }
  }

  /**
   * The last route that describes a table decides its entry: the table is kept iff that
   * route's properties hold the primary key, and then its columns are those properties
   * without the key, in order.
   */
  lemma LastRouteDecides(a: seq<(string, Route)>, key: string, route: Route, b: seq<(string, Route)>, pk: string)
    requires Collect(map[], pk, a).Some?
    requires Classify(key, route).Contribute?
    requires Unrelated(b, Classify(key, route).table)
    ensures var t := Classify(key, route).table;
      var props := Classify(key, route).props;
      var r := Collect(map[], pk, a + [(key, route)] + b);
      r.Some? && (t in r.value <==> pk in props) && (pk in props ==> r.value[t] == WithoutKey(props, pk))
  {
    var t := Classify(key, route).table;
    var props := Classify(key, route).props;
    var m := Collect(map[], pk, a).value;
    var x := [(key, route)];
    CollectAppend(map[], pk, a + x, b);
    CollectAppend(map[], pk, a, x);
    assert x[1..] == [];
    var m' := Store(m, t, props, pk);
    assert Collect(m, pk, x) == Some(m');
    CollectUnrelated(m', pk, t, b);
  }

  /** The loop throws iff some route it reaches has a non-schema object as its first parameter. */
  lemma {:induction false} CollectThrows(acc: map<string, seq<string>>, pk: string, paths: seq<(string, Route)>)
    ensures Collect(acc, pk, paths).None? <==> exists j :: 0 <= j < |paths| && Classify(paths[j].0, paths[j].1).Throws?
    decreases |paths|
  {
    if |paths| > 0 {
      var u := Classify(paths[0].0, paths[0].1);
      var next := if u.Contribute? then Store(acc, u.table, u.props, pk) else acc;
      CollectThrows(next, pk, paths[1..]);
      if exists j :: 0 <= j < |paths[1..]| && Classify(paths[1..][j].0, paths[1..][j].1).Throws? {
        var j :| 0 <= j < |paths[1..]| && Classify(paths[1..][j].0, paths[1..][j].1).Throws?;
        assert paths[1..][j] == paths[j + 1];
      }
      if exists j :: 0 <= j < |paths| && Classify(paths[j].0, paths[j].1).Throws? {
        var j :| 0 <= j < |paths| && Classify(paths[j].0, paths[j].1).Throws?;
        if j > 0 {
          assert paths[1..][j - 1] == paths[j];
        }
      }
    }
  }

  /** Every route that contributes lists each property once (as `Object.keys` does). */
  predicate KeysDistinct(paths: seq<(string, Route)>) {
    forall j :: 0 <= j < |paths| && Classify(paths[j].0, paths[j].1).Contribute? ==>
      Distinct(Classify(paths[j].0, paths[j].1).props)
  }

  /** No column list in the registry holds the primary key. */
  lemma {:induction false} CollectDropsKey(acc: map<string, seq<string>>, pk: string, paths: seq<(string, Route)>)
    requires forall t :: t in acc ==> pk !in acc[t]
    requires KeysDistinct(paths)
    ensures Collect(acc, pk, paths).Some? ==>
      forall t :: t in Collect(acc, pk, paths).value ==> pk !in Collect(acc, pk, paths).value[t]
    decreases |paths|
  {
    if |paths| > 0 {
      assert KeysDistinct(paths[1..]) by {
        forall j | 0 <= j < |paths[1..]| ensures paths[1..][j] == paths[j + 1] { }
      }
      match Classify(paths[0].0, paths[0].1)
      case Skip => CollectDropsKey(acc, pk, paths[1..]);
      case Throws =>
      case Contribute(t, props) => CollectDropsKey(Store(acc, t, props, pk), pk, paths[1..]);
    }
  }

  /** The registry never lists the primary key as a column. */
  lemma RegistryOmitsKey(doc: MetadataDoc, pk: string)
    requires doc.MetadataDoc? && doc.paths.Some? && KeysDistinct(doc.paths.value)
    ensures var r := ParseMetadataToColumndata(doc, pk);
      r.Columns? ==> forall t :: t in r.tables ==> pk !in r.tables[t]
  {
    CollectDropsKey(map[], pk, doc.paths.value);
  }

  /**
   * A collection route and its item route: the item route is skipped whatever it
   * holds, and the collection keeps its columns without the key.
   */
  lemma CollectionWithItemRoute(t: string, i: string, props: seq<string>, pk: string, item: Route)
    requires t != "" && '/' !in t && '\'' !in t
    requires i != "" && '/' !in i && '\'' !in i
    requires pk in props
    ensures ParseMetadataToColumndata(MetadataDoc(Some([
        ("/" + t, Route(Some(PostOp(Some([Schema(props)]))))),
        ("/" + t + "/" + i, item)])), pk)
      == Columns(map[t := WithoutKey(props, pk)])
  {
    ClassifyCollection(t, props);
    ClassifyItem(t, i, item);
    ContributeThenSkip("/" + t, Route(Some(PostOp(Some([Schema(props)])))), "/" + t + "/" + i, item, pk);
  }

  lemma ContributeThenSkip(k1: string, r1: Route, k2: string, r2: Route, pk: string)
    requires Classify(k1, r1).Contribute? && pk in Classify(k1, r1).props
    requires Classify(k2, r2).Skip?
    ensures ParseMetadataToColumndata(MetadataDoc(Some([(k1, r1), (k2, r2)])), pk)
      == Columns(map[Classify(k1, r1).table := WithoutKey(Classify(k1, r1).props, pk)])
  {
    var u := Classify(k1, r1);
    var m := map[u.table := WithoutKey(u.props, pk)];
    CollectContributeSkip(k1, r1, k2, r2, pk);
    assert u.table in m;
    ColumnsOfCollect([(k1, r1), (k2, r2)], pk, m);
  }

  lemma CollectContributeSkip(k1: string, r1: Route, k2: string, r2: Route, pk: string)
    requires Classify(k1, r1).Contribute?
    requires Classify(k2, r2).Skip?
    ensures Collect(map[], pk, [(k1, r1), (k2, r2)]) == Some(Store(map[], Classify(k1, r1).table, Classify(k1, r1).props, pk))
  {
    var u := Classify(k1, r1);
    var m := Store(map[], u.table, u.props, pk);
    CollectAppend(map[], pk, [(k1, r1)], [(k2, r2)]);
    CollectSingle(k1, r1, pk);
    CollectSkipSingle(k2, r2, pk, m);
    assert [(k1, r1)] + [(k2, r2)] == [(k1, r1), (k2, r2)];
  }

  lemma ColumnsOfCollect(paths: seq<(string, Route)>, pk: string, m: map<string, seq<string>>)
    requires Collect(map[], pk, paths) == Some(m) && m != map[]
    ensures ParseMetadataToColumndata(MetadataDoc(Some(paths)), pk) == Columns(m)
  {
  }

  lemma CollectSingle(k1: string, r1: Route, pk: string)
    requires Classify(k1, r1).Contribute?
    ensures Collect(map[], pk, [(k1, r1)]) == Some(Store(map[], Classify(k1, r1).table, Classify(k1, r1).props, pk))
  {
    assert [(k1, r1)][1..] == [];
  }

  lemma CollectSkipSingle(k2: string, r2: Route, pk: string, m: map<string, seq<string>>)
    requires Classify(k2, r2).Skip?
    ensures Collect(m, pk, [(k2, r2)]) == Some(m)
  {
    assert [(k2, r2)][1..] == [];
  }

  lemma ClassifyCollection(t: string, props: seq<string>)
    requires t != "" && '/' !in t && '\'' !in t
    ensures Classify("/" + t, Route(Some(PostOp(Some([Schema(props)]))))) == Contribute(t, props)
  {
    ParseTablePath(t);
  }

  lemma ClassifyItem(t: string, i: string, item: Route)
    requires '/' !in t && '\'' !in t && i != "" && '/' !in i && '\'' !in i
    ensures Classify("/" + t + "/" + i, item) == Skip
  {
    ParseTableIdPath(t, i, "");
    assert "/" + t + "/" + i + "" == "/" + t + "/" + i;
  }

  /** A column value of a new row: the caller's value when truthy, `""` otherwise. */
  function FillValue(data: Row, c: string): Value {
    if c in data && !Falsy(data[c]) then data[c] else Str("")
  }

  /**
   * `_static.generateCreateByMetadata`. `data` is `None` for `undefined`. With a known,
   * non-empty column list the payload has exactly those columns; otherwise the payload
   * is passed through.
   */
  function GenerateCreateByMetadata(columns: map<string, seq<string>>, t: string, data: Option<Row>): (r: Row)
    ensures t in columns && |columns[t]| > 0 ==>
      (forall c :: c in r <==> c in columns[t])
      && (forall c :: c in r ==> r[c] == (if c in data.GetOr(map[]) && !Falsy(data.GetOr(map[])[c]) then data.GetOr(map[])[c] else Str("")))
    ensures !(t in columns && |columns[t]| > 0) ==> r == data.GetOr(map[])
  {
    var d := data.GetOr(map[]);
    if t in columns && |columns[t]| > 0 then
      map c | c in columns[t] :: FillValue(d, c)
    else d
  }

  /** Shaping a shaped payload again changes nothing. */
  lemma GenerateIdempotent(columns: map<string, seq<string>>, t: string, data: Option<Row>)
    ensures var once := GenerateCreateByMetadata(columns, t, data);
      GenerateCreateByMetadata(columns, t, Some(once)) == once
  {
  }
}

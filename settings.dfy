/**
 * The settings of a model (`_mSettings`): the magic setter `_static._set`, the
 * constructor's parameter filter and merge with the defaults, and the URL that
 * `_serviceCall` assembles from the service URL, its parameters and the call's path.
 */
module Settings {
  import opened Wrappers
  import opened JsValues
  import opened Strings

  /**
   * A setting's value: a string, a boolean, a number, an object of URL parameters, `null`
   * or `undefined`.
   */
  datatype Setting = Text(s: string) | Flag(b: bool) | Number(n: int) | Params(entries: seq<(string, Value)>) | NullSetting | UndefinedSetting

  /** `_mSettings`: setting name -> value. */
  type SettingsMap = map<string, Setting>

  /** `typeof` of a setting's value. */
  function TypeOf(v: Setting): string {
    match v
    case Text(_) => "string"
    case Flag(_) => "boolean"
    case Number(_) => "number"
    case Params(_) => "object"
    case NullSetting => "object"
    case UndefinedSetting => "undefined"
  }

  /** `mDefaultParameters`. */
  function Defaults(): SettingsMap {
    map[
      "bindingMode" := Text("TwoWay"),
      "password" := Text(""),
      "primaryKey" := Text("id"),
      "serviceUrl" := Text(""),
      "serviceUrlParams" := Params([]),
      "useBatch" := Flag(false),
      "user" := Text("")
    ]
  }

  /** Whether the object already has key `k`. */
  predicate HasKey(entries: seq<(string, Value)>, k: string) {
    exists j :: 0 <= j < |entries| && entries[j].0 == k
  }

  /** Key `a` is listed before key `b`: `a` is an array index, and `b` is not or is larger. */
  predicate Precedes(a: string, b: string) {
    IsIndexKey(a) && (!IsIndexKey(b) || DigitsValue(a) < DigitsValue(b))
  }

  /**
   * Assigning `k` on an object: an existing key keeps its place and takes the new value;
   * a new array index goes before the first key it precedes; any other new key goes last.
   */
  function Put(entries: seq<(string, Value)>, k: string, v: Value): (r: seq<(string, Value)>)
    ensures (k, v) in r
    ensures forall e :: e in r ==> e == (k, v) || e in entries
    ensures forall e :: e in entries && e.0 != k ==> e in r
  {
    if |entries| == 0 then [(k, v)]
    else if entries[0].0 == k then [(k, v)] + entries[1..]
    else if Precedes(k, entries[0].0) && !HasKey(entries, k) then [(k, v)] + entries
    else
      var rest := Put(entries[1..], k, v);
      assert forall e :: e in entries && e != entries[0] ==> e in entries[1..];
      [entries[0]] + rest
  }

  /** No key occurs twice, as in an object. */
  predicate UniqueKeys(entries: seq<(string, Value)>) {
    forall i, j :: 0 <= i < j < |entries| ==> entries[i].0 != entries[j].0
  }

  /** The order in which an object lists its keys: an array index only after smaller indices. */
  predicate ObjectOrder(entries: seq<(string, Value)>) {
    forall i, j :: 0 <= i < j < |entries| && IsIndexKey(entries[j].0) ==> Precedes(entries[i].0, entries[j].0)
  }

  /** On an object, `Put` leaves `k` with the one value `v` and keeps keys unique. */
  lemma {:induction false} PutUnique(entries: seq<(string, Value)>, k: string, v: Value)
    requires UniqueKeys(entries)
    ensures UniqueKeys(Put(entries, k, v))
    ensures forall e :: e in Put(entries, k, v) && e.0 == k ==> e == (k, v)
    decreases |entries|
  {
    if |entries| > 0 {
      if entries[0].0 == k {
        forall e | e in entries[1..] ensures e.0 != k {
          var j :| 0 <= j < |entries[1..]| && entries[1..][j] == e;
          assert entries[j + 1] == e;
        }
      } else if Precedes(k, entries[0].0) && !HasKey(entries, k) {
      } else {
        assert UniqueKeys(entries[1..]) by {
          forall i, j | 0 <= i < j < |entries[1..]| ensures entries[1..][i].0 != entries[1..][j].0 {
            assert entries[1..][i] == entries[i + 1] && entries[1..][j] == entries[j + 1];
          }
        }
        PutUnique(entries[1..], k, v);
        var rest := Put(entries[1..], k, v);
        forall j | 0 <= j < |rest| ensures rest[j].0 != entries[0].0 {
          assert rest[j] in rest;
          if rest[j] != (k, v) {
            var i :| 0 <= i < |entries[1..]| && entries[1..][i] == rest[j];
            assert entries[i + 1] == rest[j];
          }
        }
      }
    }
  }

  /** On an object, `Put` keeps the keys in the order an object lists them. */
  lemma {:induction false} PutOrdered(entries: seq<(string, Value)>, k: string, v: Value)
    requires UniqueKeys(entries) && ObjectOrder(entries)
    ensures ObjectOrder(Put(entries, k, v))
    decreases |entries|
  {
    if |entries| == 0 {
    } else if entries[0].0 == k {
      OverwriteOrdered(entries, v);
    } else if Precedes(k, entries[0].0) && !HasKey(entries, k) {
      InsertOrdered(entries, k, v);
    } else {
      TailOrdered(entries);
      PutOrdered(entries[1..], k, v);
      var rest := Put(entries[1..], k, v);
      assert Put(entries, k, v) == [entries[0]] + rest;
      PassedKeyFollows(entries, k);
      HeadPrecedesRest(entries, k, v);
      ConsOrdered(entries[0], rest);
    }
  }

  /** Overwriting the first key's value keeps an object's order. */
  lemma OverwriteOrdered(entries: seq<(string, Value)>, v: Value)
    requires |entries| > 0 && ObjectOrder(entries)
    ensures ObjectOrder([(entries[0].0, v)] + entries[1..])
  {
    var r := [(entries[0].0, v)] + entries[1..];
    assert forall i :: 0 <= i < |r| ==> r[i].0 == entries[i].0;
  }

  /** The first key of an ordered object precedes every array index `Put` leaves after it. */
  lemma HeadPrecedesRest(entries: seq<(string, Value)>, k: string, v: Value)
    requires |entries| > 0 && ObjectOrder(entries)
    requires IsIndexKey(k) ==> Precedes(entries[0].0, k)
    ensures var rest := Put(entries[1..], k, v);
      forall j :: 0 <= j < |rest| && IsIndexKey(rest[j].0) ==> Precedes(entries[0].0, rest[j].0)
  {
    var rest := Put(entries[1..], k, v);
    forall j | 0 <= j < |rest| && IsIndexKey(rest[j].0) ensures Precedes(entries[0].0, rest[j].0) {
      assert rest[j] in rest;
      if rest[j] != (k, v) {
        var m :| 0 <= m < |entries[1..]| && entries[1..][m] == rest[j];
        assert entries[m + 1] == rest[j];
      }
    }
  }

  /** An array index that `Put` passes over is preceded by the first key. */
  lemma PassedKeyFollows(entries: seq<(string, Value)>, k: string)
    requires |entries| > 0 && ObjectOrder(entries) && entries[0].0 != k
    requires !(Precedes(k, entries[0].0) && !HasKey(entries, k))
    ensures IsIndexKey(k) ==> Precedes(entries[0].0, k)
  {
    if IsIndexKey(k) && HasKey(entries, k) {
      var m :| 0 <= m < |entries| && entries[m].0 == k;
    }
  }

  /** A new array index put before an ordered object's first key it precedes keeps it ordered. */
  lemma InsertOrdered(entries: seq<(string, Value)>, k: string, v: Value)
    requires |entries| > 0 && ObjectOrder(entries) && Precedes(k, entries[0].0)
    ensures ObjectOrder([(k, v)] + entries)
  {
    forall j | 0 <= j < |entries| && IsIndexKey(entries[j].0) ensures Precedes(k, entries[j].0) {
      if j > 0 {
        assert Precedes(entries[0].0, entries[j].0);
      }
    }
    ConsOrdered((k, v), entries);
  }

  /** A key that precedes every array index of an ordered object may go in front of it. */
  lemma ConsOrdered(e: (string, Value), rest: seq<(string, Value)>)
    requires ObjectOrder(rest)
    requires forall j :: 0 <= j < |rest| && IsIndexKey(rest[j].0) ==> Precedes(e.0, rest[j].0)
    ensures ObjectOrder([e] + rest)
  {
    var r := [e] + rest;
    forall i, j | 0 <= i < j < |r| && IsIndexKey(r[j].0) ensures Precedes(r[i].0, r[j].0) {
      assert r[j] == rest[j - 1];
      if i > 0 {
        assert r[i] == rest[i - 1];
      }
    }
  }

  /** The keys after the first of an ordered object are ordered and unique. */
  lemma TailOrdered(entries: seq<(string, Value)>)
    requires |entries| > 0 && UniqueKeys(entries) && ObjectOrder(entries)
    ensures UniqueKeys(entries[1..]) && ObjectOrder(entries[1..])
  {
    forall i, j | 0 <= i < j < |entries[1..]|
      ensures entries[1..][i].0 != entries[1..][j].0
      ensures IsIndexKey(entries[1..][j].0) ==> Precedes(entries[1..][i].0, entries[1..][j].0)
    {
      assert entries[1..][i] == entries[i + 1] && entries[1..][j] == entries[j + 1];
    }
  }

  /** `aUrlParameter[1] || false`: a missing or empty value becomes `false`. */
  function QueryValue(pieces: seq<string>): Value {
    if |pieces| > 1 && pieces[1] != "" then Str(pieces[1]) else Bool(false)
  }

  /** The loop over `aUrl[1].split('&')`: each `k=v` piece is put into the parameters in turn. */
  function PutQuery(entries: seq<(string, Value)>, pieces: seq<string>): seq<(string, Value)>
    decreases |pieces|
  {
    if |pieces| == 0 then entries
    else
      var kv := Split(pieces[0], '=');
      PutQuery(Put(entries, kv[0], QueryValue(kv)), pieces[1..])
  }

  /** The query loop keeps the parameters an object with its keys in object order. */
  lemma {:induction false} PutQueryOrdered(entries: seq<(string, Value)>, pieces: seq<string>)
    requires UniqueKeys(entries) && ObjectOrder(entries)
    ensures UniqueKeys(PutQuery(entries, pieces)) && ObjectOrder(PutQuery(entries, pieces))
    decreases |pieces|
  {
    if |pieces| > 0 {
      var kv := Split(pieces[0], '=');
      PutUnique(entries, kv[0], QueryValue(kv));
      PutOrdered(entries, kv[0], QueryValue(kv));
      PutQueryOrdered(Put(entries, kv[0], QueryValue(kv)), pieces[1..]);
    }
  }

  /** `aUrl[0]` with a trailing slash added unless it already ends in one (`""` becomes `"/"`). */
  function WithSlash(base: string): (r: string)
    ensures |r| > 0 && r[|r| - 1] == '/'
  {
    if base != "" && base[|base| - 1] == '/' then base else base + "/"
  }

  /**
   * `_static._set(this, key, value)`: stores the value after the per-key treatment.
   * `None` is a thrown TypeError: a non-string service URL, or a query while
   * `serviceUrlParams` is not an object (the module runs in strict mode).
   */
  function ApplySet(settings: SettingsMap, key: string, value: Setting): (r: Option<SettingsMap>)
    ensures r.Some? ==> key in r.value
    ensures r.Some? && key != "serviceUrl" ==> r.value == settings[key := r.value[key]]
  {
    if key == "serviceUrl" then
      if !value.Text? then None
      else
        var parts := Split(value.s, '?');
        if |parts| == 1 then Some(settings[key := value])
        else
          var base := WithSlash(parts[0]);
          if parts[1] == "" then Some(settings[key := Text(base)])
          else if "serviceUrlParams" !in settings || !settings["serviceUrlParams"].Params? then None
          else
            var ps := PutQuery(settings["serviceUrlParams"].entries, Split(parts[1], '&'));
            Some(settings["serviceUrlParams" := Params(ps)][key := Text(base)])
    else if key == "bindingMode" then
      Some(settings[key := if value == Text("TwoWay") || value == Text("OneWay") then value else Text("TwoWay")])
    else Some(settings[key := value])
  }

  /**
   * Setting the service URL keeps `serviceUrlParams` an object: unique keys, listed in
   * object order.
   */
  lemma ServiceUrlKeepsOrder(s: SettingsMap, value: Setting)
    requires "serviceUrlParams" in s && s["serviceUrlParams"].Params?
    requires UniqueKeys(s["serviceUrlParams"].entries) && ObjectOrder(s["serviceUrlParams"].entries)
    ensures var r := ApplySet(s, "serviceUrl", value);
      r.Some? ==> (r.value["serviceUrlParams"].Params?
        && UniqueKeys(r.value["serviceUrlParams"].entries) && ObjectOrder(r.value["serviceUrlParams"].entries))
  {
    if value.Text? {
      var parts := Split(value.s, '?');
      if |parts| > 1 && parts[1] != "" {
        PutQueryOrdered(s["serviceUrlParams"].entries, Split(parts[1], '&'));
      }
    }
  }

  /**
   * An array index in the query is listed first: after `setServiceUrl(base?a=x&i=y)`
   * with `i` an array index and `a` not, the parameters are `i`, then `a`, and a request
   * carries `?i=y&a=x`.
   */
  lemma IndexKeyListedFirst(s: SettingsMap, base: string, a: string, x: string, i: string, y: string, path: string)
    requires s["serviceUrlParams" := Params([])] == s
    requires Plain(a) && Plain(x) && Plain(i) && Plain(y) && x != "" && y != ""
    requires !IsIndexKey(a) && IsIndexKey(i)
    requires '?' !in base && path != "" && path != MetadataMarker && '?' !in path
    ensures var r := ApplySet(s, "serviceUrl", Text(base + "?" + ((a + "=" + x) + "&" + (i + "=" + y))));
      r.Some? && r.value["serviceUrl"] == Text(WithSlash(base))
      && r.value["serviceUrlParams"] == Params([(i, Str(y)), (a, Str(x))])
    ensures ServiceCallUrl(WithSlash(base), [(i, Str(y)), (a, Str(x))], path)
      == Some(WithSlash(base) + path + "?" + ((i + "=" + y) + "&" + (a + "=" + x)))
  {
    var query := (a + "=" + x) + "&" + (i + "=" + y);
    var ps := [(i, Str(y)), (a, Str(x))];
    assert s["serviceUrlParams"] == Params([]);
    TwoPieces(a + "=" + x, i + "=" + y);
    SplitAtMark(base, query);
    IndexPutFirst(a, x, i, y);
    SetQueryVia(s, base + "?" + query, base, query, ps);
    SplitNoSeparator(path, '?');
    assert ParamPairs(ps) == [i + "=" + y, a + "=" + x];
    CallVia(WithSlash(base), ps, path, [i + "=" + y, a + "=" + x]);
  }

  /** The query loop over `a=x&i=y` puts `i` before `a`. */
  lemma IndexPutFirst(a: string, x: string, i: string, y: string)
    requires Plain(a) && Plain(x) && Plain(i) && Plain(y) && x != "" && y != ""
    requires !IsIndexKey(a) && IsIndexKey(i)
    ensures PutQuery([], [a + "=" + x, i + "=" + y]) == [(i, Str(y)), (a, Str(x))]
  {
    var pieces := [a + "=" + x, i + "=" + y];
    PiecePair(a, x);
    PiecePair(i, y);
    var one := Put([], a, Str(x));
    assert one == [(a, Str(x))];
    assert !HasKey(one, i);
    assert Put(one, i, Str(y)) == [(i, Str(y)), (a, Str(x))];
    assert pieces[1..] == [i + "=" + y] && pieces[1..][1..] == [];
    assert PutQuery([], pieces) == PutQuery(one, pieces[1..]);
    assert PutQuery(one, pieces[1..]) == PutQuery(Put(one, i, Str(y)), []);
  }

  /** Two pieces without `&` or `?`, joined by `&`, split back into the two. */
  lemma TwoPieces(p: string, q: string)
    requires '&' !in p && '&' !in q && '?' !in p && '?' !in q
    ensures '?' !in p + "&" + q
    ensures Split(p + "&" + q, '&') == [p, q]
  {
    assert p + "&" + q == p + ['&'] + q;
    SplitAtFirst(p, '&', q);
    SplitNoSeparator(q, '&');
  }

  /** The constructor's filter: a default key whose value has the default's `typeof`. */
  predicate Accepted(key: string, value: Setting) {
    key in Defaults() && TypeOf(value) == TypeOf(Defaults()[key])
  }

  /** The `for (var kParameter in mParameters)` loop, parameters in key order. */
  function ApplyParams(settings: SettingsMap, params: seq<(string, Setting)>): Option<SettingsMap>
    decreases |params|
  {
    if |params| == 0 then Some(settings)
    else if !Accepted(params[0].0, params[0].1) then ApplyParams(settings, params[1..])
    else
      match ApplySet(settings, params[0].0, params[0].1)
      case None => None
      case Some(s) => ApplyParams(s, params[1..])
  }

  /**
   * The settings part of the constructor: `setServiceUrl(sServiceUrl)` on empty settings,
   * the accepted parameters, then `$.extend(true, {}, mDefaultParameters, _mSettings)`.
   * `serviceUrl` is whatever the caller passed (`undefined` when omitted); `params` is
   * `None` when `mParameters` is not an object. `None` as a result: the constructor throws.
   */
  function ConstructSettings(serviceUrl: Setting, params: Option<seq<(string, Setting)>>): Option<SettingsMap> {
    match ApplySet(map[], "serviceUrl", serviceUrl)
    case None => None
    case Some(s0) =>
      match ApplyParams(s0, params.GetOr([]))
      case None => None
      case Some(s) => Some(Defaults() + s)
  }

  /** `key=value` for each service URL parameter, in key order. */
  function ParamPairs(entries: seq<(string, Value)>): (r: seq<string>)
    ensures |r| == |entries|
    ensures forall j :: 0 <= j < |entries| ==> r[j] == entries[j].0 + "=" + KeyOf(entries[j].1)
  {
    seq(|entries|, j requires 0 <= j < |entries| => entries[j].0 + "=" + KeyOf(entries[j].1))
  }

  /** The marker `_serviceCall` is given when the metadata is to be loaded. */
  const MetadataMarker := "__CRUDModel_METADATA__"

  /**
   * The URL `_serviceCall(sUrl)` requests: the service URL, then the path (its leading
   * slash is kept: the result of `substr(1)` is discarded), then `?` and the service
   * URL parameters followed by the call's own query. `None`: an empty `sUrl` goes to
   * the error callback without a request.
   */
  function ServiceCallUrl(serviceUrl: string, urlParams: seq<(string, Value)>, sUrl: string): (r: Option<string>)
    ensures r.None? <==> sUrl == ""
    ensures r.Some? ==> |r.value| >= |serviceUrl| && r.value[..|serviceUrl|] == serviceUrl
  {
    if sUrl == "" then None
    else
      var u := if sUrl == MetadataMarker then "" else sUrl;
      var parts := Split(u, '?');
      var getParams := ParamPairs(urlParams) + (if |parts| > 1 then [Join(parts[1..], "?")] else []);
      var url := serviceUrl + parts[0];
      Some(if |getParams| > 0 then url + "?" + Join(getParams, "&") else url)
  }

  /**
   * The constructor applies the service URL to empty settings, where there is no
   * `serviceUrlParams` object yet: a URL with a non-empty query makes it throw.
   */
  lemma ConstructorQueryThrows(serviceUrl: string, params: Option<seq<(string, Setting)>>)
    requires |Split(serviceUrl, '?')| > 1 && Split(serviceUrl, '?')[1] != ""
    ensures ConstructSettings(Text(serviceUrl), params).None?
  {
  }

  /**
   * A service URL that is not a string (omitted, `null`, a number, an object) makes the
   * constructor throw: `value.split('?')` has no string to split.
   */
  lemma ConstructorUrlNotText(serviceUrl: Setting, params: Option<seq<(string, Setting)>>)
    ensures !serviceUrl.Text? ==> ConstructSettings(serviceUrl, params).None?
  {
  }

  /** A parameter the constructor does not accept has no effect, wherever it appears. */
  lemma {:induction false} RejectedParamIgnored(s: SettingsMap, a: seq<(string, Setting)>, k: string, v: Setting, b: seq<(string, Setting)>)
    requires !Accepted(k, v)
    ensures ApplyParams(s, a + [(k, v)] + b) == ApplyParams(s, a + b)
    decreases |a|
  {
    if |a| == 0 {
      assert a + [(k, v)] + b == [(k, v)] + b;
      assert ([(k, v)] + b)[1..] == b;
      assert a + b == b;
    } else {
      assert (a + [(k, v)] + b)[0] == a[0] && (a + b)[0] == a[0];
      assert (a + [(k, v)] + b)[1..] == a[1..] + [(k, v)] + b;
      assert (a + b)[1..] == a[1..] + b;
      if !Accepted(a[0].0, a[0].1) {
        RejectedParamIgnored(s, a[1..], k, v, b);
      } else {
        match ApplySet(s, a[0].0, a[0].1)
        case None =>
        case Some(s') => RejectedParamIgnored(s', a[1..], k, v, b);
      }
    }
  }

  /** Every setting present has the type of its default, and the binding mode is one of the two. */
  predicate WellTyped(s: SettingsMap) {
    (forall k :: k in s && k in Defaults() ==> TypeOf(s[k]) == TypeOf(Defaults()[k]))
    && ("bindingMode" in s ==> s["bindingMode"] in {Text("TwoWay"), Text("OneWay")})
  }

  /** `_set` keeps the settings well typed when given a value of the default's type. */
  lemma ApplySetTyped(s: SettingsMap, key: string, value: Setting)
    requires WellTyped(s)
    requires key == "serviceUrl" || Accepted(key, value)
    ensures ApplySet(s, key, value).Some? ==> WellTyped(ApplySet(s, key, value).value)
  {
  }

  lemma {:induction false} ApplyParamsTyped(s: SettingsMap, params: seq<(string, Setting)>)
    requires WellTyped(s)
    ensures ApplyParams(s, params).Some? ==> WellTyped(ApplyParams(s, params).value)
    decreases |params|
  {
    if |params| > 0 {
      if Accepted(params[0].0, params[0].1) {
        ApplySetTyped(s, params[0].0, params[0].1);
        match ApplySet(s, params[0].0, params[0].1)
        case None =>
        case Some(s') => ApplyParamsTyped(s', params[1..]);
      } else {
        ApplyParamsTyped(s, params[1..]);
      }
    }
  }

  /**
   * A constructed model has every default setting, each with the default's type, and a
   * binding mode of `TwoWay` or `OneWay`.
   */
  lemma ConstructedWellTyped(serviceUrl: Setting, params: Option<seq<(string, Setting)>>)
    ensures var r := ConstructSettings(serviceUrl, params);
      r.Some? ==> WellTyped(r.value) && Defaults().Keys <= r.value.Keys
  {
    ApplySetTyped(map[], "serviceUrl", serviceUrl);
    match ApplySet(map[], "serviceUrl", serviceUrl)
    case None =>
    case Some(s0) => ApplyParamsTyped(s0, params.GetOr([]));
  }

  /** `k=v` for each pair. */
  function Pieces(kvs: seq<(string, string)>): (r: seq<string>)
    ensures |r| == |kvs|
    ensures forall j :: 0 <= j < |kvs| ==> r[j] == kvs[j].0 + "=" + kvs[j].1
  {
    if |kvs| == 0 then [] else [kvs[0].0 + "=" + kvs[0].1] + Pieces(kvs[1..])
  }

  /**
   * Query pairs that survive the round trip: distinct keys that are not array indices,
   * non-empty values, no separators.
   */
  predicate PlainQuery(kvs: seq<(string, string)>) {
    (forall j :: 0 <= j < |kvs| ==> kvs[j].1 != "" && Plain(kvs[j].0) && Plain(kvs[j].1) && !IsIndexKey(kvs[j].0))
    && (forall i, j :: 0 <= i < j < |kvs| ==> kvs[i].0 != kvs[j].0)
  }

  predicate Plain(x: string) {
    '=' !in x && '&' !in x && '?' !in x
  }

  function AsEntries(kvs: seq<(string, string)>): (r: seq<(string, Value)>)
    ensures |r| == |kvs|
    ensures forall j :: 0 <= j < |kvs| ==> r[j] == (kvs[j].0, Str(kvs[j].1))
  {
    if |kvs| == 0 then [] else [(kvs[0].0, Str(kvs[0].1))] + AsEntries(kvs[1..])
  }

  /** `Put` of a new key that is not an array index appends. */
  lemma {:induction false} PutNew(entries: seq<(string, Value)>, k: string, v: Value)
    requires forall j :: 0 <= j < |entries| ==> entries[j].0 != k
    requires !IsIndexKey(k)
    ensures Put(entries, k, v) == entries + [(k, v)]
    decreases |entries|
  {
    if |entries| > 0 {
      PutNew(entries[1..], k, v);
      assert [entries[0]] + (entries[1..] + [(k, v)]) == entries + [(k, v)];
    }
  }

  /** Parsing plain pairs into empty parameters lists them in order. */
  lemma {:induction false} PutQueryPlain(done: seq<(string, string)>, kvs: seq<(string, string)>)
    requires PlainQuery(done + kvs)
    ensures PutQuery(AsEntries(done), Pieces(kvs)) == AsEntries(done + kvs)
    decreases |kvs|
  {
    if |kvs| == 0 {
      assert done + kvs == done;
    } else {
      PutQueryOne(done, kvs);
      ShiftPair(done, kvs);
      PutQueryPlain(done + [kvs[0]], kvs[1..]);
    }
  }

  lemma ShiftPair(done: seq<(string, string)>, kvs: seq<(string, string)>)
    requires |kvs| > 0
    ensures (done + [kvs[0]]) + kvs[1..] == done + kvs
  {
  }

  /** One step of `PutQueryPlain`: the first pair is appended to the parameters. */
  lemma PutQueryOne(done: seq<(string, string)>, kvs: seq<(string, string)>)
    requires PlainQuery(done + kvs) && |kvs| > 0
    ensures PutQuery(AsEntries(done), Pieces(kvs)) == PutQuery(AsEntries(done + [kvs[0]]), Pieces(kvs[1..]))
  {
    var all := done + kvs;
    var k, v := kvs[0].0, kvs[0].1;
    assert all[|done|] == kvs[0];
    PiecePair(k, v);
    forall j | 0 <= j < |AsEntries(done)| ensures AsEntries(done)[j].0 != k {
      assert all[j] == done[j];
    }
    PutNew(AsEntries(done), k, Str(v));
    assert AsEntries(done) + [(k, Str(v))] == AsEntries(done + [kvs[0]]);
    assert Pieces(kvs)[1..] == Pieces(kvs[1..]);
  }

  /** A plain `k=v` piece splits back into its key and value. */
  lemma PiecePair(k: string, v: string)
    requires Plain(k) && Plain(v) && v != ""
    ensures Split(k + "=" + v, '=') == [k, v]
    ensures QueryValue(Split(k + "=" + v, '=')) == Str(v)
  {
    assert k + "=" + v == k + ['='] + v;
    SplitAtFirst(k, '=', v);
    SplitNoSeparator(v, '=');
  }

  /**
   * Round trip of the service URL's query: after `setServiceUrl(base + "?" + query)` on
   * settings whose parameters are still empty, every request to a path without a query
   * carries that same query, behind the service URL (with its trailing slash) and the path.
   */
  lemma ServiceQueryRoundTrip(s: SettingsMap, base: string, kvs: seq<(string, string)>, path: string)
    requires s["serviceUrlParams" := Params([])] == s
    requires |kvs| > 0 && PlainQuery(kvs)
    requires '?' !in base && path != "" && path != MetadataMarker && '?' !in path
    ensures var query := Join(Pieces(kvs), "&");
      var r := ApplySet(s, "serviceUrl", Text(base + "?" + query));
      r.Some? && r.value["serviceUrl"] == Text(WithSlash(base))
      && r.value["serviceUrlParams"] == Params(AsEntries(kvs))
      && ServiceCallUrl(WithSlash(base), AsEntries(kvs), path) == Some(WithSlash(base) + path + "?" + query)
  {
    SetServiceUrlQuery(s, base, kvs);
    CallCarriesQuery(WithSlash(base), kvs, path);
  }

  lemma SetServiceUrlQuery(s: SettingsMap, base: string, kvs: seq<(string, string)>)
    requires s["serviceUrlParams" := Params([])] == s
    requires |kvs| > 0 && PlainQuery(kvs)
    requires '?' !in base
    ensures var r := ApplySet(s, "serviceUrl", Text(base + "?" + Join(Pieces(kvs), "&")));
      r.Some? && r.value["serviceUrl"] == Text(WithSlash(base))
      && r.value["serviceUrlParams"] == Params(AsEntries(kvs))
  {
    var query := Join(Pieces(kvs), "&");
    QueryFacts(kvs);
    SplitAtMark(base, query);
    assert [] + kvs == kvs;
    assert AsEntries([]) == [];
    PutQueryPlain([], kvs);
    SetQueryVia(s, base + "?" + query, base, query, AsEntries(kvs));
  }

  lemma SetQueryVia(s: SettingsMap, url: string, base: string, query: string, ps: seq<(string, Value)>)
    requires Split(url, '?') == [base, query] && query != ""
    requires "serviceUrlParams" in s && s["serviceUrlParams"].Params?
    requires PutQuery(s["serviceUrlParams"].entries, Split(query, '&')) == ps
    ensures var r := ApplySet(s, "serviceUrl", Text(url));
      r.Some? && r.value["serviceUrl"] == Text(WithSlash(base)) && r.value["serviceUrlParams"] == Params(ps)
  {
  }

  /** The query text of plain pairs: non-empty, without `?`, and split at `&` into its pieces. */
  lemma QueryFacts(kvs: seq<(string, string)>)
    requires |kvs| > 0 && PlainQuery(kvs)
    ensures var query := Join(Pieces(kvs), "&");
      query != "" && '?' !in query && Split(query, '&') == Pieces(kvs)
  {
    var pieces := Pieces(kvs);
    forall j | 0 <= j < |pieces| ensures '&' !in pieces[j] && '?' !in pieces[j] { }
    JoinSplit(pieces, '&');
    QueryHasNoMark(pieces);
    assert Split("", '&') == [""];
  }

  lemma SplitAtMark(base: string, query: string)
    requires '?' !in base && '?' !in query
    ensures Split(base + "?" + query, '?') == [base, query]
  {
    assert base + "?" + query == base + ['?'] + query;
    SplitAtFirst(base, '?', query);
    SplitNoSeparator(query, '?');
  }

  lemma CallCarriesQuery(url: string, kvs: seq<(string, string)>, path: string)
    requires |kvs| > 0 && path != "" && path != MetadataMarker && '?' !in path
    ensures ServiceCallUrl(url, AsEntries(kvs), path) == Some(url + path + "?" + Join(Pieces(kvs), "&"))
  {
    SplitNoSeparator(path, '?');
    assert ParamPairs(AsEntries(kvs)) == Pieces(kvs);
    CallVia(url, AsEntries(kvs), path, Pieces(kvs));
  }

  lemma CallVia(url: string, ps: seq<(string, Value)>, path: string, pairs: seq<string>)
    requires path != "" && path != MetadataMarker && Split(path, '?') == [path]
    requires ParamPairs(ps) == pairs && |pairs| > 0
    ensures ServiceCallUrl(url, ps, path) == Some(url + path + "?" + Join(pairs, "&"))
  {
    assert pairs + [] == pairs;
  }

  /** A join of pieces without `?` holds no `?`. */
  lemma {:induction false} QueryHasNoMark(pieces: seq<string>)
    requires forall j :: 0 <= j < |pieces| ==> '?' !in pieces[j]
    ensures '?' !in Join(pieces, "&")
    decreases |pieces|
  {
    if |pieces| > 1 {
      QueryHasNoMark(pieces[1..]);
    }
  }

  /** The leading slash of a path is kept: a service URL ending in `/` gives `//`. */
  lemma LeadingSlashKept(serviceUrl: string, t: string)
    requires '?' !in t
    ensures ServiceCallUrl(serviceUrl, [], "/" + t) == Some(serviceUrl + "/" + t)
  {
    assert ("/" + t)[0] != MetadataMarker[0];
    assert '?' !in "/" + t;
    SplitNoSeparator("/" + t, '?');
    assert ParamPairs([]) + [] == [];
    assert serviceUrl + ("/" + t) == serviceUrl + "/" + t;
  }

  /**
   * The metadata request goes to the bare service URL, followed by `?` and its
   * parameters when it has any.
   */
  lemma MetadataUrl(serviceUrl: string, ps: seq<(string, Value)>)
    ensures ServiceCallUrl(serviceUrl, ps, MetadataMarker)
      == Some(if |ps| > 0 then serviceUrl + "?" + Join(ParamPairs(ps), "&") else serviceUrl)
  {
    var parts := Split("", '?');
    assert parts == [""];
    assert ParamPairs(ps) + [] == ParamPairs(ps);
    assert serviceUrl + parts[0] == serviceUrl;
  }
}

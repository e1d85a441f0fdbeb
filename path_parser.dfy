/**
 * The path grammar of the model (`_static.parsePath`): `/table/id` becomes
 * `{Table, Id, Path}`. The code rewrites the first `('` into `/` and then looks for
 * `'')` (not `')`), so a quoted id keeps its trailing `')`; it does not strip a query
 * string; it drops one leading empty segment and ignores every segment after the id.
 */
module PathParser {
  import opened Strings

  /** The object `parsePath` returns. */
  datatype PathRef = PathRef(table: string, id: string, path: string)

  const Empty := PathRef("", "", "")

  /** The two `replace` calls: the first `('` becomes `/`, the first `'')` is removed. */
  function Rewrite(s: string): string {
    ReplaceFirst(ReplaceFirst(s, "('", "/"), "'')", "")
  }

  /** Drops one leading empty piece (`aPath.shift()` when `aPath[0] === ""`). */
  function DropLeadingEmpty(parts: seq<string>): seq<string>
    requires |parts| >= 1
  {
    if parts[0] == "" then parts[1..] else parts
  }

  /** The pieces of the rewritten path, with one leading empty piece dropped. */
  function Segments(s: string): (segs: seq<string>)
    ensures forall i :: 0 <= i < |segs| ==> '/' !in segs[i]
  {
    DropLeadingEmpty(Split(Rewrite(s), '/'))
  }

  /** Builds the result from the segments: table, id (or ""), and the path made of the two. */
  function FromSegments(segs: seq<string>): PathRef {
    if |segs| == 0 then Empty
    else
      var id := if |segs| > 1 then segs[1] else "";
      PathRef(segs[0], id, "/" + segs[0] + (if |segs| > 1 then "/" + id else ""))
  }

  /** `_static.parsePath`. */
  function ParsePath(s: string): (r: PathRef)
    ensures '/' !in r.table && '/' !in r.id
    ensures r.path == "" <==> r == Empty
  {
    FromSegments(Segments(s))
  }

  /** The empty path gives empty fields; `/` gives an empty table and id but the path `/`. */
  lemma ParseRoot()
    ensures ParsePath("") == Empty
    ensures ParsePath("/") == PathRef("", "", "/")
  {
    ReplaceAbsent("", "('", "/", 0);
    ReplaceAbsent("", "'')", "", 0);
    ReplaceAbsent("/", "('", "/", 0);
    ReplaceAbsent("/", "'')", "", 0);
    SplitAtFirst("", '/', "");
    assert "" + ['/'] + "" == "/";
  }

  /** Neither rewrite applies to a path without a single quote. */
  lemma NoQuoteNoRewrite(s: string)
    requires '\'' !in s
    ensures Rewrite(s) == s
  {
    ReplaceAbsent(s, "('", "/", 1);
    ReplaceAbsent(s, "'')", "", 0);
  }

  lemma NoQuoteSegments(s: string)
    requires '\'' !in s
    ensures Segments(s) == DropLeadingEmpty(Split(s, '/'))
  {
    NoQuoteNoRewrite(s);
  }

  /** Every piece of a split only holds characters of the string that was split. */
  lemma {:induction false} SplitKeepsOut(s: string, c: char, x: char)
    requires x !in s
    ensures forall i :: 0 <= i < |Split(s, c)| ==> x !in Split(s, c)[i]
    decreases |s|
  {
    if |s| > 0 {
      assert x !in s[1..];
      SplitKeepsOut(s[1..], c, x);
    }
  }

  /** `/table` names the table and no id; the table text is kept as it is (a query included). */
  lemma ParseTablePath(t: string)
    requires t != "" && '/' !in t && '\'' !in t
    ensures ParsePath("/" + t) == PathRef(t, "", "/" + t)
  {
    assert '\'' !in "/" + t;
    NoQuoteSegments("/" + t);
    SplitTable(t);
    ParseFromSegment(t);
  }

  lemma SplitTable(t: string)
    requires '/' !in t
    ensures Split("/" + t, '/') == ["", t]
  {
    SplitAtFirst("", '/', t);
    SplitNoSeparator(t, '/');
    assert "" + ['/'] + t == "/" + t;
  }

  lemma ParseFromSegment(t: string)
    requires Segments("/" + t) == [t]
    ensures ParsePath("/" + t) == PathRef(t, "", "/" + t)
  {
  }

  /** The first piece of `i + tail` is `i` when `tail` is empty or starts a new segment. */
  lemma FirstPiece(i: string, tail: string)
    requires '/' !in i && (tail == "" || tail[0] == '/')
    ensures Split(i + tail, '/')[0] == i
  {
    if tail == "" {
      assert i + tail == i;
      SplitNoSeparator(i, '/');
    } else {
      assert i + tail == i + ['/'] + tail[1..];
      SplitAtFirst(i, '/', tail[1..]);
    }
  }

  /**
   * `/table/id` followed by any further segments: the first segment is the table,
   * the second the id, and the path is rebuilt from those two; the rest is ignored.
   */
  lemma ParseTableIdPath(t: string, i: string, tail: string)
    requires '/' !in t && '/' !in i && '\'' !in t && '\'' !in i && '\'' !in tail
    requires tail == "" || tail[0] == '/'
    ensures ParsePath("/" + t + "/" + i + tail) == PathRef(t, i, "/" + t + "/" + i)
  {
    var s := "/" + t + "/" + i + tail;
    assert s == "/" + t + "/" + (i + tail);
    SegmentsTableId(t, i + tail);
    FirstPiece(i, tail);
    ParseFromSegments(s, t, i);
  }

  lemma SegmentsTableId(t: string, rest: string)
    requires '/' !in t && '\'' !in t && '\'' !in rest
    ensures Segments("/" + t + "/" + rest) == [t] + Split(rest, '/')
  {
    var s := "/" + t + "/" + rest;
    assert '\'' !in s;
    SplitTableId(t, rest);
    NoQuoteSegments(s);
  }

  lemma SplitTableId(t: string, rest: string)
    requires '/' !in t
    ensures Split("/" + t + "/" + rest, '/') == [""] + ([t] + Split(rest, '/'))
  {
    var s := "/" + t + "/" + rest;
    var r := t + ['/'] + rest;
    assert s == "" + ['/'] + r;
    SplitAtFirst("", '/', r);
    SplitAtFirst(t, '/', rest);
  }

  lemma SegmentsVia(s: string, r: string)
    requires Rewrite(s) == r
    ensures Segments(s) == DropLeadingEmpty(Split(r, '/'))
  {
  }

  lemma ParseFromSegments(s: string, t: string, i: string)
    requires |Segments(s)| >= 2 && Segments(s)[0] == t && Segments(s)[1] == i
    ensures ParsePath(s) == PathRef(t, i, "/" + t + "/" + i)
  {
  }

  /** The two rewrites applied to `/table('id')`: only the first one finds its pattern. */
  lemma RewriteQuoted(t: string, i: string)
    requires '/' !in t && '\'' !in t && '\'' !in i
    ensures Rewrite("/" + t + "('" + i + "')") == "/" + t + "/" + i + "')"
  {
    var pre := "/" + t + "/" + i;
    OpenQuoteRewrite(t, i);
    assert '\'' !in pre by { assert pre == ("/" + t) + ("/" + i); }
    NoDoubleQuoteClose(pre);
  }

  /** `('` first occurs right after the table name, and becomes `/`. */
  lemma OpenQuoteRewrite(t: string, i: string)
    requires '/' !in t && '\'' !in t
    ensures ReplaceFirst("/" + t + "('" + i + "')", "('", "/") == "/" + t + "/" + i + "')"
  {
    var s := "/" + t + "('" + i + "')";
    var k := |t| + 1;
    assert OccursAt(s, "('", k) by { assert s[k..k + 2] == "('"; }
    forall j: nat | j < k ensures !OccursAt(s, "('", j) {
      assert s[j + 1] != '\'' by {
        if j + 1 < k { assert s[j + 1] == t[j]; }
      }
      assert s[j..j + 2][1] == s[j + 1];
    }
    ReplaceAtFirst(s, "('", "/", k);
    assert s[..k] == "/" + t;
    assert s[k + 2..] == i + "')";
  }

  /** A quote-free text followed by `')` holds no `'')`. */
  lemma NoDoubleQuoteClose(pre: string)
    requires '\'' !in pre
    ensures ReplaceFirst(pre + "')", "'')", "") == pre + "')"
  {
    var s1 := pre + "')";
    forall j: nat ensures !OccursAt(s1, "'')", j) {
      if j < |pre| && j + 3 <= |s1| {
        assert s1[j] == pre[j];
        assert s1[j..j + 3][0] == s1[j];
      }
    }
    IndexOfFirst(s1, "'')");
  }

  /**
   * As written, `/table('id')` parses to the id `id')`: the first rewrite turns `('`
   * into `/`, and the second looks for `'')`, which is not there.
   */
  lemma ParseQuotedId(t: string, i: string)
    requires '/' !in t && '/' !in i && '\'' !in t && '\'' !in i
    ensures ParsePath("/" + t + "('" + i + "')") == PathRef(t, i + "')", "/" + t + "/" + (i + "')"))
  {
    var s := "/" + t + "('" + i + "')";
    RewriteQuoted(t, i);
    var r := "/" + t + "/" + (i + "')");
    assert Rewrite(s) == r;
    SplitTableId(t, i + "')");
    SplitNoSeparator(i + "')", '/');
    SegmentsVia(s, r);
    ParseFromSegments(s, t, i + "')");
  }

  /**
   * For a path without a single quote, parsing the rebuilt `Path` gives the same
   * result again (the batch `remove` parses `Path` a second time).
   */
  lemma ReparseQuoteFree(s: string)
    requires '\'' !in s
    ensures ParsePath(ParsePath(s).path) == ParsePath(s)
  {
    NoQuoteSegments(s);
    SplitKeepsOut(s, '/', '\'');
    var segs := Segments(s);
    var r := ParsePath(s);
    if |segs| == 1 {
      if r.table == "" {
        ParseRoot();
      } else {
        ParseTablePath(r.table);
      }
    } else if |segs| > 1 {
      assert r.path == "/" + r.table + "/" + r.id + "";
      ParseTableIdPath(r.table, r.id, "");
    }
  }
}

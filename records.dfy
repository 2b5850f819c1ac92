/**
 * What the CSV converters share: a CSV row, the output records, and the query
 * key that joins one script's output to another's input.
 */
module Records {
  import opened Wrappers
  import opened Text
  import opened Json

  /** A row of `csv.DictReader`: column name to cell text. */
  type Row = map<string, string>

  /** `row.get(column, '')`. */
  function Field(row: Row, column: string): string
  {
    if column in row then row[column] else ""
  }

  /** A training example `{system, query, response}` with an optional `type`. */
  datatype Sample = Sample(system: string, query: string, response: string, kind: Option<string>)

  /** A row kept aside: `{query, raw_data}` with an optional `info` text. */
  datatype NullRecord = NullRecord(query: string, info: Option<string>, raw: Row)

  /** The noise token an upstream export leaves in annotations. */
  const NOISE_TOKEN := "#|#|"

  /** How many elements satisfy `p`. */
  function CountWhere<A>(xs: seq<A>, p: A -> bool): (n: nat)
    ensures n <= |xs|
    decreases |xs|
  {
    if xs == [] then 0 else CountWhere(xs[..|xs| - 1], p) + (if p(xs[|xs| - 1]) then 1 else 0)
  }

  /** What a loop collects when it appends `f(x)` for each `x` of `xs` in turn. */
  function FlatMap<A, B>(xs: seq<A>, f: A -> seq<B>): seq<B>
    decreases |xs|
  {
    if xs == [] then [] else FlatMap(xs[..|xs| - 1], f) + f(xs[|xs| - 1])
  }

  /** Counting over one more element. */
  lemma CountWhereStep<A>(xs: seq<A>, i: nat, p: A -> bool)
    requires i < |xs|
    ensures CountWhere(xs[..i + 1], p) == CountWhere(xs[..i], p) + (if p(xs[i]) then 1 else 0)
  {
    assert xs[..i + 1][..i] == xs[..i];
  }

  /** One more loop iteration appends the next element's contribution. */
  lemma FlatMapStep<A, B>(xs: seq<A>, i: nat, f: A -> seq<B>)
    requires i < |xs|
    ensures FlatMap(xs[..i + 1], f) == FlatMap(xs[..i], f) + f(xs[i])
  {
    assert xs[..i + 1][..i] == xs[..i];
  }

  /** The loop is a per-element map: concatenated inputs give concatenated outputs. */
  lemma {:induction false} FlatMapConcat<A, B>(xs: seq<A>, ys: seq<A>, f: A -> seq<B>)
    ensures FlatMap(xs + ys, f) == FlatMap(xs, f) + FlatMap(ys, f)
    decreases |ys|
  {
    if ys == [] {
      assert xs + ys == xs;
    } else {
      var ys' := ys[..|ys| - 1];
      assert (xs + ys)[..|xs + ys| - 1] == xs + ys';
      assert (xs + ys)[|xs + ys| - 1] == ys[|ys| - 1];
      FlatMapConcat(xs, ys', f);
    }
  }

  /** Everything collected comes from one element, and every element's output is collected. */
  lemma {:induction false} FlatMapMember<A, B>(xs: seq<A>, f: A -> seq<B>, y: B)
    ensures y in FlatMap(xs, f) <==> exists x :: x in xs && y in f(x)
    decreases |xs|
  {
    if xs != [] {
      var init, last := xs[..|xs| - 1], xs[|xs| - 1];
      FlatMapMember(init, f, y);
      assert xs == init + [last];
      if y in FlatMap(xs, f) {
        if y in FlatMap(init, f) {
          var x :| x in init && y in f(x);
          assert x in xs;
        } else {
          assert y in f(last);
        }
      }
      if exists x :: x in xs && y in f(x) {
        var x :| x in xs && y in f(x);
        if x != last {
          assert x in init;
        }
      }
    }
  }

  /** The query key `tablename:{uri}; colname:{name}`. */
  function QueryKey(uri: string, name: string): string
  {
    "tablename:" + uri + "; colname:" + name
  }

  /** The query key followed by a description: `{key}; Desc:{desc}`. */
  function WithDesc(key: string, desc: string): string
  {
    key + "; Desc:" + desc
  }

  /** The key every script builds for a row, from its stripped `uri` and `name`. */
  function RowKey(row: Row): string
  {
    QueryKey(Strip(Field(row, "uri")), Strip(Field(row, "name")))
  }

  /**
   * Reading a written record back: an object whose `system`, `query` and
   * `response` are strings, with an optional string `type`.
   */
  function SampleOfJson(j: Json): Option<Sample>
  {
    match j
    case JObject(f) =>
      if "system" in f && "query" in f && "response" in f
         && f["system"].JString? && f["query"].JString? && f["response"].JString?
      then
        var kind := if "type" in f && f["type"].JString? then Some(f["type"].str) else None;
        Some(Sample(f["system"].str, f["query"].str, f["response"].str, kind))
      else None
    case _ => None
  }

  /** The object `json.dumps` writes for a sample; it reads back as the same sample. */
  function SampleToJson(s: Sample): (j: Json)
    ensures j.JObject? && j.fields.Keys == {"system", "query", "response"} + (if s.kind.Some? then {"type"} else {})
    ensures SampleOfJson(j) == Some(s)
  {
    var base := map["system" := JString(s.system), "query" := JString(s.query), "response" := JString(s.response)];
    match s.kind
    case Some(t) => JObject(base["type" := JString(t)])
    case None => JObject(base)
  }

  /**
   * A key built from a stripped name has no surrounding whitespace, so the
   * `.strip()` the reader applies to a stored key gives the key back.
   */
  lemma QueryKeyIsStripped(uri: string, name: string)
    requires IsStripped(name)
    ensures IsStripped(QueryKey(uri, name))
    ensures Strip(QueryKey(uri, name)) == QueryKey(uri, name)
  {
    var k := QueryKey(uri, name);
    assert k[0] == 't';
    if name == [] {
      assert k[|k| - 1] == ':';
    } else {
      assert k[|k| - 1] == name[|name| - 1];
    }
    StripOfStripped(k);
  }

  lemma FirstSemicolon(uri: string, name: string)
    requires ';' !in uri
    ensures QueryKey(uri, name)[10 + |uri|] == ';'
    ensures forall i :: 10 <= i < 10 + |uri| ==> QueryKey(uri, name)[i] != ';'
  {
    var k := QueryKey(uri, name);
    forall i | 10 <= i < 10 + |uri| ensures k[i] != ';' {
      assert k[i] == uri[i - 10];
    }
  }

  /** Keys of uris without ';' determine the uri and the name. */
  lemma QueryKeyInjective(uri1: string, name1: string, uri2: string, name2: string)
    requires ';' !in uri1 && ';' !in uri2
    requires QueryKey(uri1, name1) == QueryKey(uri2, name2)
    ensures uri1 == uri2 && name1 == name2
  {
    var k1, k2 := QueryKey(uri1, name1), QueryKey(uri2, name2);
    FirstSemicolon(uri1, name1);
    FirstSemicolon(uri2, name2);
    assert |uri1| == |uri2|;
    assert uri1 == k1[10..10 + |uri1|];
    assert uri2 == k2[10..10 + |uri2|];
    assert name1 == k1[20 + |uri1|..];
    assert name2 == k2[20 + |uri2|..];
  }

  /** Without that condition two different rows can share a key. */
  lemma QueryKeyCollision()
    ensures QueryKey("a; colname:b", "c") == QueryKey("a", "b; colname:c")
  {
  }
}

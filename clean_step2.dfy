/**
 * yiliao/clean_step2_result.py: the model's raw predictions may carry a
 * `<think>…</think>` reasoning block; it is cut out and the rest stripped,
 * record by record.
 */
module CleanStep2 {
  import opened Wrappers
  import opened Text
  import opened Json
  import opened Records

  const OPEN := "<think>"
  const CLOSE := "</think>"

  /** The first occurrence of `pat` in `s` at or after `from`. */
  function FindFrom(s: string, pat: string, from: nat): (r: Option<nat>)
    ensures r.Some? ==> from <= r.value && OccursAt(s, pat, r.value)
    ensures r.Some? ==> forall j :: from <= j < r.value ==> !OccursAt(s, pat, j)
    ensures r.None? ==> forall j :: from <= j ==> !OccursAt(s, pat, j)
    decreases |s| - from
  {
    if from + |pat| > |s| then None
    else if OccursAt(s, pat, from) then Some(from)
    else FindFrom(s, pat, from + 1)
  }

  /**
   * The length of a match of `<think>.*?</think>` (with `.` matching line
   * breaks) at the start of `t`: up to and including the nearest `</think>`
   * after the opening tag.
   */
  function MatchLen(t: string): (r: Option<nat>)
    ensures r.Some? ==> |OPEN| + |CLOSE| <= r.value <= |t|
  {
    if OPEN <= t then
      match FindFrom(t, CLOSE, |OPEN|)
      case Some(k) => Some(k + |CLOSE|)
      case None => None
    else None
  }

  /**
   * `re.sub(r'<think>.*?</think>', '', t, flags=re.DOTALL)`: scanning left
   * to right, each match is dropped and the scan resumes after it; every
   * other character is kept.
   */
  function RemoveThink(t: string): (r: string)
    ensures |r| <= |t|
    decreases |t|
  {
    if t == [] then []
    else match MatchLen(t)
      case Some(n) => RemoveThink(t[n..])
      case None => [t[0]] + RemoveThink(t[1..])
  }

  /** `clean_text`: "" for empty input, otherwise the text without think blocks, stripped. */
  function CleanText(text: string): (r: string)
    ensures IsStripped(r)
    ensures text == "" ==> r == ""
  {
    if text == "" then "" else Strip(RemoveThink(text))
  }

  /** Some `<think>` in `s` has a `</think>` after it. */
  predicate HasPair(s: string)
  {
    exists i :: 0 <= i <= |s| && MatchLen(s[i..]).Some?
  }

  // --------------------------------------------------------- the records

  /**
   * `clean_text(record.get('predicted_desc', ''))`: a falsy value gives "",
   * a string is cleaned, anything else makes `re.sub` raise (`None`).
   */
  function CleanValue(v: Json): (r: Option<string>)
    ensures r.Some? ==> IsStripped(r.value)
    ensures r.None? <==> Truthy(v) && !v.JString?
    ensures !Truthy(v) ==> r == Some("")
    ensures Truthy(v) && v.JString? ==> r == Some(CleanText(v.str))
  {
    if !Truthy(v) then Some("")
    else if v.JString? then Some(CleanText(v.str))
    else None
  }

  /**
   * What one line adds to `results`: blank and undecodable lines add
   * nothing, and so does a value that is not an object (`.get` raises) or
   * whose prediction cannot be cleaned.
   */
  function CleanLine(line: Line): seq<Json>
  {
    match line
    case Parsed(JObject(fields)) =>
      (match CleanValue(Get(fields, "predicted_desc", JString("")))
       case Some(d) => [JObject(fields["predicted_desc" := JString(d)])]
       case None => [])
    case _ => []
  }

  /** A line `process_cleaning` keeps: an object whose prediction can be cleaned. */
  predicate Cleanable(line: Line)
  {
    line.Parsed? && line.value.JObject?
    && CleanValue(Get(line.value.fields, "predicted_desc", JString(""))).Some?
  }

  /** The line loop of `process_cleaning`. */
  method ProcessCleaning(lines: seq<Line>) returns (results: seq<Json>, cleanedCount: nat)
    ensures results == FlatMap(lines, CleanLine)
    ensures cleanedCount == |results|
  {
    results, cleanedCount := [], 0;
    for i := 0 to |lines|
      invariant results == FlatMap(lines[..i], CleanLine)
      invariant cleanedCount == |results|
    {
      FlatMapStep(lines, i, CleanLine);
      var line := lines[i];
      if line.Blank? || line.Malformed? {
        continue;
      }
      var record := line.value;
      if !record.JObject? {
        continue;
      }
      var rawDesc := Get(record.fields, "predicted_desc", JString(""));
      var finalDesc := CleanValue(rawDesc);
      if finalDesc.None? {
        continue;
      }
      record := JObject(record.fields["predicted_desc" := JString(finalDesc.value)]);
      results := results + [record];
      cleanedCount := cleanedCount + 1;
    }
    assert lines[..|lines|] == lines;
  }

  // ------------------------------------------------------------ properties

  /** What does not occur in `s` does not occur in its tail either. */
  lemma NoInfixInTail(pat: string, s: string)
    requires s != [] && !IsInfix(pat, s)
    ensures !IsInfix(pat, s[1..])
  {
    forall i | 0 <= i <= |s[1..]| - |pat|
      ensures !OccursAt(s[1..], pat, i)
    {
      OccursShift(s, pat, 1, i);
    }
  }

  /** Text without `<think>` comes out of the scan unchanged. */
  lemma {:induction false} NoOpenKeeps(s: string)
    requires !IsInfix(OPEN, s)
    ensures RemoveThink(s) == s
    decreases |s|
  {
    if s != [] {
      if OPEN <= s {
        assert OccursAt(s, OPEN, 0);
      }
      NoInfixInTail(OPEN, s);
      NoOpenKeeps(s[1..]);
      assert s == [s[0]] + s[1..];
    }
  }

  /** A scan that meets no match anywhere copies the whole text. */
  lemma {:induction false} NoMatchKeeps(s: string)
    requires forall j :: 0 <= j <= |s| ==> MatchLen(s[j..]).None?
    ensures RemoveThink(s) == s
    decreases |s|
  {
    if s != [] {
      assert s[0..] == s;
      forall j | 0 <= j <= |s[1..]|
        ensures MatchLen(s[1..][j..]).None?
      {
        assert s[1..][j..] == s[j + 1..];
      }
      NoMatchKeeps(s[1..]);
      assert s == [s[0]] + s[1..];
    }
  }

  /** A match anywhere makes the scan's output strictly shorter. */
  lemma {:induction false} MatchShortens(s: string, j: nat)
    requires j <= |s| && MatchLen(s[j..]).Some?
    ensures |RemoveThink(s)| < |s|
    decreases j
  {
    if j == 0 {
      assert s[0..] == s;
    } else if MatchLen(s).None? {
      assert s[1..][j - 1..] == s[j..];
      MatchShortens(s[1..], j - 1);
    }
  }

  /** The substitution changes the text exactly when some `<think>` is closed later on. */
  lemma RemoveThinkChangesIffPair(s: string)
    ensures RemoveThink(s) == s <==> !HasPair(s)
  {
    if HasPair(s) {
      var j :| 0 <= j <= |s| && MatchLen(s[j..]).Some?;
      MatchShortens(s, j);
    } else {
      NoMatchKeeps(s);
    }
  }

  /** Text without `<think>` is only stripped. */
  lemma NoThinkOnlyStrips(text: string)
    requires !IsInfix(OPEN, text)
    ensures CleanText(text) == Strip(text)
  {
    NoOpenKeeps(text);
  }

  /** `FindFrom` stops at the first occurrence. */
  lemma {:induction false} FindFromFirst(s: string, pat: string, from: nat, k: nat)
    requires from <= k && OccursAt(s, pat, k)
    requires forall j :: from <= j < k ==> !OccursAt(s, pat, j)
    ensures FindFrom(s, pat, from) == Some(k)
    decreases k - from
  {
    if from < k {
      FindFromFirst(s, pat, from + 1, k);
    }
  }

  /** A character other than '<' cannot start either tag. */
  lemma NoTagWithoutLt(s: string, pat: string, j: int)
    requires pat != [] && pat[0] == '<'
    requires 0 <= j < |s| && s[j] != '<'
    ensures !OccursAt(s, pat, j)
  {
    if j + |pat| <= |s| {
      assert s[j..j + |pat|][0] == s[j];
    }
  }

  /** No match starts at a character other than '<'. */
  lemma NoMatchWithoutLt(t: string)
    requires t != [] && t[0] != '<'
    ensures MatchLen(t).None?
  {
    assert OPEN[0] == '<';
  }

  /** A leading `<think>` whose body has no '<' is closed by the `</think>` right after the body. */
  lemma LeadingBlockMatch(x: string, y: string)
    requires '<' !in x
    ensures MatchLen(OPEN + x + CLOSE + y) == Some(|OPEN| + |x| + |CLOSE|)
  {
    var s := OPEN + x + CLOSE + y;
    assert s[..|OPEN|] == OPEN;
    assert s[|OPEN| + |x|..|OPEN| + |x| + |CLOSE|] == CLOSE;
    forall j | |OPEN| <= j < |OPEN| + |x|
      ensures !OccursAt(s, CLOSE, j)
    {
      assert s[j] == x[j - |OPEN|];
      NoTagWithoutLt(s, CLOSE, j);
    }
    FindFromFirst(s, CLOSE, |OPEN|, |OPEN| + |x|);
  }

  /**
   * A leading block whose body has no '<' is dropped up to the first
   * `</think>`, and the scan carries on with what follows.
   */
  lemma LeadingBlockDropped(x: string, y: string)
    requires '<' !in x
    ensures RemoveThink(OPEN + x + CLOSE + y) == RemoveThink(y)
  {
    var s := OPEN + x + CLOSE + y;
    LeadingBlockMatch(x, y);
    assert s[|OPEN| + |x| + |CLOSE|..] == y;
  }

  /** Text without '<' followed by a closing tag contains no opening tag. */
  lemma NoOpenBeforeClose(x: string)
    requires '<' !in x
    ensures !IsInfix(OPEN, x + CLOSE)
  {
    var s := x + CLOSE;
    forall j | 0 <= j
      ensures !OccursAt(s, OPEN, j)
    {
      if j < |x| {
        assert s[j] == x[j];
        NoTagWithoutLt(s, OPEN, j);
      } else if j == |x| {
        if j + |OPEN| <= |s| {
          assert s[j..j + |OPEN|][1] == '/';
        }
      } else if j < |s| {
        assert s[j] == CLOSE[j - |x|];
        NoTagWithoutLt(s, OPEN, j);
      }
    }
  }

  /** A reasoning block in front of an answer without '<' leaves just the stripped answer. */
  lemma LeadingBlockAnswer(x: string, y: string)
    requires '<' !in x && '<' !in y
    ensures CleanText(OPEN + x + CLOSE + y) == Strip(y)
  {
    LeadingBlockDropped(x, y);
    assert OPEN[0] == '<';
    AbsentFirstChar(OPEN, y);
    NoOpenKeeps(y);
  }

  /** The example of a reasoning block before the answer. */
  lemma ThinkBlockExample()
    ensures CleanText(OPEN + "ignore this" + CLOSE + "最终结果") == "最终结果"
  {
    LeadingBlockAnswer("ignore this", "最终结果");
    StripOfStripped("最终结果");
  }

  /** A character at which no match starts is copied. */
  lemma CopiesUnmatched(c: char, t: string)
    requires MatchLen([c] + t).None?
    ensures RemoveThink([c] + t) == [c] + RemoveThink(t)
  {
    assert ([c] + t)[1..] == t;
  }

  /** "<thi" in front of a '<' cannot start a match, so it is copied. */
  lemma ThiCopied(z: string)
    requires z != [] && z[0] == '<'
    ensures RemoveThink("<thi" + z) == "<thi" + RemoveThink(z)
  {
    var z3 := ['i'] + z;
    var z2 := ['h'] + z3;
    var z1 := ['t'] + z2;
    var s := ['<'] + z1;
    NoMatchWithoutLt(z3);
    CopiesUnmatched('i', z);
    NoMatchWithoutLt(z2);
    CopiesUnmatched('h', z3);
    NoMatchWithoutLt(z1);
    CopiesUnmatched('t', z2);
    assert MatchLen(s).None? by {
      assert s[4] == '<';
      assert OPEN[4] == 'n';
    }
    CopiesUnmatched('<', z1);
    ConsFour('<', 't', 'h', 'i', z);
    ConsFour('<', 't', 'h', 'i', RemoveThink(z));
  }

  /** Four characters put in front one at a time (a proof helper, no counterpart in the script). */
  lemma ConsFour(a: char, b: char, c: char, d: char, r: string)
    ensures [a] + ([b] + ([c] + ([d] + r))) == [a, b, c, d] + r
  {
  }

  /** Regrouping a four-part concatenation (a proof helper, no counterpart in the script). */
  lemma Regroup(p: string, q: string, r: string, t: string)
    ensures p + (q + r + t) == (p + q) + r + t
  {
  }

  /** The opening tag, cut after its fourth character (a proof helper, no counterpart in the script). */
  lemma OpenSplit()
    ensures "<thi" + "nk>" == OPEN
  {
  }

  /** A `<think>` whose body has no '<', closed by `</think>`, is a pair. */
  lemma ClosedBlockIsPair(a: string)
    requires '<' !in a
    ensures HasPair(OPEN + a + CLOSE)
  {
    var pair := OPEN + a + CLOSE;
    LeadingBlockMatch(a, "");
    assert pair + "" == pair;
    assert pair[0..] == pair;
  }

  /**
   * Removing a block from inside the letters of a tag splices a new
   * `<think>…</think>` out of the text on either side.
   */
  lemma SplicedRemoval(x: string, a: string)
    requires '<' !in x && '<' !in a
    ensures RemoveThink("<thi" + (OPEN + x + CLOSE + ("nk>" + a + CLOSE))) == OPEN + a + CLOSE
  {
    var w := "nk>" + a + CLOSE;
    ThiCopied(OPEN + x + CLOSE + w);
    LeadingBlockDropped(x, w);
    assert '<' !in "nk>" + a;
    NoOpenBeforeClose("nk>" + a);
    NoOpenKeeps(w);
    assert RemoveThink("<thi" + (OPEN + x + CLOSE + w)) == "<thi" + w;
    Regroup("<thi", "nk>", a, CLOSE);
    OpenSplit();
  }

  /**
   * One pass is not a fixed point: its output can hold a pair it will not
   * remove before being called again.
   */
  lemma SplicedPair(x: string, a: string)
    requires '<' !in x && '<' !in a
    ensures HasPair(RemoveThink("<thi" + (OPEN + x + CLOSE + ("nk>" + a + CLOSE))))
  {
    SplicedRemoval(x, a);
    ClosedBlockIsPair(a);
  }

  /**
   * A kept line gives its object back with only `predicted_desc` replaced by
   * a stripped string (added as "" when missing); every other line gives nothing.
   */
  lemma CleanLineOutcome(line: Line)
    ensures |CleanLine(line)| == (if Cleanable(line) then 1 else 0)
    ensures Cleanable(line) ==>
      var fields := line.value.fields;
      var r := CleanLine(line)[0];
      r.JObject? && r.fields.Keys == fields.Keys + {"predicted_desc"}
      && (forall k :: k in fields && k != "predicted_desc" ==> r.fields[k] == fields[k])
      && r.fields["predicted_desc"].JString? && IsStripped(r.fields["predicted_desc"].str)
      && ("predicted_desc" !in fields ==> r.fields["predicted_desc"] == JString(""))
  {
  }

  /** `cleaned_count` counts exactly the kept lines. */
  lemma {:induction false} CleanedCount(lines: seq<Line>)
    ensures |FlatMap(lines, CleanLine)| == CountWhere(lines, Cleanable)
    decreases |lines|
  {
    if lines != [] {
      CleanedCount(lines[..|lines| - 1]);
      CleanLineOutcome(lines[|lines| - 1]);
    }
  }
}

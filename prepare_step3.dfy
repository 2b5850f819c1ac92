/**
 * yiliao/prepare_step3_final.py: every labelled row with a description (its
 * own, or the one predicted for its key) gives two classification samples;
 * these are mixed with the standard-knowledge records and shuffled.
 */
module PrepareStep3 {
  import opened Wrappers
  import opened Text
  import opened Json
  import opened Records
  import Random
  import PrepareStep1
  import CleanStep2

  const FINAL_SYSTEM_PROMPT :=
    "你是一个医疗数据治理专家。请根据输入信息完成数据分类。"
    + "如果输入中缺失字段注释（Desc），请先进行【语义解析】（推断其具体的业务含义），再依据《健康医疗数据规范》判断【标准分类】；"
    + "如果输入中已包含字段注释（Desc），请忽略表名和字段名的语义干扰，直接基于该注释判断【标准分类】。"
    + "输出格式严格遵守：'语义解析:xxx; 标准分类:xxx' 或 '标准分类:xxx'"

  /** `clean_desc`: "" for empty input, otherwise the text without noise tokens, stripped. */
  function CleanDesc(text: string): (r: string)
    ensures text == "" ==> r == ""
    ensures IsStripped(r)
  {
    if text == "" then "" else Strip(RemoveAll(text, NOISE_TOKEN))
  }

  // ------------------------------------------------- the prediction map

  /**
   * The entry one line of the step-2 file contributes: both `query` and
   * `predicted_desc` must be strings (a missing one reads as "", anything
   * else makes `.strip()` raise and the line is skipped) and both must be
   * non-empty once stripped.
   */
  function PredictionEntry(line: Line): (e: Option<(string, string)>)
    ensures e.Some? ==> e.value.0 != "" && e.value.1 != "" && IsStripped(e.value.0) && IsStripped(e.value.1)
  {
    match line
    case Parsed(JObject(fields)) =>
      var q := Get(fields, "query", JString(""));
      var d := Get(fields, "predicted_desc", JString(""));
      if q.JString? && d.JString? && Strip(q.str) != "" && Strip(d.str) != ""
      then Some((Strip(q.str), Strip(d.str)))
      else None
    case _ => None
  }

  /** The `mapping` dictionary after the loop has read `lines`. */
  function PredictedMap(lines: seq<Line>): map<string, string>
    decreases |lines|
  {
    if lines == [] then map[]
    else
      var m := PredictedMap(lines[..|lines| - 1]);
      match PredictionEntry(lines[|lines| - 1])
      case Some((q, d)) => m[q := d]
      case None => m
  }

  /** `load_predicted_descs`: a missing file gives the empty map. */
  method LoadPredictedDescs(file: Option<seq<Line>>) returns (mapping: map<string, string>)
    ensures file.None? ==> mapping == map[]
    ensures file.Some? ==> mapping == PredictedMap(file.value)
  {
    mapping := map[];
    if file.None? {
      return;
    }
    var lines := file.value;
    for i := 0 to |lines|
      invariant mapping == PredictedMap(lines[..i])
    {
      assert lines[..i + 1][..i] == lines[..i];
      var line := lines[i];
      if line.Blank? || line.Malformed? {
        continue;
      }
      var record := line.value;
      if !record.JObject? {
        continue;
      }
      var qv := Get(record.fields, "query", JString(""));
      if !qv.JString? {
        continue;
      }
      var q := Strip(qv.str);
      var dv := Get(record.fields, "predicted_desc", JString(""));
      if !dv.JString? {
        continue;
      }
      var desc := Strip(dv.str);
      if q != "" && desc != "" {
        mapping := mapping[q := desc];
      }
    }
    assert lines[..|lines|] == lines;
  }

  // --------------------------------------------------- the business rows

  /** `p_sign if p_sign else b_sign`, both stripped. */
  function Label(row: Row): string
  {
    var p := Strip(Field(row, "personalSign"));
    if p != "" then p else Strip(Field(row, "businessSign"))
  }

  /** The row's own description: `clean_desc(nickname.strip())`. */
  function NativeDesc(row: Row): string
  {
    CleanDesc(Strip(Field(row, "nickname")))
  }

  /** The native description, or else the prediction stored under the row's key, or else "". */
  function FinalDesc(row: Row, predicted: map<string, string>): string
  {
    var native := NativeDesc(row);
    if native != "" then native
    else if RowKey(row) in predicted then predicted[RowKey(row)]
    else ""
  }

  /** A row that yields samples: it has a category and a description. */
  predicate Valid(row: Row, predicted: map<string, string>)
  {
    Label(row) != "" && FinalDesc(row, predicted) != ""
  }

  /** Mode A: from the key alone, reason out the description, then classify. */
  function ReasoningSample(key: string, desc: string, category: string): Sample
  {
    Sample(FINAL_SYSTEM_PROMPT, key, "语义解析:" + desc + "; 标准分类:" + category, None)
  }

  /** Mode B: from the key and the description, classify. */
  function DirectSample(key: string, desc: string, category: string): Sample
  {
    Sample(FINAL_SYSTEM_PROMPT, WithDesc(key, desc), "标准分类:" + category, None)
  }

  /** What one row appends to `business_samples`. */
  function RowPair(row: Row, predicted: map<string, string>): seq<Sample>
  {
    if !Valid(row, predicted) then []
    else
      var desc, category := FinalDesc(row, predicted), Label(row);
      [ReasoningSample(RowKey(row), desc, category), DirectSample(RowKey(row), desc, category)]
  }

  /** `RowPair` against a fixed map, as one function of the row. */
  function PairsWith(predicted: map<string, string>): Row -> seq<Sample>
  {
    row => RowPair(row, predicted)
  }

  function ValidWith(predicted: map<string, string>): Row -> bool
  {
    row => Valid(row, predicted)
  }

  /** The body of the row loop: the samples one row appends, and whether it counts as valid. */
  method ProcessRow(row: Row, predictedMap: map<string, string>) returns (samples: seq<Sample>, valid: bool)
    ensures samples == RowPair(row, predictedMap)
    ensures valid == Valid(row, predictedMap)
  {
    samples, valid := [], false;
    var pSign := Strip(Field(row, "personalSign"));
    var bSign := Strip(Field(row, "businessSign"));
    var category := if pSign != "" then pSign else bSign;
    if category == "" {
      return;
    }
    var uri := Strip(Field(row, "uri"));
    var name := Strip(Field(row, "name"));
    var queryKey := QueryKey(uri, name);
    var rawDesc := Strip(Field(row, "nickname"));
    var finalDesc := CleanDesc(rawDesc);
    if finalDesc == "" {
      if queryKey in predictedMap {
        finalDesc := predictedMap[queryKey];
      }
    }
    if finalDesc == "" {
      return;
    }
    valid := true;
    samples := samples + [ReasoningSample(queryKey, finalDesc, category)];
    samples := samples + [DirectSample(queryKey, finalDesc, category)];
  }

  /** The row loop of `generate_step3_dataset`. */
  method BuildBusinessSamples(rows: seq<Row>, predictedMap: map<string, string>)
    returns (businessSamples: seq<Sample>, validCount: nat)
    ensures businessSamples == FlatMap(rows, PairsWith(predictedMap))
    ensures validCount == CountWhere(rows, ValidWith(predictedMap))
  {
    businessSamples, validCount := [], 0;
    for i := 0 to |rows|
      invariant businessSamples == FlatMap(rows[..i], PairsWith(predictedMap))
      invariant validCount == CountWhere(rows[..i], ValidWith(predictedMap))
    {
      FlatMapStep(rows, i, PairsWith(predictedMap));
      CountWhereStep(rows, i, ValidWith(predictedMap));
      var samples, valid := ProcessRow(rows[i], predictedMap);
      if valid {
        validCount := validCount + 1;
      }
      businessSamples := businessSamples + samples;
    }
    assert rows[..|rows|] == rows;
  }

  // ------------------------------------------------------- the whole run

  datatype Step3Error = MalformedStandardLine(index: nat)

  /** The value a line of the standard file contributes: a decoded line its value, a blank line nothing. */
  function ParsedValue(line: Line): seq<Json>
  {
    if line.Parsed? then [line.value] else []
  }

  /**
   * The standard file's records: blank lines are skipped and any other line
   * must decode (`json.loads` is not guarded, so a bad line ends the run).
   */
  function StandardRecords(lines: seq<Line>): (r: Result<seq<Json>, Step3Error>)
    ensures r.Ok? ==> |r.value| <= |lines|
    ensures r.Ok? ==> r.value == FlatMap(lines, ParsedValue)
    ensures r.Err? ==> r.error.index < |lines| && lines[r.error.index].Malformed?
    decreases |lines|
  {
    if lines == [] then Ok([])
    else
      match StandardRecords(lines[..|lines| - 1])
      case Err(e) => Err(e)
      case Ok(rs) =>
        match lines[|lines| - 1]
        case Blank => Ok(rs)
        case Malformed => Err(MalformedStandardLine(|lines| - 1))
        case Parsed(v) => Ok(rs + [v])
  }

  function SamplesToJson(samples: seq<Sample>): (js: seq<Json>)
    ensures |js| == |samples|
    ensures forall i :: 0 <= i < |samples| ==> js[i] == SampleToJson(samples[i])
    ensures forall i :: 0 <= i < |samples| ==> SampleOfJson(js[i]) == Some(samples[i])
  {
    seq(|samples|, i requires 0 <= i < |samples| => SampleToJson(samples[i]))
  }

  /** `business_samples + standard_data` before the shuffle. */
  function Unshuffled(rows: seq<Row>, step2: Option<seq<Line>>, standard: seq<Json>): seq<Json>
  {
    var predicted := if step2.Some? then PredictedMap(step2.value) else map[];
    SamplesToJson(FlatMap(rows, PairsWith(predicted))) + standard
  }

  /**
   * `generate_step3_dataset` once the files are read: `step2` and `standard`
   * are `None` when the file does not exist; `draws` feeds `random.shuffle`.
   */
  method GenerateStep3Dataset(rows: seq<Row>, step2: Option<seq<Line>>, standard: Option<seq<Line>>, draws: nat -> nat)
    returns (result: Result<seq<Json>, Step3Error>)
    ensures standard.Some? && StandardRecords(standard.value).Err? ==>
      result == Err(StandardRecords(standard.value).error)
    ensures (standard.None? || StandardRecords(standard.value).Ok?) ==> result.Ok?
    ensures result.Ok? ==>
      var std := if standard.Some? then StandardRecords(standard.value).value else [];
      result.value == Random.Shuffle(Unshuffled(rows, step2, std), draws, 0)
  {
    var predictedMap := LoadPredictedDescs(step2);

    var standardData: seq<Json> := [];
    if standard.Some? {
      var loaded := StandardRecords(standard.value);
      if loaded.Err? {
        return Err(loaded.error);
      }
      standardData := loaded.value;
    }

    var businessSamples, validCount := BuildBusinessSamples(rows, predictedMap);

    var finalDataset := SamplesToJson(businessSamples) + standardData;
    var buffer := new Json[|finalDataset|](i requires 0 <= i < |finalDataset| => finalDataset[i]);
    assert buffer[..] == finalDataset;
    Random.ShuffleInPlace(buffer, draws, 0);
    return Ok(buffer[..]);
  }

  // ------------------------------------------------------------ properties

  /** The line gives an entry for the key `q`. */
  predicate EntryFor(line: Line, q: string)
  {
    PredictionEntry(line).Some? && PredictionEntry(line).value.0 == q
  }

  /** Some element satisfies `p` exactly when one before the last does or the last does. */
  lemma ExistsSnoc<T>(xs: seq<T>, init: seq<T>, p: T -> bool)
    requires xs != [] && init == xs[..|xs| - 1]
    ensures (exists i :: 0 <= i < |xs| && p(xs[i]))
        <==> (exists i :: 0 <= i < |init| && p(init[i])) || p(xs[|xs| - 1])
  {
    if exists i :: 0 <= i < |xs| && p(xs[i]) {
      var i :| 0 <= i < |xs| && p(xs[i]);
      if i < |xs| - 1 {
        assert init[i] == xs[i];
      }
    }
    if exists i :: 0 <= i < |init| && p(init[i]) {
      var i :| 0 <= i < |init| && p(init[i]);
      assert xs[i] == init[i];
    }
  }

  /** Reading one more line adds its key, if it gives an entry, and nothing else. */
  lemma PredictedKeySnoc(lines: seq<Line>, q: string)
    requires lines != []
    ensures q in PredictedMap(lines)
        <==> q in PredictedMap(lines[..|lines| - 1]) || EntryFor(lines[|lines| - 1], q)
  {
  }

  /** Every key of the map is the stripped `query` of some line that gives an entry. */
  lemma {:induction false} PredictedMapFromLines(lines: seq<Line>, q: string)
    ensures q in PredictedMap(lines) <==> exists i :: 0 <= i < |lines| && EntryFor(lines[i], q)
    decreases |lines|
  {
    if lines != [] {
      PredictedMapFromLines(lines[..|lines| - 1], q);
      ExistsSnoc(lines, lines[..|lines| - 1], l => EntryFor(l, q));
      PredictedKeySnoc(lines, q);
    }
  }

  /** Every value of the map is a stripped, non-empty `predicted_desc`. */
  lemma {:induction false} PredictedValuesClean(lines: seq<Line>)
    ensures forall q :: q in PredictedMap(lines) ==> PredictedMap(lines)[q] != "" && IsStripped(PredictedMap(lines)[q])
    decreases |lines|
  {
    if lines != [] {
      PredictedValuesClean(lines[..|lines| - 1]);
    }
  }

  /** A later line with the same key overwrites an earlier one: the last entry for a key wins. */
  lemma {:induction false} LastEntryWins(lines: seq<Line>, i: nat, q: string, d: string)
    requires i < |lines| && PredictionEntry(lines[i]) == Some((q, d))
    requires forall j :: i < j < |lines| ==> !EntryFor(lines[j], q)
    ensures q in PredictedMap(lines) && PredictedMap(lines)[q] == d
    decreases |lines|
  {
    if i < |lines| - 1 {
      var init := lines[..|lines| - 1];
      assert init[i] == lines[i];
      LastEntryWins(init, i, q, d);
    }
  }

  /**
   * The standard file is read in full exactly when none of its lines is
   * malformed; otherwise the run ends at the first malformed line.
   */
  lemma {:induction false} StandardRecordsCases(lines: seq<Line>)
    ensures StandardRecords(lines).Ok? <==> forall i :: 0 <= i < |lines| ==> !lines[i].Malformed?
    ensures StandardRecords(lines).Err? ==> forall i :: 0 <= i < StandardRecords(lines).error.index ==> !lines[i].Malformed?
    decreases |lines|
  {
    if lines != [] {
      var init := lines[..|lines| - 1];
      StandardRecordsCases(init);
      assert forall i :: 0 <= i < |init| ==> init[i] == lines[i];
    }
  }

  /** `clean_desc` of text that is already stripped and free of the token gives it back. */
  lemma CleanDescKeepsClean(text: string)
    requires IsStripped(text) && !IsInfix(NOISE_TOKEN, text)
    ensures CleanDesc(text) == text
  {
    RemoveAllWithoutPattern(text, NOISE_TOKEN);
    StripOfStripped(text);
  }

  /**
   * The two cleaners agree on text without CR, LF or TAB, except that
   * step 1 also turns null literals into "".
   */
  lemma CleanersAgree(text: string)
    requires '\r' !in text && '\n' !in text && '\t' !in text
    ensures PrepareStep1.CleanDescription(text)
         == (if PrepareStep1.IsNullLiteral(CleanDesc(text)) then "" else CleanDesc(text))
  {
    if text != "" {
      var t1 := RemoveAll(text, NOISE_TOKEN);
      RemoveAllKeepsOut(text, NOISE_TOKEN, '\r');
      RemoveAllKeepsOut(text, NOISE_TOKEN, '\n');
      RemoveAllKeepsOut(text, NOISE_TOKEN, '\t');
      RemoveAllWithoutFirstChar(t1, "\r");
      RemoveAllWithoutFirstChar(t1, "\n");
      RemoveAllWithoutFirstChar(t1, "\t");
      assert PrepareStep1.Denoise(text) == t1;
    } else {
      assert PrepareStep1.IsNullLiteral("");
    }
  }

  /** One row: no samples, or mode A then mode B sharing key, description and category. */
  lemma RowPairShape(row: Row, predicted: map<string, string>)
    ensures |RowPair(row, predicted)| == (if Valid(row, predicted) then 2 else 0)
    ensures Valid(row, predicted) ==>
      var a, b := RowPair(row, predicted)[0], RowPair(row, predicted)[1];
      var desc, category := FinalDesc(row, predicted), Label(row);
      a.query == RowKey(row) && a.response == "语义解析:" + desc + "; 标准分类:" + category
      && b.query == RowKey(row) + "; Desc:" + desc && b.response == "标准分类:" + category
  {
  }

  /** Two samples per valid row: `len(business_samples) == 2 * valid_count`. */
  lemma {:induction false} BusinessSampleCount(rows: seq<Row>, predicted: map<string, string>)
    ensures |FlatMap(rows, PairsWith(predicted))| == 2 * CountWhere(rows, ValidWith(predicted))
    decreases |rows|
  {
    if rows != [] {
      BusinessSampleCount(rows[..|rows| - 1], predicted);
      RowPairShape(rows[|rows| - 1], predicted);
    }
  }

  /** A row's own description wins: the prediction map is then irrelevant. */
  lemma NativeDescriptionWins(row: Row, p1: map<string, string>, p2: map<string, string>)
    requires NativeDesc(row) != ""
    ensures FinalDesc(row, p1) == NativeDesc(row) && RowPair(row, p1) == RowPair(row, p2)
  {
  }

  /** Without a native description, the prediction stored under the row's key is used. */
  lemma PredictionFillsIn(row: Row, predicted: map<string, string>)
    requires NativeDesc(row) == "" && RowKey(row) in predicted
    ensures FinalDesc(row, predicted) == predicted[RowKey(row)]
  {
  }

  /** Whatever the draws, the dataset is a permutation of the business samples and the standard records. */
  lemma DatasetIsPermutation(rows: seq<Row>, step2: Option<seq<Line>>, standard: seq<Json>, draws: nat -> nat)
    ensures var unshuffled := Unshuffled(rows, step2, standard);
      var dataset := Random.Shuffle(unshuffled, draws, 0);
      |dataset| == |unshuffled| && multiset(dataset) == multiset(unshuffled)
  {
    Random.ShufflePermutes(Unshuffled(rows, step2, standard), draws, 0);
  }

  /**
   * The key joins the scripts: a step-2 record whose `query` is the key a
   * row gets in step 1, once cleaned, gives a map entry under that same key
   * holding the cleaned prediction, and a row without its own description
   * then takes that prediction.
   */
  lemma CleanedPredictionJoins(row: Row, fields: map<string, Json>, d: string)
    requires "query" in fields && fields["query"] == JString(RowKey(row))
    requires "predicted_desc" in fields && fields["predicted_desc"] == JString(d)
    requires CleanStep2.CleanText(d) != ""
    ensures var cleaned := CleanStep2.CleanLine(Parsed(JObject(fields)));
      |cleaned| == 1
      && PredictionEntry(Parsed(cleaned[0])) == Some((RowKey(row), CleanStep2.CleanText(d)))
      && (NativeDesc(row) == "" ==> FinalDesc(row, PredictedMap([Parsed(cleaned[0])])) == CleanStep2.CleanText(d))
  {
    var c := CleanStep2.CleanText(d);
    QueryKeyIsStripped(Strip(Field(row, "uri")), Strip(Field(row, "name")));
    StripOfStripped(c);
    assert Truthy(JString(d));
    var cleaned := CleanStep2.CleanLine(Parsed(JObject(fields)));
    assert cleaned == [JObject(fields["predicted_desc" := JString(c)])];
    var line := Parsed(cleaned[0]);
    assert PredictionEntry(line) == Some((RowKey(row), c));
    assert [line][..0] == [];
  }
}

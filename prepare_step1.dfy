/**
 * yiliao/prepare_step1_dataset.py: rows whose annotation survives cleaning
 * become training samples `table + column -> annotation`; the others are
 * kept, with their raw cells, for the model to annotate later.
 */
module PrepareStep1 {
  import opened Wrappers
  import opened Text
  import opened Records

  const SYSTEM_PROMPT :=
    "你是一个医疗数据治理领域的元数据解析专家。"
    + "你的任务是根据数据库表名和字段名（可能是拼音首字母、英文缩写或混合编码），"
    + "结合医疗业务上下文，精准推断并输出其对应的中文业务含义（字段注释）。"
    + "直接输出中文含义即可，无需解释。"

  /** `text.lower() in ["null", "nan", "none", ""]`. */
  predicate IsNullLiteral(text: string)
  {
    Lower(text) in ["null", "nan", "none", ""]
  }

  /** The null-literal test ignores case: text and its lower-cased form are tested alike. */
  lemma NullLiteralIgnoresCase(text: string)
    ensures IsNullLiteral(Lower(text)) <==> IsNullLiteral(text)
  {
    LowerIdempotent(text);
  }

  /** The noise token, then CR, LF and TAB, removed in that order. */
  function Denoise(text: string): (r: string)
    ensures '\r' !in r && '\n' !in r && '\t' !in r
  {
    var t1 := RemoveAll(text, NOISE_TOKEN);
    var t2 := RemoveAll(t1, "\r");
    var t3 := RemoveAll(t2, "\n");
    RemoveCharGone(t1, '\r');
    RemoveCharGone(t2, '\n');
    RemoveCharGone(t3, '\t');
    RemoveAllKeepsOut(t2, "\n", '\r');
    RemoveAllKeepsOut(t3, "\t", '\r');
    RemoveAllKeepsOut(t3, "\t", '\n');
    RemoveAll(t3, "\t")
  }

  /**
   * `clean_description`: empty input gives "", otherwise the denoised,
   * stripped text, unless that is a null literal.
   */
  function CleanDescription(text: string): (r: string)
    ensures text == "" ==> r == ""
    ensures IsStripped(r)
    ensures '\r' !in r && '\n' !in r && '\t' !in r
    ensures r == "" || !IsNullLiteral(r)
  {
    if text == "" then ""
    else
      var d := Denoise(text);
      StripKeepsOut(d, '\r');
      StripKeepsOut(d, '\n');
      StripKeepsOut(d, '\t');
      var t := Strip(d);
      if IsNullLiteral(t) then "" else t
  }

  /** What one row adds to `train_data`. */
  function RowTrain(row: Row): seq<Sample>
  {
    var desc := CleanDescription(Field(row, "nickname"));
    if desc != "" then [Sample(SYSTEM_PROMPT, RowKey(row), desc, None)] else []
  }

  /** What one row adds to `null_data`. */
  function RowPending(row: Row): seq<NullRecord>
  {
    if CleanDescription(Field(row, "nickname")) == "" then [NullRecord(RowKey(row), None, row)] else []
  }

  predicate Annotated(row: Row)
  {
    CleanDescription(Field(row, "nickname")) != ""
  }

  /** The row loop of `process_csv`. */
  method ProcessCsv(rows: seq<Row>) returns (train: seq<Sample>, nulls: seq<NullRecord>, totalCount: nat)
    ensures train == FlatMap(rows, RowTrain)
    ensures nulls == FlatMap(rows, RowPending)
    ensures totalCount == |rows|
  {
    train, nulls, totalCount := [], [], 0;
    for i := 0 to |rows|
      invariant train == FlatMap(rows[..i], RowTrain)
      invariant nulls == FlatMap(rows[..i], RowPending)
      invariant totalCount == i
    {
      var row := rows[i];
      totalCount := totalCount + 1;

      var uri := Strip(Field(row, "uri"));
      var name := Strip(Field(row, "name"));
      var rawNickname := Field(row, "nickname");
      var cleanedDesc := CleanDescription(rawNickname);
      var queryContent := QueryKey(uri, name);

      if cleanedDesc != "" {
        train := train + [Sample(SYSTEM_PROMPT, queryContent, cleanedDesc, None)];
      } else {
        nulls := nulls + [NullRecord(queryContent, None, row)];
      }
      FlatMapStep(rows, i, RowTrain);
      FlatMapStep(rows, i, RowPending);
    }
    assert rows[..|rows|] == rows;
  }

  // ------------------------------------------------------------ properties

  /** Each row goes to exactly one of the two lists. */
  lemma RowOutcome(row: Row)
    ensures |RowTrain(row)| == (if Annotated(row) then 1 else 0)
    ensures |RowPending(row)| == (if Annotated(row) then 0 else 1)
    ensures Annotated(row) ==>
      RowTrain(row)[0].query == RowKey(row) && RowTrain(row)[0].response == CleanDescription(Field(row, "nickname"))
    ensures !Annotated(row) ==> RowPending(row)[0] == NullRecord(RowKey(row), None, row)
  {
  }

  /** Train samples count the annotated rows, and |train| + |null| = rows scanned. */
  lemma {:induction false} ProcessCsvCounts(rows: seq<Row>)
    ensures |FlatMap(rows, RowTrain)| == CountWhere(rows, Annotated)
    ensures |FlatMap(rows, RowTrain)| + |FlatMap(rows, RowPending)| == |rows|
    decreases |rows|
  {
    if rows != [] {
      ProcessCsvCounts(rows[..|rows| - 1]);
      RowOutcome(rows[|rows| - 1]);
    }
  }

  /**
   * Every training response is the cleaned annotation of an input row: non-empty,
   * without CR, LF or TAB, without surrounding whitespace and not a null literal.
   */
  lemma TrainResponsesAreClean(rows: seq<Row>)
    ensures forall s :: s in FlatMap(rows, RowTrain) ==>
      s.system == SYSTEM_PROMPT && s.kind == None && s.response != ""
      && IsStripped(s.response) && !IsNullLiteral(s.response)
      && '\r' !in s.response && '\n' !in s.response && '\t' !in s.response
      && exists row :: row in rows && s.query == RowKey(row) && s.response == CleanDescription(Field(row, "nickname"))
  {
    forall s | s in FlatMap(rows, RowTrain)
      ensures s.system == SYSTEM_PROMPT && s.kind == None && s.response != ""
      && IsStripped(s.response) && !IsNullLiteral(s.response)
      && '\r' !in s.response && '\n' !in s.response && '\t' !in s.response
      && exists row :: row in rows && s.query == RowKey(row) && s.response == CleanDescription(Field(row, "nickname"))
    {
      FlatMapMember(rows, RowTrain, s);
      var row :| row in rows && s in RowTrain(row);
      RowTrainSample(row, s);
    }
  }

  /** The one sample a row can add. */
  lemma RowTrainSample(row: Row, s: Sample)
    requires s in RowTrain(row)
    ensures s == Sample(SYSTEM_PROMPT, RowKey(row), CleanDescription(Field(row, "nickname")), None)
    ensures s.response != ""
  {
  }

  /** Every pending record is an input row, unchanged, whose annotation cleans to "". */
  lemma PendingRowsLackAnnotation(rows: seq<Row>)
    ensures forall r :: r in FlatMap(rows, RowPending) ==>
      r.raw in rows && !Annotated(r.raw) && r.query == RowKey(r.raw) && r.info == None
  {
    forall r | r in FlatMap(rows, RowPending)
      ensures r.raw in rows && !Annotated(r.raw) && r.query == RowKey(r.raw) && r.info == None
    {
      FlatMapMember(rows, RowPending, r);
      var row :| row in rows && r in RowPending(row);
      RowPendingRecord(row, r);
    }
  }

  /** The one record a row can add to the pending list. */
  lemma RowPendingRecord(row: Row, r: NullRecord)
    requires r in RowPending(row)
    ensures r == NullRecord(RowKey(row), None, row)
    ensures !Annotated(row)
  {
  }

  /** Text that is already clean passes through unchanged. */
  lemma CleanDescriptionKeepsClean(text: string)
    requires IsStripped(text) && !IsNullLiteral(text)
    requires !IsInfix(NOISE_TOKEN, text) && '\r' !in text && '\n' !in text && '\t' !in text
    ensures CleanDescription(text) == text
  {
    RemoveAllWithoutPattern(text, NOISE_TOKEN);
    AbsentFirstChar("\r", text);
    RemoveAllWithoutPattern(text, "\r");
    AbsentFirstChar("\n", text);
    RemoveAllWithoutPattern(text, "\n");
    AbsentFirstChar("\t", text);
    RemoveAllWithoutPattern(text, "\t");
    StripOfStripped(text);
  }

  /**
   * A null literal, in any case, padded with blanks and followed by a line
   * break, cleans to "": the row is sent to the pending list.
   */
  lemma {:induction false} PaddedNullLiteral(a: string, word: string, b: string)
    requires forall i :: 0 <= i < |a| ==> a[i] == ' '
    requires forall i :: 0 <= i < |b| ==> b[i] == ' '
    requires IsStripped(word) && IsNullLiteral(word)
    requires '#' !in word && '\r' !in word && '\n' !in word && '\t' !in word
    ensures CleanDescription(a + word + b + "\n") == ""
  {
    var x := a + word + b;
    assert forall c :: c in x ==> c == ' ' || c in word;
    DenoiseDropsLineBreak(x);
    StripCore(a, word, b);
  }

  /** "NULL" is one of the null literals. */
  lemma UpperNullIsNullLiteral()
    ensures IsNullLiteral("NULL")
  {
    var l := Lower("NULL");
    assert l[0] == 'n' && l[1] == 'u' && l[2] == 'l' && l[3] == 'l';
    assert l == "null";
  }

  /** A trailing line break is removed from otherwise clean text. */
  lemma {:induction false} DenoiseDropsLineBreak(x: string)
    requires '#' !in x && '\r' !in x && '\n' !in x && '\t' !in x
    ensures Denoise(x + "\n") == x
  {
    var s := x + "\n";
    RemoveAllWithoutFirstChar(s, NOISE_TOKEN);
    RemoveAllWithoutFirstChar(s, "\r");
    RemoveAllKeepsPrefix(x, "\n", "\n");
    RemoveAllDropsFront("", "\n");
    assert "\n" + "" == "\n";
    assert x + "" == x;
    RemoveAllWithoutFirstChar(x, "\t");
  }

  /** The noise token and a trailing tab are removed. */
  lemma NoiseExample()
    ensures CleanDescription("#|#|高血压\t") == "高血压"
  {
    NoiseDenoised();
    StripOfStripped("高血压");
    assert Lower("高血压") == "高血压";
  }

  lemma NoiseDenoised()
    ensures Denoise("#|#|高血压\t") == "高血压"
  {
    var s := "#|#|高血压\t";
    assert s == NOISE_TOKEN + "高血压\t";
    RemoveAllDropsFront("高血压\t", NOISE_TOKEN);
    RemoveAllWithoutFirstChar("高血压\t", NOISE_TOKEN);
    RemoveAllWithoutFirstChar("高血压\t", "\r");
    RemoveAllWithoutFirstChar("高血压\t", "\n");
    assert "高血压\t" == "高血压" + "\t";
    RemoveAllKeepsPrefix("高血压", "\t", "\t");
    RemoveAllDropsFront("", "\t");
    assert "\t" + "" == "\t";
  }

  /**
   * The token is removed before the line break, so a token split by a line
   * break survives: cleaning does not remove every token and is not idempotent.
   */
  lemma TokenReformsExample()
    ensures CleanDescription("#|#\n|") == NOISE_TOKEN
    ensures CleanDescription(CleanDescription("#|#\n|")) == ""
  {
    TokenReformsDenoised();
    StripOfStripped(NOISE_TOKEN);
    assert Lower(NOISE_TOKEN) == NOISE_TOKEN;
    TokenDenoised();
  }

  lemma TokenReformsDenoised()
    ensures Denoise("#|#\n|") == NOISE_TOKEN
  {
    TokenSurvivesFirstPass();
    RemoveAllWithoutFirstChar("#|#\n|", "\r");
    TokenJoined();
    RemoveAllWithoutFirstChar(NOISE_TOKEN, "\t");
  }

  /** The split token is not an occurrence of the token. */
  lemma TokenSurvivesFirstPass()
    ensures RemoveAll("#|#\n|", NOISE_TOKEN) == "#|#\n|"
  {
    var s := "#|#\n|";
    assert s[0..4][3] == '\n';
    assert s[1..5][0] == '|';
    RemoveAllWithoutPattern(s, NOISE_TOKEN);
  }

  /** Removing the line break joins the two halves of the token. */
  lemma TokenJoined()
    ensures RemoveAll("#|#\n|", "\n") == NOISE_TOKEN
  {
    assert "#|#\n|" == "#|#" + "\n|";
    RemoveAllKeepsPrefix("#|#", "\n|", "\n");
    assert "\n|" == "\n" + "|";
    RemoveAllDropsFront("|", "\n");
    RemoveAllWithoutFirstChar("|", "\n");
    assert "#|#" + "|" == NOISE_TOKEN;
  }

  /** The token on its own denoises to "". */
  lemma TokenDenoised()
    ensures Denoise(NOISE_TOKEN) == ""
  {
    RemoveAllDropsFront("", NOISE_TOKEN);
    assert NOISE_TOKEN + "" == NOISE_TOKEN;
  }
}

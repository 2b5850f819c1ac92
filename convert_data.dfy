/**
 * convert_data.py: every CSV row becomes one training sample per non-empty
 * sign (`personalSign`, then `businessSign`); a row with neither goes to the
 * null list with its raw cells.
 */
module ConvertData {
  import opened Wrappers
  import opened Text
  import opened Records

  const SYSTEM_PROMPT := "你是一个医疗数据治理专家。请根据给出的数据库表名、字段名和注释，判断该字段对应的健康医疗数据规范分类。"
  const NULL_INFO := "personalSign和businessSign均为空"

  /** A column's cell, stripped: a whitespace-only cell counts as empty. */
  function Cell(row: Row, column: string): string
  {
    Strip(Field(row, column))
  }

  /** `tablename:{uri}; colname:{name}; Desc:{nickname}` from the stripped cells. */
  function RowQuery(row: Row): string
  {
    WithDesc(RowKey(row), Cell(row, "nickname"))
  }

  predicate HasPersonal(row: Row) { Cell(row, "personalSign") != "" }
  predicate HasBusiness(row: Row) { Cell(row, "businessSign") != "" }
  predicate Unsigned(row: Row) { !HasPersonal(row) && !HasBusiness(row) }

  /** What one row appends to `output_data`, in order. */
  function RowSamples(row: Row): seq<Sample>
  {
    (if HasPersonal(row)
     then [Sample(SYSTEM_PROMPT, RowQuery(row), Cell(row, "personalSign"), Some("personalSign"))]
     else [])
    + (if HasBusiness(row)
       then [Sample(SYSTEM_PROMPT, RowQuery(row), Cell(row, "businessSign"), Some("businessSign"))]
       else [])
  }

  /** What one row appends to `null_data`: a record only when nothing went to `output_data`. */
  function RowNulls(row: Row): seq<NullRecord>
  {
    if RowSamples(row) == [] then [NullRecord(RowQuery(row), Some(NULL_INFO), row)] else []
  }

  /** The body of the row loop: the records one row appends to each list. */
  method ConvertRow(row: Row) returns (samples: seq<Sample>, records: seq<NullRecord>)
    ensures samples == RowSamples(row)
    ensures records == RowNulls(row)
  {
    var uri := Strip(Field(row, "uri"));
    var name := Strip(Field(row, "name"));
    var nickname := Strip(Field(row, "nickname"));
    var personalSign := Strip(Field(row, "personalSign"));
    var businessSign := Strip(Field(row, "businessSign"));

    var query := WithDesc(QueryKey(uri, name), nickname);

    samples, records := [], [];
    var hasValidData := false;
    if personalSign != "" {
      samples := samples + [Sample(SYSTEM_PROMPT, query, personalSign, Some("personalSign"))];
      hasValidData := true;
    }
    if businessSign != "" {
      samples := samples + [Sample(SYSTEM_PROMPT, query, businessSign, Some("businessSign"))];
      hasValidData := true;
    }
    if !hasValidData {
      records := [NullRecord(query, Some(NULL_INFO), row)];
    }
  }

  /** The row loop of `convert_csv_to_qa_dataset`. */
  method ConvertCsvToQaDataset(rows: seq<Row>) returns (output: seq<Sample>, nulls: seq<NullRecord>, totalLines: nat)
    ensures output == FlatMap(rows, RowSamples)
    ensures nulls == FlatMap(rows, RowNulls)
    ensures totalLines == |rows|
  {
    output, nulls, totalLines := [], [], 0;
    for i := 0 to |rows|
      invariant output == FlatMap(rows[..i], RowSamples)
      invariant nulls == FlatMap(rows[..i], RowNulls)
      invariant totalLines == i
    {
      totalLines := totalLines + 1;
      var samples, records := ConvertRow(rows[i]);
      output := output + samples;
      nulls := nulls + records;
      FlatMapStep(rows, i, RowSamples);
      FlatMapStep(rows, i, RowNulls);
    }
    assert rows[..|rows|] == rows;
  }

  // ------------------------------------------------------------ properties

  /**
   * One row: a record per non-empty sign, personalSign first, each carrying
   * its sign as response and type; a null record exactly when both are empty.
   */
  lemma RowOutcome(row: Row)
    ensures |RowSamples(row)| == (if HasPersonal(row) then 1 else 0) + (if HasBusiness(row) then 1 else 0)
    ensures forall s :: s in RowSamples(row) ==> s.system == SYSTEM_PROMPT && s.query == RowQuery(row)
    ensures HasPersonal(row) ==>
      RowSamples(row)[0].response == Cell(row, "personalSign") && RowSamples(row)[0].kind == Some("personalSign")
    ensures HasBusiness(row) ==>
      var last := RowSamples(row)[|RowSamples(row)| - 1];
      last.response == Cell(row, "businessSign") && last.kind == Some("businessSign")
    ensures |RowNulls(row)| == (if Unsigned(row) then 1 else 0)
    ensures Unsigned(row) ==> RowNulls(row)[0] == NullRecord(RowQuery(row), Some(NULL_INFO), row)
  {
  }

  /** A sign cell holding only whitespace produces no record of that type. */
  lemma BlankSignIsEmpty(row: Row, column: string)
    requires column == "personalSign" || column == "businessSign"
    requires AllSpace(Field(row, column))
    ensures forall s :: s in RowSamples(row) ==> s.kind != Some(column)
  {
    StripEmptyIffAllSpace(Field(row, column));
  }

  /**
   * Counting: samples = rows with a personal sign + rows with a business
   * sign; null records = rows with neither.
   */
  lemma {:induction false} ConvertCounts(rows: seq<Row>)
    ensures |FlatMap(rows, RowSamples)| == CountWhere(rows, HasPersonal) + CountWhere(rows, HasBusiness)
    ensures |FlatMap(rows, RowNulls)| == CountWhere(rows, Unsigned)
    decreases |rows|
  {
    if rows != [] {
      ConvertCounts(rows[..|rows| - 1]);
      RowOutcome(rows[|rows| - 1]);
    }
  }

  /** Every null record carries the fixed info text and a raw row of the input that had no sign. */
  lemma NullRecordsAreUnsignedRows(rows: seq<Row>)
    ensures forall r :: r in FlatMap(rows, RowNulls) ==>
      r.info == Some(NULL_INFO) && r.raw in rows && Unsigned(r.raw) && r.query == RowQuery(r.raw)
  {
    forall r | r in FlatMap(rows, RowNulls)
      ensures r.info == Some(NULL_INFO) && r.raw in rows && Unsigned(r.raw) && r.query == RowQuery(r.raw)
    {
      FlatMapMember(rows, RowNulls, r);
      var row :| row in rows && r in RowNulls(row);
      RowNullRecord(row, r);
    }
  }

  /** The one record a row can add to the null list. */
  lemma RowNullRecord(row: Row, r: NullRecord)
    requires r in RowNulls(row)
    ensures r == NullRecord(RowQuery(row), Some(NULL_INFO), row) && Unsigned(row)
  {
  }

  /** A row with a table, a column, no nickname and only a business sign. */
  const BUSINESS_ONLY_ROW: Row := map["uri" := "t1", "name" := "c1", "nickname" := "",
                                      "personalSign" := "", "businessSign" := "标签X"]

  lemma BusinessOnlyCells()
    ensures Cell(BUSINESS_ONLY_ROW, "uri") == "t1" && Cell(BUSINESS_ONLY_ROW, "name") == "c1"
    ensures Cell(BUSINESS_ONLY_ROW, "nickname") == ""
    ensures Cell(BUSINESS_ONLY_ROW, "personalSign") == ""
    ensures Cell(BUSINESS_ONLY_ROW, "businessSign") == "标签X"
  {
    var row := BUSINESS_ONLY_ROW;
    assert Field(row, "uri") == "t1" && Field(row, "name") == "c1";
    assert Field(row, "businessSign") == "标签X";
    StripOfStripped("t1");
    StripOfStripped("c1");
    StripOfStripped("");
    StripOfStripped("标签X");
  }

  /**
   * That row gives one business record, whose query is
   * `tablename:t1; colname:c1; Desc:`, and no null record.
   */
  lemma BusinessOnlyExample()
    ensures RowSamples(BUSINESS_ONLY_ROW)
         == [Sample(SYSTEM_PROMPT, WithDesc(QueryKey("t1", "c1"), ""), "标签X", Some("businessSign"))]
    ensures RowNulls(BUSINESS_ONLY_ROW) == []
  {
    BusinessOnlyCells();
  }
}

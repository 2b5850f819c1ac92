/**
 * yiliao/generate_standard_dataset.py: from a taxonomy file (one
 * `-`-separated category path per line) it generates question/answer
 * records about paths, sub-categories and multiple-choice recognition,
 * pass after pass until a target count is reached, then shuffles and cuts
 * to exactly that count.
 */
module StandardDataset {
  import opened Wrappers
  import opened Text
  import opened Records
  import Random

  const FIXED_SYSTEM_PROMPT := "你是一个专门负责数据分类分级的AI，请准确分类下列字段。"

  /** A question template: the text around its single `{node}` or `{options}` field. */
  datatype Template = Template(before: string, after: string)

  /** `template.format(node=value)` or `template.format(options=value)`. */
  function Fill(t: Template, value: string): string
  {
    t.before + value + t.after
  }

  const PATH_TEMPLATES: seq<Template> := [
    Template("请判断“", "”在健康医疗数据规范中的完整分类路径。"),
    Template("字段“", "”应该归属到规范的哪个位置？"),
    Template("依据标准，“", "”属于什么分类？"),
    Template("请告诉我“", "”对应的完整标准层级。"),
    Template("遇到数据元“", "”，我该如何对其进行标准化分类？"),
    Template("输出“", "”在数据规范中的层级结构。"),
    Template("分类任务：", ""),
    Template("请将“", "”映射到标准分类树中。")
  ]

  const STRUCTURE_TEMPLATES: seq<Template> := [
    Template("在标准规范中，“", "”这个分类下具体包含哪些细分项？"),
    Template("列举出“", "”包含的所有子分类。"),
    Template("“", "”的下级数据元都有什么？"),
    Template("请展开“", "”分类的详细列表。"),
    Template("数据规范定义中，“", "”覆盖了哪些具体内容？")
  ]

  const MCQ_TEMPLATES: seq<Template> := [
    Template("关于字段分类，以下哪个路径是标准规范中实际存在的？\n", ""),
    Template("请从下列选项中选出符合《健康医疗数据规范》的正确分类：\n", ""),
    Template("数据治理考核：下面哪一项是合法的标准路径？\n", ""),
    Template("排除干扰项，指出下列唯一的正确分类路径：\n", ""),
    Template("判别下列数据分类的真伪，并返回正确的那一项：\n", "")
  ]

  /** How many templates each strategy draws from. */
  const PATH_TEMPLATE_COUNT := 8
  const STRUCTURE_TEMPLATE_COUNT := 5
  const MCQ_TEMPLATE_COUNT := 5

  const LABELS := "ABCD"

  const PATH_KIND := "standard_path"
  const STRUCTURE_KIND := "standard_structure"
  const MCQ_KIND := "standard_multiple_choice"

  const STRUCTURE_PREFIX := "包含以下细分项："
  const CHILD_SEPARATOR := "、"

  // ------------------------------------------------------- the taxonomy

  /** `[line.strip() for line in f if line.strip()]`. */
  function Taxonomy(rawLines: seq<string>): (lines: seq<string>)
    ensures |lines| <= |rawLines|
    ensures forall i :: 0 <= i < |lines| ==> lines[i] != "" && IsStripped(lines[i])
    decreases |rawLines|
  {
    if rawLines == [] then []
    else
      var init := Taxonomy(rawLines[..|rawLines| - 1]);
      var line := Strip(rawLines[|rawLines| - 1]);
      if line != "" then init + [line] else init
  }

  /** What the comprehension keeps of one raw line: the stripped line, unless that is empty. */
  function NonBlank(line: string): seq<string>
  {
    if Strip(line) != "" then [Strip(line)] else []
  }

  /** The taxonomy lines are the non-blank input lines, stripped, in input order. */
  lemma {:induction false} TaxonomyLines(rawLines: seq<string>)
    ensures Taxonomy(rawLines) == FlatMap(rawLines, NonBlank)
    decreases |rawLines|
  {
    if rawLines != [] {
      TaxonomyLines(rawLines[..|rawLines| - 1]);
    }
  }

  /** A taxonomy line is the stripped form of some input line that is not all whitespace, and every such form is one. */
  lemma TaxonomyMembers(rawLines: seq<string>, x: string)
    ensures x in Taxonomy(rawLines) <==> exists r :: r in rawLines && !AllSpace(r) && x == Strip(r)
  {
    TaxonomyLines(rawLines);
    FlatMapMember(rawLines, NonBlank, x);
    forall r | r in rawLines
      ensures x in NonBlank(r) <==> !AllSpace(r) && x == Strip(r)
    {
      StripEmptyIffAllSpace(r);
    }
  }

  /** The taxonomy is empty exactly when every input line is whitespace. */
  lemma TaxonomyEmpty(rawLines: seq<string>)
    ensures Taxonomy(rawLines) == [] <==> forall i :: 0 <= i < |rawLines| ==> AllSpace(rawLines[i])
  {
    if Taxonomy(rawLines) == [] {
      forall i | 0 <= i < |rawLines|
        ensures AllSpace(rawLines[i])
      {
        TaxonomyMembers(rawLines, Strip(rawLines[i]));
      }
    } else {
      var x := Taxonomy(rawLines)[0];
      TaxonomyMembers(rawLines, x);
      var r :| r in rawLines && !AllSpace(r) && x == Strip(r);
      var i :| 0 <= i < |rawLines| && rawLines[i] == r;
    }
  }

  /** `line.split('-')[-1]`: the category's own name. */
  function LastSegment(line: string): string
  {
    var parts := Split(line, '-');
    parts[|parts| - 1]
  }

  /** The line names a sub-category: `len(line.split('-')) > 1`. */
  predicate HasParent(line: string)
  {
    |Split(line, '-')| > 1
  }

  /** `"-".join(parts[:-1])`: the path of the parent category. */
  function Parent(line: string): string
    requires HasParent(line)
  {
    var parts := Split(line, '-');
    Join(parts[..|parts| - 1], "-")
  }

  /** The parents in the order they were first seen, and each parent's children. */
  datatype Tree = Tree(parents: seq<string>, children: map<string, seq<string>>)

  /** Every parent is listed once, every key is listed, and no child list is empty. */
  ghost predicate TreeInv(t: Tree)
  {
    && (forall p :: p in t.children <==> p in t.parents)
    && (forall i, j :: 0 <= i < j < |t.parents| ==> t.parents[i] != t.parents[j])
    && (forall p :: p in t.children ==> t.children[p] != [])
  }

  /** One iteration of the tree loop. */
  function AddLine(t: Tree, line: string): Tree
  {
    if !HasParent(line) then t
    else
      var parent, child := Parent(line), LastSegment(line);
      if parent in t.children then Tree(t.parents, t.children[parent := t.children[parent] + [child]])
      else Tree(t.parents + [parent], t.children[parent := [child]])
  }

  /** `tree` after the loop has read `lines`. */
  function TreeOf(lines: seq<string>): Tree
    decreases |lines|
  {
    if lines == [] then Tree([], map[]) else AddLine(TreeOf(lines[..|lines| - 1]), lines[|lines| - 1])
  }

  /** The reference definition: the last segments of the lines under `parent`, in input order. */
  function ChildrenOf(lines: seq<string>, parent: string): seq<string>
    decreases |lines|
  {
    if lines == [] then []
    else
      var line := lines[|lines| - 1];
      ChildrenOf(lines[..|lines| - 1], parent)
      + (if HasParent(line) && Parent(line) == parent then [LastSegment(line)] else [])
  }

  /** The tree loop. */
  method BuildTree(lines: seq<string>) returns (tree: Tree)
    ensures tree == TreeOf(lines)
  {
    var parents: seq<string> := [];
    var children: map<string, seq<string>> := map[];
    for i := 0 to |lines|
      invariant Tree(parents, children) == TreeOf(lines[..i])
    {
      assert lines[..i + 1][..i] == lines[..i];
      var line := lines[i];
      var parts := Split(line, '-');
      if |parts| > 1 {
        var parent := Join(parts[..|parts| - 1], "-");
        var child := parts[|parts| - 1];
        if parent !in children {
          parents := parents + [parent];
          children := children[parent := [child]];
        } else {
          children := children[parent := children[parent] + [child]];
        }
      }
    }
    assert lines[..|lines|] == lines;
    tree := Tree(parents, children);
  }

  /** The `option_lines` loop of strategy C, then `"\n".join(option_lines)`. */
  method OptionLines(options: seq<string>) returns (s: string)
    requires |options| <= |LABELS|
    ensures s == FormatOptions(options)
  {
    var optionLines: seq<string> := [];
    for idx := 0 to |options|
      invariant |optionLines| == idx
      invariant forall j :: 0 <= j < idx ==> optionLines[j] == OptionLine(j, options[j])
    {
      optionLines := optionLines + [[LABELS[idx]] + ". " + options[idx]];
    }
    assert optionLines == seq(|options|, i requires 0 <= i < |options| => OptionLine(i, options[i]));
    s := Join(optionLines, "\n");
  }

  /** The record the loop body appends for a question. */
  method RenderQuestion(q: Question) returns (rec: Sample)
    requires Renderable(q)
    ensures rec == Render(q)
  {
    match q
    case PathQuestion(t, line) =>
      var parts := Split(line, '-');
      var lastNode := parts[|parts| - 1];
      rec := Sample(FIXED_SYSTEM_PROMPT, Fill(PATH_TEMPLATES[t], lastNode), line, Some(PATH_KIND));
    case StructureQuestion(t, parent, children) =>
      var parts := Split(parent, '-');
      var parentName := parts[|parts| - 1];
      var childrenStr := Join(children, CHILD_SEPARATOR);
      rec := Sample(FIXED_SYSTEM_PROMPT, Fill(STRUCTURE_TEMPLATES[t], parentName), STRUCTURE_PREFIX + childrenStr, Some(STRUCTURE_KIND));
    case ChoiceQuestion(t, options, answer) =>
      var optionStr := OptionLines(options);
      rec := Sample(FIXED_SYSTEM_PROMPT, Fill(MCQ_TEMPLATES[t], optionStr), answer, Some(MCQ_KIND));
  }

  /** The records of the questions, in order. */
  method RenderRecords(qs: seq<Question>) returns (recs: seq<Sample>)
    requires forall q :: q in qs ==> Renderable(q)
    ensures recs == RenderAll(qs)
  {
    recs := [];
    for i := 0 to |qs|
      invariant recs == RenderAll(qs)[..i]
    {
      var rec := RenderQuestion(qs[i]);
      PrefixSnoc(RenderAll(qs), i);
      recs := recs + [rec];
    }
  }

  /**
   * `generate_dataset_by_target`: the argument checks, the tree loop, the
   * generation loop, the shuffle and cut, and the records for the output file.
   */
  method GenerateByTarget(inputPath: string, file: Option<seq<string>>, target: Option<int>, draws: nat -> nat)
    returns (result: Result<StdOutput, StdError>)
    ensures result == Outcome(inputPath, file, target, draws)
  {
    if file.None? {
      return Err(MissingInput(inputPath));
    }
    if target.None? || target.value < 1 {
      return Err(BadTarget);
    }
    var targetTotal: nat := target.value;
    var lines := Taxonomy(file.value);
    if lines == [] {
      return Err(EmptyTaxonomy);
    }
    var tree := BuildTree(lines);
    TreeListed(lines);
    var generated: seq<Question> := [];
    var next: nat := 0;
    while |generated| < targetTotal
      invariant Generate(lines, tree, targetTotal, generated, draws, next) == Generate(lines, tree, targetTotal, [], draws, 0)
      decreases targetTotal - |generated|
    {
      var pass := RunPass(lines, tree, draws, next);
      var after := PassEnd(lines, tree, next);
      GenerateStep(lines, tree, targetTotal, generated, draws, next, pass, after);
      generated, next := generated + pass, after;
    }
    generated := Random.ShuffleList(generated, draws, next);
    Random.ShuffleLength(Generate(lines, tree, targetTotal, [], draws, 0).questions, draws, next);
    var finalDataset := generated[..targetTotal];
    DatasetRenderable(lines, targetTotal, draws);
    var records := RenderRecords(finalDataset);
    result := Ok(StdOutput(OutputPath(inputPath, targetTotal), records));
  }

  // ------------------------------------------------------------ properties

  /** A line has a parent exactly when it contains '-'; then parent, '-' and last segment give it back. */
  lemma {:induction false} ParentThenLast(line: string)
    ensures HasParent(line) <==> '-' in line
    ensures HasParent(line) ==> Parent(line) + "-" + LastSegment(line) == line
  {
    var parts := Split(line, '-');
    JoinSplit(line, '-');
    if '-' !in line {
      SplitWithout(line, '-');
    } else if |parts| > 1 {
      JoinSnoc(parts, "-");
    }
  }

  /** The tree loop keeps its invariant. */
  lemma {:induction false} TreeOfInv(lines: seq<string>)
    ensures TreeInv(TreeOf(lines))
    decreases |lines|
  {
    if lines != [] {
      TreeOfInv(lines[..|lines| - 1]);
    }
  }

  /** The loop builds exactly the reference tree: a parent's children are the last segments of its lines, in order. */
  lemma {:induction false} TreeOfChildren(lines: seq<string>, parent: string)
    ensures parent in TreeOf(lines).children <==> ChildrenOf(lines, parent) != []
    ensures parent in TreeOf(lines).children ==> TreeOf(lines).children[parent] == ChildrenOf(lines, parent)
    decreases |lines|
  {
    if lines != [] {
      TreeOfChildren(lines[..|lines| - 1], parent);
    }
  }

  // ---------------------------------------------------------- the records

  /**
   * A generated question, before its text is laid out: which template was
   * drawn (its index in the strategy's template list) and what fills it.
   */
  datatype Question =
    | PathQuestion(template: nat, line: string)
    | StructureQuestion(template: nat, parent: string, children: seq<string>)
    | ChoiceQuestion(template: nat, options: seq<string>, answer: string)

  /** The template index is in range, and there are no more options than labels. */
  predicate Renderable(q: Question)
  {
    match q
    case PathQuestion(t, _) => t < PATH_TEMPLATE_COUNT
    case StructureQuestion(t, _, _) => t < STRUCTURE_TEMPLATE_COUNT
    case ChoiceQuestion(t, options, _) => t < MCQ_TEMPLATE_COUNT && |options| <= |LABELS|
  }

  /** `f"{labels[idx]}. {opt}"`. */
  function OptionLine(i: nat, opt: string): string
    requires i < |LABELS|
  {
    [LABELS[i]] + ". " + opt
  }

  /** The labelled options, one per line. */
  function FormatOptions(options: seq<string>): string
    requires |options| <= |LABELS|
  {
    Join(seq(|options|, i requires 0 <= i < |options| => OptionLine(i, options[i])), "\n")
  }

  /** The `{system, query, response, type}` record the script writes for a question. */
  function Render(q: Question): Sample
    requires Renderable(q)
  {
    match q
    case PathQuestion(t, line) =>
      Sample(FIXED_SYSTEM_PROMPT, Fill(PATH_TEMPLATES[t], LastSegment(line)), line, Some(PATH_KIND))
    case StructureQuestion(t, parent, children) =>
      Sample(FIXED_SYSTEM_PROMPT, Fill(STRUCTURE_TEMPLATES[t], LastSegment(parent)),
        STRUCTURE_PREFIX + Join(children, CHILD_SEPARATOR), Some(STRUCTURE_KIND))
    case ChoiceQuestion(t, options, answer) =>
      Sample(FIXED_SYSTEM_PROMPT, Fill(MCQ_TEMPLATES[t], FormatOptions(options)), answer, Some(MCQ_KIND))
  }

  /** Strategy A: one path question per line; line `i` draws its template with draw `k + i`. */
  function PathQuestions(lines: seq<string>, draws: nat -> nat, k: nat): (qs: seq<Question>)
    ensures |qs| == |lines|
    ensures forall i :: 0 <= i < |lines| ==>
      qs[i].PathQuestion? && qs[i].line == lines[i] && qs[i].template < PATH_TEMPLATE_COUNT
    decreases |lines|
  {
    if lines == [] then []
    else
      var n := |lines| - 1;
      PathQuestions(lines[..n], draws, k) + [PathQuestion(Random.Below(draws, k + n, PATH_TEMPLATE_COUNT), lines[n])]
  }

  /** Every parent the tree lists has a child list. */
  predicate Listed(tree: Tree)
  {
    forall i :: 0 <= i < |tree.parents| ==> tree.parents[i] in tree.children
  }

  /** Strategy B: one structure question per parent, in the order the parents were first seen. */
  function StructureQuestions(parents: seq<string>, children: map<string, seq<string>>, draws: nat -> nat, k: nat): (qs: seq<Question>)
    requires forall i :: 0 <= i < |parents| ==> parents[i] in children
    ensures |qs| == |parents|
    ensures forall i :: 0 <= i < |parents| ==>
      && qs[i].StructureQuestion? && qs[i].parent == parents[i] && qs[i].children == children[parents[i]]
      && qs[i].template < STRUCTURE_TEMPLATE_COUNT
    decreases |parents|
  {
    if parents == [] then []
    else
      var n := |parents| - 1;
      StructureQuestions(parents[..n], children, draws, k)
      + [StructureQuestion(Random.Below(draws, k + n, STRUCTURE_TEMPLATE_COUNT), parents[n], children[parents[n]])]
  }

  /** `[l for l in all_categories if l != correct_answer]`. */
  function Candidates(all: seq<string>, correct: string): (cands: seq<string>)
    ensures |cands| <= |all|
    decreases |all|
  {
    if all == [] then [] else (if all[0] != correct then [all[0]] else []) + Candidates(all[1..], correct)
  }

  /** How many options a question offers: three wrong ones, or every candidate when there are fewer, and the answer. */
  function OptionCount(candidates: nat): nat
  {
    (if candidates >= 3 then 3 else candidates) + 1
  }

  /** How many draws picking the wrong options takes: `random.sample` is called only with 3 or more candidates. */
  function WrongDraws(candidates: nat): nat
  {
    if candidates >= 3 then 3 else 0
  }

  /**
   * The options: three candidates drawn without replacement, or every candidate
   * when there are fewer, then the answer, shuffled with the draws that follow
   * the sample's.
   */
  function McqOptions(all: seq<string>, correct: string, draws: nat -> nat, k: nat): seq<string>
  {
    Random.Shuffle(Random.SampleUpTo(Candidates(all, correct), 3, draws, k) + [correct], draws, ShuffleStart(all, correct, k))
  }

  /** The first draw of the options' shuffle: the sample's draws come before it. */
  function ShuffleStart(all: seq<string>, correct: string, k: nat): nat
  {
    k + WrongDraws(|Candidates(all, correct)|)
  }

  /** The draw that picks the question's template: the shuffle's draws come before it. */
  function TemplateDraw(all: seq<string>, correct: string, k: nat): nat
  {
    ShuffleStart(all, correct, k) + Random.ShuffleDraws(OptionCount(|Candidates(all, correct)|))
  }

  /** How many draws one multiple-choice question takes: sample, shuffle, template. */
  function McqDraws(all: seq<string>, correct: string): nat
  {
    var n := |Candidates(all, correct)|;
    WrongDraws(n) + Random.ShuffleDraws(OptionCount(n)) + 1
  }

  /** A multiple-choice question about `correct`, starting at draw `k`. */
  function McqQuestion(all: seq<string>, correct: string, draws: nat -> nat, k: nat): Question
  {
    ChoiceQuestion(Random.Below(draws, TemplateDraw(all, correct, k), MCQ_TEMPLATE_COUNT), McqOptions(all, correct, draws, k), correct)
  }

  /** How many draws strategy C's questions about `lines` take together. */
  function McqSpan(lines: seq<string>, all: seq<string>): nat
    decreases |lines|
  {
    if lines == [] then 0 else McqSpan(lines[..|lines| - 1], all) + McqDraws(all, lines[|lines| - 1])
  }

  /** Strategy C: one multiple-choice question per line, each starting where the previous one stopped. */
  function McqQuestions(lines: seq<string>, all: seq<string>, draws: nat -> nat, k: nat): seq<Question>
  {
    seq(|lines|, i requires 0 <= i < |lines| => McqQuestion(all, lines[i], draws, QuestionStart(lines, all, k, i)))
  }

  /** The first draw of strategy C's question about line `i`: the questions before it take theirs first. */
  function QuestionStart(lines: seq<string>, all: seq<string>, k: nat, i: nat): nat
    requires i <= |lines|
  {
    k + McqSpan(lines[..i], all)
  }

  /** The draws of one more question add to the span. */
  lemma {:induction false} McqSpanSnoc(lines: seq<string>, all: seq<string>, i: nat)
    requires i < |lines|
    ensures McqSpan(lines[..i + 1], all) == McqSpan(lines[..i], all) + McqDraws(all, lines[i])
  {
    assert lines[..i + 1][..i] == lines[..i];
  }

  /** The first draw of strategy B in a pass that starts at draw `k`: strategy A takes one per line. */
  function StructureStart(lines: seq<string>, k: nat): nat
  {
    k + |lines|
  }

  /** The first draw of strategy C in a pass that starts at draw `k`: strategy B takes one per parent. */
  function McqStart(lines: seq<string>, tree: Tree, k: nat): nat
  {
    StructureStart(lines, k) + |tree.parents|
  }

  /** One pass of the generation loop: strategies A, B and C in turn. */
  function Pass(lines: seq<string>, tree: Tree, draws: nat -> nat, k: nat): (qs: seq<Question>)
    requires Listed(tree)
    ensures |qs| == 2 * |lines| + |tree.parents|
  {
    PathQuestions(lines, draws, k)
    + StructureQuestions(tree.parents, tree.children, draws, StructureStart(lines, k))
    + McqQuestions(lines, lines, draws, McqStart(lines, tree, k))
  }

  /** The draw after a pass's last. */
  function PassEnd(lines: seq<string>, tree: Tree, k: nat): nat
  {
    McqStart(lines, tree, k) + McqSpan(lines, lines)
  }

  /** The generated questions and the first draw left unused after them. */
  datatype Pool = Pool(questions: seq<Question>, next: nat)

  /** Passes appended to `acc` until it holds at least `target` questions. */
  function Generate(lines: seq<string>, tree: Tree, target: nat, acc: seq<Question>, draws: nat -> nat, k: nat): (p: Pool)
    requires lines != [] && Listed(tree)
    ensures |p.questions| >= target && |p.questions| >= |acc|
    decreases if |acc| < target then target - |acc| else 0
  {
    if |acc| >= target then Pool(acc, k)
    else Generate(lines, tree, target, acc + Pass(lines, tree, draws, k), draws, PassEnd(lines, tree, k))
  }

  /** The tree the loop builds lists every parent it has children for. */
  lemma {:induction false} TreeListed(lines: seq<string>)
    ensures Listed(TreeOf(lines))
  {
    TreeOfInv(lines);
  }

  /** The generated questions, shuffled, then cut to exactly `target`. */
  function Dataset(lines: seq<string>, target: nat, draws: nat -> nat): (qs: seq<Question>)
    requires lines != []
    ensures |qs| == target
  {
    TreeListed(lines);
    var tree := TreeOf(lines);
    var pool := Generate(lines, tree, target, [], draws, 0);
    Random.ShuffleLength(pool.questions, draws, pool.next);
    Random.Shuffle(pool.questions, draws, pool.next)[..target]
  }

  // -------------------------------------------------------- the output path

  /** The last position of `c` in `s`, if any: `s.rfind(c)`. */
  function LastIndex(s: string, c: char): (r: Option<nat>)
    ensures r.Some? ==> r.value < |s| && s[r.value] == c && c !in s[r.value + 1..]
    ensures r.None? ==> c !in s
    decreases |s|
  {
    if s == [] then None
    else if s[|s| - 1] == c then Some(|s| - 1)
    else
      var r := LastIndex(s[..|s| - 1], c);
      assert s == s[..|s| - 1] + [s[|s| - 1]];
      if r.Some? then assert s[r.value + 1..] == s[..|s| - 1][r.value + 1..] + [s[|s| - 1]]; r else r
  }

  /** Where `os.path.split` cuts: just after the last '/', or 0. */
  function DirEnd(path: string): (i: nat)
    ensures i <= |path|
  {
    match LastIndex(path, '/')
    case None => 0
    case Some(j) => j + 1
  }

  /** `s.rstrip('/')`. */
  function TrimSlashes(s: string): string
    decreases |s|
  {
    if s != [] && s[|s| - 1] == '/' then TrimSlashes(s[..|s| - 1]) else s
  }

  /** The head of `os.path.split`: trailing slashes dropped unless it is nothing but slashes. */
  function Head(path: string): string
  {
    var head := path[..DirEnd(path)];
    if head != [] && TrimSlashes(head) != [] then TrimSlashes(head) else head
  }

  /** The tail of `os.path.split`: the file name. */
  function Tail(path: string): string
  {
    path[DirEnd(path)..]
  }

  /** `os.path.splitext(name)[0]`: cut at the last '.', unless only dots precede it. */
  function BaseName(name: string): string
  {
    match LastIndex(name, '.')
    case None => name
    case Some(d) => if exists j :: 0 <= j < d && name[j] != '.' then name[..d] else name
  }

  /** `os.path.join(head, name)` for a name without '/'. */
  function JoinPath(head: string, name: string): string
  {
    if head == [] || head[|head| - 1] == '/' then head + name else head + "/" + name
  }

  /** What the output file name adds to the input's base name. */
  function OutputSuffix(target: nat): string
  {
    "_target_" + Decimal(target) + ".jsonl"
  }

  /** Where the dataset is written: beside the input, named after it and the target. */
  function OutputPath(inputPath: string, target: nat): string
  {
    JoinPath(Head(inputPath), BaseName(Tail(inputPath)) + OutputSuffix(target))
  }

  // ------------------------------------------------------------ the script

  /** Why `generate_dataset_by_target` stops without writing anything. */
  datatype StdError =
    | MissingInput(path: string)  // the input file does not exist
    | BadTarget                   // the target is not an integer, or is below 1
    | EmptyTaxonomy               // the input file has no non-blank line

  /** Where the dataset goes, and the records written there in order. */
  datatype StdOutput = StdOutput(outputPath: string, records: seq<Sample>)

  /** The records written for the questions, in order. */
  function RenderAll(qs: seq<Question>): (recs: seq<Sample>)
    requires forall q :: q in qs ==> Renderable(q)
    ensures |recs| == |qs|
  {
    seq(|qs|, i requires 0 <= i < |qs| => Render(qs[i]))
  }

  /**
   * `generate_dataset_by_target`: `file` is `None` when the input path does
   * not exist, `target` is `None` when `int()` rejects the argument, and
   * `draws` feeds every call into `random`.
   */
  function Outcome(inputPath: string, file: Option<seq<string>>, target: Option<int>, draws: nat -> nat): Result<StdOutput, StdError>
  {
    if file.None? then Err(MissingInput(inputPath))
    else if target.None? || target.value < 1 then Err(BadTarget)
    else
      var lines := Taxonomy(file.value);
      if lines == [] then Err(EmptyTaxonomy)
      else
        DatasetRenderable(lines, target.value, draws);
        Ok(StdOutput(OutputPath(inputPath, target.value), RenderAll(Dataset(lines, target.value, draws))))
  }

  /** Strategy A's loop. */
  method PathPass(lines: seq<string>, draws: nat -> nat, k: nat) returns (qs: seq<Question>)
    ensures qs == PathQuestions(lines, draws, k)
  {
    qs := [];
    for i := 0 to |lines|
      invariant qs == PathQuestions(lines[..i], draws, k)
    {
      assert lines[..i + 1][..i] == lines[..i];
      var t := Random.Below(draws, k + i, PATH_TEMPLATE_COUNT);
      qs := qs + [PathQuestion(t, lines[i])];
    }
    assert lines[..|lines|] == lines;
  }

  /** Strategy B's loop over `tree.items()`. */
  method StructurePass(tree: Tree, draws: nat -> nat, k: nat) returns (qs: seq<Question>)
    requires Listed(tree)
    ensures qs == StructureQuestions(tree.parents, tree.children, draws, k)
  {
    qs := [];
    var parents := tree.parents;
    for i := 0 to |parents|
      invariant qs == StructureQuestions(parents[..i], tree.children, draws, k)
    {
      assert parents[..i + 1][..i] == parents[..i];
      var t := Random.Below(draws, k + i, STRUCTURE_TEMPLATE_COUNT);
      qs := qs + [StructureQuestion(t, parents[i], tree.children[parents[i]])];
    }
    assert parents[..|parents|] == parents;
  }

  /** One iteration of strategy C's loop; also the next unused draw. */
  method BuildMcq(all: seq<string>, correct: string, draws: nat -> nat, k: nat) returns (q: Question, next: nat)
    ensures q == McqQuestion(all, correct, draws, k)
    ensures next == k + McqDraws(all, correct)
  {
    var candidates := Candidates(all, correct);
    var wrongOptions: seq<string>;
    if |candidates| >= 3 {
      wrongOptions := Random.Sample(candidates, 3, draws, k);
    } else {
      wrongOptions := candidates;
    }
    assert wrongOptions == Random.SampleUpTo(candidates, 3, draws, k);
    var options := wrongOptions + [correct];
    options := Random.ShuffleList(options, draws, ShuffleStart(all, correct, k));
    var templateDraw := TemplateDraw(all, correct, k);
    var t := Random.Below(draws, templateDraw, MCQ_TEMPLATE_COUNT);
    q := ChoiceQuestion(t, options, correct);
    next := templateDraw + 1;
  }

  /** Strategy C's loop. */
  method McqPass(lines: seq<string>, draws: nat -> nat, k: nat) returns (qs: seq<Question>, next: nat)
    ensures qs == McqQuestions(lines, lines, draws, k)
    ensures next == k + McqSpan(lines, lines)
  {
    qs, next := [], k;
    for i := 0 to |lines|
      invariant qs == McqQuestions(lines, lines, draws, k)[..i]
      invariant next == QuestionStart(lines, lines, k, i)
    {
      var q, after := BuildMcq(lines, lines[i], draws, next);
      McqStep(lines, draws, k, i, qs, next, q);
      McqSpanSnoc(lines, lines, i);
      qs, next := qs + [q], after;
    }
    assert lines[..|lines|] == lines;
  }

  /** One turn of strategy C's loop, as `McqQuestions` sees it. */
  lemma {:induction false} McqStep(lines: seq<string>, draws: nat -> nat, k: nat, i: nat, qs: seq<Question>, start: nat, q: Question)
    requires i < |lines|
    requires qs == McqQuestions(lines, lines, draws, k)[..i]
    requires start == QuestionStart(lines, lines, k, i)
    requires q == McqQuestion(lines, lines[i], draws, start)
    ensures qs + [q] == McqQuestions(lines, lines, draws, k)[..i + 1]
  {
    var all := McqQuestions(lines, lines, draws, k);
    assert all[i] == q;
    PrefixSnoc(all, i);
  }

  /** A prefix grows by the next element (a proof helper, no counterpart in the script). */
  lemma {:induction false} PrefixSnoc<T>(s: seq<T>, i: nat)
    requires i < |s|
    ensures s[..i] + [s[i]] == s[..i + 1]
  {
  }

  /** One pass of the `while` loop: strategies A, B and C, each starting at the draw the previous one left. */
  method RunPass(lines: seq<string>, tree: Tree, draws: nat -> nat, k: nat) returns (qs: seq<Question>)
    requires Listed(tree)
    ensures qs == Pass(lines, tree, draws, k)
  {
    var paths := PathPass(lines, draws, k);
    var structures := StructurePass(tree, draws, StructureStart(lines, k));
    var mcqs, _ := McqPass(lines, draws, McqStart(lines, tree, k));
    qs := paths + structures + mcqs;
  }

  /** One turn of the `while` loop, as the generation functions see it. */
  lemma {:induction false} GenerateStep(lines: seq<string>, tree: Tree, target: nat, acc: seq<Question>, draws: nat -> nat, k: nat, pass: seq<Question>, after: nat)
    requires lines != [] && Listed(tree) && |acc| < target
    requires pass == Pass(lines, tree, draws, k)
    requires after == PassEnd(lines, tree, k)
    ensures Generate(lines, tree, target, acc, draws, k) == Generate(lines, tree, target, acc + pass, draws, after)
  {
  }

  // ------------------------------------------------------------ properties

  /** What every generated question satisfies, given the taxonomy lines. */
  ghost predicate WellFormed(q: Question, lines: seq<string>)
  {
    && Renderable(q)
    && match q
       case PathQuestion(_, line) => line in lines
       case StructureQuestion(_, parent, children) => children != [] && children == ChildrenOf(lines, parent)
       case ChoiceQuestion(_, options, answer) =>
         && answer in lines
         && multiset(options)[answer] == 1
         && (forall o :: o in options ==> o in lines)
         && |options| == OptionCount(|Candidates(lines, answer)|)
  }

  /** The candidates are exactly the other lines. */
  lemma {:induction false} CandidatesMembers(all: seq<string>, correct: string, x: string)
    ensures x in Candidates(all, correct) <==> x in all && x != correct
    decreases |all|
  {
    if all != [] {
      CandidatesMembers(all[1..], correct, x);
      assert all == [all[0]] + all[1..];
    }
  }

  /** A multiple-choice question offers its answer once, among other lines of the taxonomy. */
  lemma {:induction false} McqQuestionWellFormed(all: seq<string>, correct: string, draws: nat -> nat, k: nat)
    requires correct in all
    ensures WellFormed(McqQuestion(all, correct, draws, k), all)
  {
    var cands := Candidates(all, correct);
    var options := McqOptions(all, correct, draws, k);
    CandidatesMembers(all, correct, correct);
    Random.ShuffledPick(cands, 3, correct, draws, k, ShuffleStart(all, correct, k));
    assert options == Random.Shuffle(Random.SampleUpTo(cands, 3, draws, k) + [correct], draws, ShuffleStart(all, correct, k));
    forall o | o in options ensures o in all {
      assert o in cands || o == correct;
      CandidatesMembers(all, correct, o);
    }
  }

  /** No line is listed twice. */
  ghost predicate Distinct(xs: seq<string>)
  {
    forall x :: multiset(xs)[x] <= 1
  }

  /** The candidates hold every copy of the other lines and none of the answer. */
  lemma {:induction false} CandidatesCount(all: seq<string>, correct: string, x: string)
    ensures multiset(Candidates(all, correct))[x] == if x == correct then 0 else multiset(all)[x]
    decreases |all|
  {
    if all != [] {
      CandidatesCount(all[1..], correct, x);
      assert all == [all[0]] + all[1..];
    }
  }

  /** The options hold the sampled candidates and the answer once more. */
  lemma McqOptionsCount(all: seq<string>, correct: string, draws: nat -> nat, k: nat, x: string)
    ensures multiset(McqOptions(all, correct, draws, k))[x]
         == multiset(Random.SampleUpTo(Candidates(all, correct), 3, draws, k))[x] + (if x == correct then 1 else 0)
  {
    Random.ShuffleSnoc(Random.SampleUpTo(Candidates(all, correct), 3, draws, k), correct, draws, ShuffleStart(all, correct, k), x);
  }

  /** When no line is listed twice, no option is offered twice. */
  lemma McqOptionsDistinct(all: seq<string>, correct: string, draws: nat -> nat, k: nat, x: string)
    requires Distinct(all)
    ensures multiset(McqOptions(all, correct, draws, k))[x] <= 1
  {
    McqOptionsCount(all, correct, draws, k, x);
    Random.SampleUpToWithin(Candidates(all, correct), 3, draws, k, x);
    CandidatesCount(all, correct, x);
  }

  /** The candidates are the lines less every copy of the answer. */
  lemma {:induction false} CandidatesLength(all: seq<string>, correct: string)
    ensures |Candidates(all, correct)| == |all| - multiset(all)[correct]
    decreases |all|
  {
    if all != [] {
      CandidatesLength(all[1..], correct);
      assert all == [all[0]] + all[1..];
    }
  }

  /**
   * The option order is not fixed: with four or more distinct lines, some
   * draws put the answer under any of the labels A to D.
   */
  lemma AnswerAnyPosition(all: seq<string>, correct: string, k: nat, p: nat)
    requires correct in all && Distinct(all) && |all| >= 4 && p < 4
    ensures exists draws: nat -> nat ::
      && |McqQuestion(all, correct, draws, k).options| == 4
      && McqQuestion(all, correct, draws, k).options[p] == McqQuestion(all, correct, draws, k).answer
  {
    CandidatesLength(all, correct);
    assert multiset(all)[correct] == 1;
    var ks := ShuffleStart(all, correct, k);
    var d: nat -> nat := x => if x == ks then p else if x == ks + 1 then 2 else if x == ks + 2 then 1 else 0;
    var pre := Random.SampleUpTo(Candidates(all, correct), 3, d, k) + [correct];
    assert |pre| == 4;
    var s1 := Random.Swap(pre, 3, p);
    assert Random.Below(d, ks, 4) == p;
    assert Random.Below(d, ks + 1, 3) == 2;
    assert Random.Below(d, ks + 2, 2) == 1;
    assert Random.Swap(s1, 2, 2) == s1;
    assert Random.Swap(s1, 1, 1) == s1;
    assert Random.ShuffleDown(s1, 1, d, ks + 2) == s1;
    assert Random.ShuffleDown(s1, 2, d, ks + 1) == s1;
    assert Random.Shuffle(pre, d, ks) == s1;
    assert s1[p] == correct;
    var q := McqQuestion(all, correct, d, k);
    assert q.options == s1 && q.answer == correct;
  }

  /** Every question of the sequence is well formed. */
  ghost predicate AllWellFormed(qs: seq<Question>, lines: seq<string>)
  {
    forall q :: q in qs ==> WellFormed(q, lines)
  }

  /** Strategy A's questions about the first `m` lines are well formed. */
  lemma {:induction false} PathQuestionsWellFormed(lines: seq<string>, m: nat, draws: nat -> nat, k: nat)
    requires m <= |lines|
    ensures AllWellFormed(PathQuestions(lines[..m], draws, k), lines)
    decreases m
  {
    if m > 0 {
      PathQuestionsWellFormed(lines, m - 1, draws, k);
      assert lines[..m][..m - 1] == lines[..m - 1];
      assert lines[m - 1] in lines;
    }
  }

  /** What the generation needs of the tree: every listed parent maps to its children among the lines, and has some. */
  ghost predicate TreeFor(tree: Tree, lines: seq<string>)
  {
    && Listed(tree)
    && forall i :: 0 <= i < |tree.parents| ==>
         tree.children[tree.parents[i]] == ChildrenOf(lines, tree.parents[i]) && tree.children[tree.parents[i]] != []
  }

  /** The tree loop builds a tree that fits the lines. */
  lemma {:induction false} TreeOfFor(lines: seq<string>)
    ensures TreeFor(TreeOf(lines), lines)
  {
    TreeListed(lines);
    var tree := TreeOf(lines);
    forall i | 0 <= i < |tree.parents|
      ensures tree.children[tree.parents[i]] == ChildrenOf(lines, tree.parents[i]) && tree.children[tree.parents[i]] != []
    {
      TreeOfChildren(lines, tree.parents[i]);
    }
  }

  /** Strategy B's questions about the first `m` parents are well formed. */
  lemma {:induction false} StructureQuestionsWellFormed(lines: seq<string>, tree: Tree, m: nat, draws: nat -> nat, k: nat)
    requires TreeFor(tree, lines) && m <= |tree.parents|
    ensures AllWellFormed(StructureQuestions(tree.parents[..m], tree.children, draws, k), lines)
  {
    var ps := tree.parents[..m];
    var qs := StructureQuestions(ps, tree.children, draws, k);
    forall q | q in qs
      ensures WellFormed(q, lines)
    {
      var i :| 0 <= i < |qs| && qs[i] == q;
      assert ps[i] == tree.parents[i];
    }
  }

  /** Strategy C's questions are well formed. */
  lemma {:induction false} McqQuestionsWellFormed(lines: seq<string>, draws: nat -> nat, k: nat)
    ensures AllWellFormed(McqQuestions(lines, lines, draws, k), lines)
  {
    var qs := McqQuestions(lines, lines, draws, k);
    forall i | 0 <= i < |qs|
      ensures WellFormed(qs[i], lines)
    {
      var start := QuestionStart(lines, lines, k, i);
      assert qs[i] == McqQuestion(lines, lines[i], draws, start);
      McqQuestionWellFormed(lines, lines[i], draws, start);
    }
  }

  /** Every question of a pass over the taxonomy is well formed. */
  lemma {:induction false} PassWellFormed(lines: seq<string>, tree: Tree, draws: nat -> nat, k: nat)
    requires TreeFor(tree, lines)
    ensures AllWellFormed(Pass(lines, tree, draws, k), lines)
  {
    PassParts(lines, tree, draws, k);
    PartsWellFormed(lines, tree, draws, k);
  }

  /** A pass is the three strategies' questions, one after the other. */
  lemma {:induction false} PassParts(lines: seq<string>, tree: Tree, draws: nat -> nat, k: nat)
    requires Listed(tree)
    ensures Pass(lines, tree, draws, k) == PathQuestions(lines, draws, k)
                                         + StructureQuestions(tree.parents, tree.children, draws, StructureStart(lines, k))
                                         + McqQuestions(lines, lines, draws, McqStart(lines, tree, k))
  {
  }

  lemma {:induction false} PartsWellFormed(lines: seq<string>, tree: Tree, draws: nat -> nat, k: nat)
    requires TreeFor(tree, lines)
    ensures AllWellFormed(PathQuestions(lines, draws, k)
                          + StructureQuestions(tree.parents, tree.children, draws, StructureStart(lines, k))
                          + McqQuestions(lines, lines, draws, McqStart(lines, tree, k)), lines)
  {
    PathQuestionsWellFormed(lines, |lines|, draws, k);
    StructureQuestionsWellFormed(lines, tree, |tree.parents|, draws, StructureStart(lines, k));
    McqQuestionsWellFormed(lines, draws, McqStart(lines, tree, k));
    assert lines[..|lines|] == lines;
    assert tree.parents[..|tree.parents|] == tree.parents;
  }

  /** Every question the generation loop produces is well formed. */
  lemma {:induction false} GenerateWellFormed(lines: seq<string>, tree: Tree, target: nat, acc: seq<Question>, draws: nat -> nat, k: nat)
    requires lines != [] && TreeFor(tree, lines)
    requires AllWellFormed(acc, lines)
    ensures AllWellFormed(Generate(lines, tree, target, acc, draws, k).questions, lines)
    decreases if |acc| < target then target - |acc| else 0
  {
    if |acc| < target {
      PassWellFormed(lines, tree, draws, k);
      GenerateWellFormed(lines, tree, target, acc + Pass(lines, tree, draws, k), draws, PassEnd(lines, tree, k));
    }
  }

  /** Every question written has a template to render it with. */
  lemma {:induction false} DatasetRenderable(lines: seq<string>, target: nat, draws: nat -> nat)
    requires lines != []
    ensures forall q :: q in Dataset(lines, target, draws) ==> Renderable(q)
  {
    DatasetWellFormed(lines, target, draws);
  }

  /** Every question written is well formed; together they are drawn from the generated pool. */
  lemma {:induction false} DatasetWellFormed(lines: seq<string>, target: nat, draws: nat -> nat)
    requires lines != []
    ensures Listed(TreeOf(lines))
    ensures AllWellFormed(Dataset(lines, target, draws), lines)
    ensures multiset(Dataset(lines, target, draws)) <= multiset(Generate(lines, TreeOf(lines), target, [], draws, 0).questions)
  {
    TreeOfFor(lines);
    var tree := TreeOf(lines);
    var pool := Generate(lines, tree, target, [], draws, 0);
    GenerateWellFormed(lines, tree, target, [], draws, 0);
    Random.ShufflePrefixWithin(pool.questions, target, draws, pool.next);
  }
  /**
   * The loop keeps what it had and stops after the first pass that reaches
   * the target, so the pool overshoots by less than one pass.
   */
  lemma {:induction false} GenerateSize(lines: seq<string>, tree: Tree, target: nat, acc: seq<Question>, draws: nat -> nat, k: nat)
    requires lines != [] && Listed(tree)
    ensures acc <= Generate(lines, tree, target, acc, draws, k).questions
    ensures |acc| < target ==> |Generate(lines, tree, target, acc, draws, k).questions| < target + 2 * |lines| + |tree.parents|
    decreases if |acc| < target then target - |acc| else 0
  {
    if |acc| < target {
      var next := acc + Pass(lines, tree, draws, k);
      GenerateSize(lines, tree, target, next, draws, PassEnd(lines, tree, k));
      assert next[..|acc|] == acc;
    }
  }

  // ------------------------------------------------------- the records written

  /** The value filled into a template occurs in the question. */
  lemma FillContains(t: Template, value: string)
    ensures IsInfix(value, Fill(t, value))
  {
    assert OccursAt(value, value, 0);
    InfixWithin(value, t.before, value, t.after);
  }

  /** A path record asks about the line's own name and answers with the whole line. */
  lemma PathRecord(t: nat, line: string)
    requires t < PATH_TEMPLATE_COUNT
    ensures Render(PathQuestion(t, line)).system == FIXED_SYSTEM_PROMPT
    ensures IsInfix(LastSegment(line), Render(PathQuestion(t, line)).query)
    ensures Render(PathQuestion(t, line)).response == line
    ensures Render(PathQuestion(t, line)).kind == Some(PATH_KIND)
  {
    FillContains(PATH_TEMPLATES[t], LastSegment(line));
  }

  /** A structure record asks about the parent's own name and lists every child in its answer. */
  lemma StructureRecord(t: nat, parent: string, children: seq<string>, i: nat)
    requires t < STRUCTURE_TEMPLATE_COUNT && i < |children|
    ensures Render(StructureQuestion(t, parent, children)).system == FIXED_SYSTEM_PROMPT
    ensures IsInfix(LastSegment(parent), Render(StructureQuestion(t, parent, children)).query)
    ensures STRUCTURE_PREFIX <= Render(StructureQuestion(t, parent, children)).response
    ensures IsInfix(children[i], Render(StructureQuestion(t, parent, children)).response)
    ensures Render(StructureQuestion(t, parent, children)).kind == Some(STRUCTURE_KIND)
  {
    FillContains(STRUCTURE_TEMPLATES[t], LastSegment(parent));
    JoinContainsParts(children, CHILD_SEPARATOR, i);
    InfixWithin(children[i], STRUCTURE_PREFIX, Join(children, CHILD_SEPARATOR), "");
    assert STRUCTURE_PREFIX + Join(children, CHILD_SEPARATOR) + "" == STRUCTURE_PREFIX + Join(children, CHILD_SEPARATOR);
  }

  /** A multiple-choice record shows option `i` under its label and answers with the correct line. */
  lemma ChoiceRecord(t: nat, options: seq<string>, answer: string, i: nat)
    requires t < MCQ_TEMPLATE_COUNT && |options| <= |LABELS| && i < |options|
    ensures Render(ChoiceQuestion(t, options, answer)).system == FIXED_SYSTEM_PROMPT
    ensures IsInfix(OptionLine(i, options[i]), Render(ChoiceQuestion(t, options, answer)).query)
    ensures Render(ChoiceQuestion(t, options, answer)).response == answer
    ensures Render(ChoiceQuestion(t, options, answer)).kind == Some(MCQ_KIND)
  {
    var optionLines := seq(|options|, j requires 0 <= j < |options| => OptionLine(j, options[j]));
    JoinContainsParts(optionLines, "\n", i);
    FillContains(MCQ_TEMPLATES[t], FormatOptions(options));
    InfixTrans(OptionLine(i, options[i]), FormatOptions(options), Fill(MCQ_TEMPLATES[t], FormatOptions(options)));
  }

  // ------------------------------------------------------------ the outcome

  /** The script stops at the first failed check, in order; otherwise it writes exactly `target` records to the output path. */
  lemma OutcomeCases(inputPath: string, file: Option<seq<string>>, target: Option<int>, draws: nat -> nat)
    ensures Outcome(inputPath, file, target, draws) == Err(MissingInput(inputPath)) <==> file.None?
    ensures Outcome(inputPath, file, target, draws) == Err(BadTarget) <==> file.Some? && (target.None? || target.value < 1)
    ensures (Outcome(inputPath, file, target, draws) == Err(EmptyTaxonomy))
              <==> (file.Some? && target.Some? && target.value >= 1 && Taxonomy(file.value) == [])
    ensures Outcome(inputPath, file, target, draws).Ok? ==>
              && target.Some? && target.value >= 1
              && Outcome(inputPath, file, target, draws).value.outputPath == OutputPath(inputPath, target.value)
              && |Outcome(inputPath, file, target, draws).value.records| == target.value
  {
  }

  /**
   * Every record written carries the fixed system prompt; a path or
   * multiple-choice record answers with a line of the taxonomy, a structure
   * record with the list of a category's children.
   */
  lemma OutcomeRecords(inputPath: string, file: seq<string>, target: nat, draws: nat -> nat, i: nat)
    requires target >= 1 && Taxonomy(file) != [] && i < target
    ensures Outcome(inputPath, Some(file), Some(target), draws).Ok?
    ensures var rec := Outcome(inputPath, Some(file), Some(target), draws).value.records[i];
            && rec.system == FIXED_SYSTEM_PROMPT
            && (rec.kind == Some(STRUCTURE_KIND) ==> STRUCTURE_PREFIX <= rec.response)
            && (rec.kind != Some(STRUCTURE_KIND) ==> rec.response in Taxonomy(file))
  {
    var lines := Taxonomy(file);
    var qs := Dataset(lines, target, draws);
    DatasetWellFormed(lines, target, draws);
    assert qs[i] in qs;
    RecordOfWellFormed(qs[i], lines);
  }

  /** The record of a well-formed question. */
  lemma RecordOfWellFormed(q: Question, lines: seq<string>)
    requires WellFormed(q, lines)
    ensures Render(q).system == FIXED_SYSTEM_PROMPT
    ensures Render(q).kind == Some(STRUCTURE_KIND) ==> STRUCTURE_PREFIX <= Render(q).response
    ensures Render(q).kind != Some(STRUCTURE_KIND) ==> Render(q).response in lines
  {
  }

  // -------------------------------------------------------- the output path

  /** `os.path.split` cuts a path with a directory just after its last '/'. */
  lemma SplitAtSlash(dir: string, name: string)
    requires dir != [] && dir[|dir| - 1] != '/' && '/' !in name
    ensures Head(dir + "/" + name) == dir
    ensures Tail(dir + "/" + name) == name
  {
    var path := dir + "/" + name;
    assert path[|dir|] == '/';
    assert path[|dir| + 1..] == name;
    assert DirEnd(path) == |dir| + 1;
    assert path[..|dir| + 1] == dir + "/";
    assert (dir + "/")[..|dir|] == dir;
    assert TrimSlashes(dir + "/") == TrimSlashes(dir) == dir;
  }

  /** An input path with a directory: the output goes into the same directory. */
  lemma OutputBeside(dir: string, name: string, target: nat)
    requires dir != [] && dir[|dir| - 1] != '/' && '/' !in name
    ensures OutputPath(dir + "/" + name, target) == dir + "/" + (BaseName(name) + OutputSuffix(target))
  {
    SplitAtSlash(dir, name);
  }

  /** A bare file name: the output goes into the working directory. */
  lemma OutputInWorkingDir(name: string, target: nat)
    requires '/' !in name
    ensures OutputPath(name, target) == BaseName(name) + OutputSuffix(target)
  {
    assert name[0..] == name;
  }

  /** A name with one extension loses it; a name without a '.' is kept whole. */
  lemma BaseNameCases(stem: string, ext: string)
    requires '.' !in stem && '.' !in ext && stem != []
    ensures BaseName(stem + "." + ext) == stem
    ensures BaseName(stem) == stem
  {
    var name := stem + "." + ext;
    assert name[|stem|] == '.';
    assert name[|stem| + 1..] == ext;
    assert LastIndex(name, '.') == Some(|stem|);
    assert name[0] == stem[0];
    assert name[..|stem|] == stem;
  }
}

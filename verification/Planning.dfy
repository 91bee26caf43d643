/** Execution plans as text: printing a plan, and reading one back from whatever a model wrote. */
module Planning {
  import opened Wrappers

  datatype Status = Pending | InProgress | Success | Cancelled | Error | NeedsRefinement

  datatype Task = Task(id: string, description: string, status: Status, tool: Option<string>)

  datatype PlanError = ValueError

  // ---- Printing ----

  function StatusText(s: Status): string {
    match s
    case Pending => "PENDING"
    case InProgress => "IN_PROGRESS"
    case Success => "SUCCESS"
    case Cancelled => "CANCELLED"
    case Error => "ERROR"
    case NeedsRefinement => "NEEDS_REFINEMENT"
  }

  function ToolText(tool: Option<string>): string {
    if tool.Some? then ", tool:" + tool.value else ""
  }

  /** `Task.to_str`. */
  function TaskText(t: Task): string {
    "- (id:" + (t.id + (", status:" + (StatusText(t.status) + (ToolText(t.tool) + ("): " + t.description)))))
  }

  function TaskLines(tasks: seq<Task>): (r: seq<string>)
    ensures |r| == |tasks| && forall i | 0 <= i < |r| :: r[i] == TaskText(tasks[i])
  {
    seq(|tasks|, i requires 0 <= i < |tasks| => TaskText(tasks[i]))
  }

  /** `"\n".join`. */
  function Joined(lines: seq<string>): string {
    if lines == [] then "" else if |lines| == 1 then lines[0] else lines[0] + "\n" + Joined(lines[1..])
  }

  /** `ExecutionPlan.to_str`. */
  function PlanText(tasks: seq<Task>): string {
    Joined(TaskLines(tasks))
  }

  // ---- Reading one line ----

  /** What `\w` may match: the letters of a status and the underscore, and none of the pattern's separators. */
  ghost predicate WordClass(word: char -> bool) {
    && (forall c | 'A' <= c <= 'Z' :: word(c))
    && word('_')
    && !word(',') && !word(')') && !word('.') && !word('\n')
  }

  function ToolClass(word: char -> bool): char -> bool {
    c => word(c) || c == '.'
  }

  predicate All(p: char -> bool, s: string) {
    forall i | 0 <= i < |s| :: p(s[i])
  }

  /** How far a greedy `[p]*` reaches. */
  function Span(p: char -> bool, s: string): (n: nat)
    ensures n <= |s| && All(p, s[..n])
    ensures n < |s| ==> !p(s[n])
  {
    if s == "" || !p(s[0]) then 0
    else
      var n := Span(p, s[1..]);
      assert s[..n + 1] == [s[0]] + s[1..][..n];
      n + 1
  }

  /** A greedy `[p]+`: what it takes, and what is left. */
  function Some1(p: char -> bool, s: string): (r: Option<(string, string)>)
    ensures r.Some? ==> r.value.0 + r.value.1 == s && r.value.0 != "" && All(p, r.value.0)
  {
    var n := Span(p, s);
    if n == 0 then None else Some((s[..n], s[n..]))
  }

  function After(literal: string, s: string): (r: Option<string>)
    ensures r.Some? ==> literal + r.value == s
  {
    if literal <= s then Some(s[|literal|..]) else None
  }

  predicate Within(part: string, s: string) {
    forall c | c in part :: c in s
  }

  predicate ToolFits(word: char -> bool, tool: Option<string>) {
    tool.Some? ==> tool.value != "" && All(ToolClass(word), tool.value)
  }

  datatype Groups = Groups(id: string, status: string, tool: Option<string>, description: string)

  function ReadDescription(s: string): (r: Option<string>)
    ensures r.Some? ==> r.value != "" && Within(r.value, s) && s == "): " + r.value
  {
    var rest :- After("): ", s);
    if rest == "" then None else Some(rest)
  }

  function ReadTool(word: char -> bool, s: string): (r: Option<(Option<string>, string)>)
    ensures r.Some? ==> ToolFits(word, r.value.0) && r.value.1 != "" && Within(r.value.1, s)
    ensures r.Some? ==> s == ToolText(r.value.0) + ("): " + r.value.1)
  {
    var rest := After(", tool:", s);
    if rest.None? then
      var description :- ReadDescription(s);
      Some((None, description))
    else
      var tool :- Some1(ToolClass(word), rest.value);
      var description :- ReadDescription(tool.1);
      Some((Some(tool.0), description))
  }

  function ReadStatus(word: char -> bool, s: string): (r: Option<(string, Option<string>, string)>)
    ensures r.Some? ==> ToolFits(word, r.value.1) && r.value.2 != "" && Within(r.value.2, s)
  {
    var comma :- After(",", s);
    var blanks :- Some1(c => c == ' ', comma);
    var rest :- After("status:", blanks.1);
    var status :- Some1(word, rest);
    var tail :- ReadTool(word, status.1);
    Some((status.0, tail.0, tail.1))
  }

  /** `_plan_line_pattern.match`; no part of the pattern can give back what it took. */
  function Matched(word: char -> bool, line: string): (r: Option<Groups>)
    ensures r.Some? ==> r.value.id != "" && All(word, r.value.id) && ToolFits(word, r.value.tool)
    ensures r.Some? ==> r.value.description != "" && Within(r.value.description, line)
  {
    var dash :- After("-", line);
    var blanks :- Some1(c => c == ' ', dash);
    var rest :- After("(id:", blanks.1);
    var id :- Some1(word, rest);
    var tail :- ReadStatus(word, id.1);
    Some(Groups(id.0, tail.0, tail.1, tail.2))
  }

  // ---- The lines the pattern describes ----

  predicate Blanks(s: string) {
    s != "" && All(c => c == ' ', s)
  }

  /** A task line with these groups: one or more blanks after the dash and the comma, and one blank before a tool. */
  ghost predicate TaskShape(word: char -> bool, line: string, g: Groups) {
    && g.id != "" && All(word, g.id) && g.status != "" && All(word, g.status) && ToolFits(word, g.tool)
    && g.description != ""
    && exists b, c | Blanks(b) && Blanks(c) :: line == ShapedLine(b, c, g)
  }

  function ShapedLine(b: string, c: string, g: Groups): string {
    var tail := g.status + (ToolText(g.tool) + ("): " + g.description));
    "-" + (b + ("(id:" + (g.id + ("," + (c + ("status:" + tail))))))
  }

  lemma {:induction false} MatchedHasShape(word: char -> bool, line: string)
    requires Matched(word, line).Some?
    ensures TaskShape(word, line, Matched(word, line).value)
  {
    var blanks := Some1(c => c == ' ', After("-", line).value).value;
    var id := Some1(word, After("(id:", blanks.1).value).value;
    var more := Some1(c => c == ' ', After(",", id.1).value).value;
    var status := Some1(word, After("status:", more.1).value).value;
    var tail := ReadTool(word, status.1).value;
    assert Blanks(blanks.0) && Blanks(more.0);
    assert line == ShapedLine(blanks.0, more.0, Groups(id.0, status.0, tail.0, tail.1));
  }

  lemma {:induction false} ShapedStatusIsRead(
    word: char -> bool, c: string, status: string, tool: Option<string>, description: string)
    requires WordClass(word) && Blanks(c) && status != "" && All(word, status)
    requires ToolFits(word, tool) && description != ""
    ensures var tail := ToolText(tool) + ("): " + description);
      ReadStatus(word, "," + (c + ("status:" + (status + tail)))) == Some((status, tool, description))
  {
    var tail := ToolText(tool) + ("): " + description);
    var rest := status + tail;
    assert tail[0] == (if tool.Some? then ',' else ')');
    AfterLiteral(",", c + ("status:" + rest));
    TakesAll(x => x == ' ', c, "status:" + rest);
    AfterLiteral("status:", rest);
    TakesAll(word, status, tail);
    ReadsTool(word, tool, description);
  }

  lemma {:induction false} ShapedIsMatched(word: char -> bool, line: string, g: Groups)
    requires WordClass(word) && TaskShape(word, line, g)
    ensures Matched(word, line) == Some(g)
  {
    var b, c :| Blanks(b) && Blanks(c) && line == ShapedLine(b, c, g);
    var tail := "," + (c + ("status:" + (g.status + (ToolText(g.tool) + ("): " + g.description)))));
    AfterLiteral("-", b + ("(id:" + (g.id + tail)));
    TakesAll(x => x == ' ', b, "(id:" + (g.id + tail));
    AfterLiteral("(id:", g.id + tail);
    TakesAll(word, g.id, tail);
    ShapedStatusIsRead(word, c, g.status, g.tool, g.description);
  }

  /** The reader finds groups in a line exactly when it has that shape. */
  lemma {:induction false} MatchedExactly(word: char -> bool, line: string, g: Groups)
    requires WordClass(word)
    ensures Matched(word, line) == Some(g) <==> TaskShape(word, line, g)
  {
    if Matched(word, line) == Some(g) {
      MatchedHasShape(word, line);
    }
    if TaskShape(word, line, g) {
      ShapedIsMatched(word, line, g);
    }
  }

  /** `TaskStatus(text)`. */
  function StatusOf(text: string): Option<Status> {
    if text == "PENDING" then Some(Pending)
    else if text == "IN_PROGRESS" then Some(InProgress)
    else if text == "SUCCESS" then Some(Success)
    else if text == "CANCELLED" then Some(Cancelled)
    else if text == "ERROR" then Some(Error)
    else if text == "NEEDS_REFINEMENT" then Some(NeedsRefinement)
    else None
  }

  /** The words of the statuses: each is written as its own name in capitals, and no other word is read. */
  lemma {:induction false} StatusWords(text: string)
    ensures StatusText(Pending) == "PENDING" && StatusText(InProgress) == "IN_PROGRESS"
    ensures StatusText(Success) == "SUCCESS" && StatusText(Cancelled) == "CANCELLED"
    ensures StatusText(Error) == "ERROR" && StatusText(NeedsRefinement) == "NEEDS_REFINEMENT"
    ensures forall s :: StatusOf(text) == Some(s) <==> text == StatusText(s)
  {
    var words := ["PENDING", "IN_PROGRESS", "SUCCESS", "CANCELLED", "ERROR", "NEEDS_REFINEMENT"];
    assert forall i, j | 0 <= i < j < 6 :: words[i] != words[j];
  }

  lemma {:induction false} Regroup(a: string, b: string, c: string)
    ensures a + b + c == a + (b + c)
  {
  }

  /** The line of a task, as one text. */
  lemma {:induction false} TaskLine(t: Task)
    ensures TaskText(t) ==
            "- (id:" + t.id + ", status:" + StatusText(t.status)
            + (if t.tool.Some? then ", tool:" + t.tool.value else "") + "): " + t.description
  {
    var a, b, c, d, e := "- (id:", ", status:", StatusText(t.status), ToolText(t.tool), "): ";
    Regroup(a + t.id + b + c + d, e, t.description);
    Regroup(a + t.id + b + c, d, e + t.description);
    Regroup(a + t.id + b, c, d + (e + t.description));
    Regroup(a + t.id, b, c + (d + (e + t.description)));
    Regroup(a, t.id, b + (c + (d + (e + t.description))));
  }

  /** `Task.from_str`: no task, a task, or the `ValueError` of an unknown status. */
  function TaskOf(word: char -> bool, line: string): Result<Option<Task>, PlanError> {
    var m := Matched(word, line);
    if m.None? then Ok(None)
    else
      var status := StatusOf(m.value.status);
      if status.None? then Raise(ValueError)
      else Ok(Some(Task(m.value.id, m.value.description, status.value, m.value.tool)))
  }

  // ---- Reading a plan ----

  /** `text.split("\n")`. */
  function Lines(text: string): (r: seq<string>)
    ensures r != []
  {
    var n := Span(c => c != '\n', text);
    if n == |text| then [text] else [text[..n]] + Lines(text[n + 1..])
  }

  type Reader = string -> Result<Option<Task>, PlanError>

  function TaskReader(word: char -> bool): Reader {
    line => TaskOf(word, line)
  }

  /** The tasks a reader finds, in the order of their lines; the first line that raises ends the reading. */
  function Collected(read: Reader, lines: seq<string>): Result<seq<Task>, PlanError> {
    if lines == [] then Ok([])
    else
      var tasks :- Collected(read, lines[..|lines| - 1]);
      var t :- read(lines[|lines| - 1]);
      Ok(if t.Some? then tasks + [t.value] else tasks)
  }

  function PlanIn(word: char -> bool, text: string): Result<seq<Task>, PlanError> {
    Collected(TaskReader(word), Lines(text))
  }

  /** `ExecutionPlan.from_str`. */
  method PlanOf(word: char -> bool, text: string) returns (r: Result<seq<Task>, PlanError>)
    ensures r == PlanIn(word, text)
  {
    r := Collect(TaskReader(word), Lines(text));
  }

  method Collect(read: Reader, lines: seq<string>) returns (r: Result<seq<Task>, PlanError>)
    ensures r == Collected(read, lines)
  {
    var tasks := [];
    for i := 0 to |lines|
      invariant Collected(read, lines[..i]) == Ok(tasks)
    {
      assert lines[..i + 1][..i] == lines[..i];
      var t := read(lines[i]);
      if t.Raise? {
        RaisesOn(read, lines, i + 1);
        return Raise(t.error);
      }
      if t.value.Some? {
        tasks := tasks + [t.value.value];
      }
    }
    assert lines[..|lines|] == lines;
    return Ok(tasks);
  }

  lemma {:induction false} RaisesOn(read: Reader, lines: seq<string>, n: nat)
    requires n <= |lines| && Collected(read, lines[..n]).Raise?
    ensures Collected(read, lines) == Collected(read, lines[..n])
    decreases |lines|
  {
    if n == |lines| {
      assert lines[..n] == lines;
    } else {
      assert lines[..|lines| - 1][..n] == lines[..n];
      RaisesOn(read, lines[..|lines| - 1], n);
    }
  }

  // ---- One task there and back ----

  /** Tasks whose text the pattern describes. */
  ghost predicate Printable(word: char -> bool, t: Task) {
    t.id != "" && All(word, t.id) && t.description != "" && ToolFits(word, t.tool)
  }

  lemma {:induction false} SpanStops(p: char -> bool, a: string, b: string)
    requires All(p, a) && (b == "" || !p(b[0]))
    ensures Span(p, a + b) == |a|
    decreases |a|
  {
    if a != "" {
      assert (a + b)[1..] == a[1..] + b;
      SpanStops(p, a[1..], b);
    }
  }

  lemma {:induction false} TakesAll(p: char -> bool, a: string, b: string)
    requires a != "" && All(p, a) && (b == "" || !p(b[0]))
    ensures Some1(p, a + b) == Some((a, b))
  {
    SpanStops(p, a, b);
    assert (a + b)[..|a|] == a && (a + b)[|a|..] == b;
  }

  lemma {:induction false} AfterLiteral(literal: string, s: string)
    ensures After(literal, literal + s) == Some(s)
  {
    assert (literal + s)[..|literal|] == literal && (literal + s)[|literal|..] == s;
  }

  lemma {:induction false} ReadsTool(word: char -> bool, tool: Option<string>, description: string)
    requires WordClass(word) && description != ""
    requires ToolFits(word, tool)
    ensures ReadTool(word, ToolText(tool) + ("): " + description)) == Some((tool, description))
  {
    var tail := "): " + description;
    AfterLiteral("): ", description);
    match tool {
      case None =>
        assert ToolText(tool) + tail == tail;
        assert tail[0] == ')' && After(", tool:", tail).None?;
      case Some(name) =>
        assert ToolText(tool) + tail == ", tool:" + (name + tail);
        AfterLiteral(", tool:", name + tail);
        TakesAll(ToolClass(word), name, tail);
    }
  }

  lemma {:induction false} ReadsStatus(word: char -> bool, status: string, tail: string, parts: (Option<string>,
    string))
    requires WordClass(word) && status != "" && All(word, status)
    requires tail != "" && !word(tail[0]) && ReadTool(word, tail) == Some(parts)
    ensures ReadStatus(word, ", status:" + (status + tail)) == Some((status, parts.0, parts.1))
  {
    var rest := status + tail;
    assert ", status:" + rest == "," + (" " + ("status:" + rest));
    AfterLiteral(",", " " + ("status:" + rest));
    TakesAll(c => c == ' ', " ", "status:" + rest);
    AfterLiteral("status:", rest);
    TakesAll(word, status, tail);
  }

  lemma {:induction false} MatchesTask(word: char -> bool, id: string, tail: string, parts: (string, Option<string>,
    string))
    requires WordClass(word) && id != "" && All(word, id)
    requires tail != "" && tail[0] == ',' && ReadStatus(word, tail) == Some(parts)
    ensures Matched(word, "- (id:" + (id + tail)) == Some(Groups(id, parts.0, parts.1, parts.2))
  {
    var rest := id + tail;
    var body := "(id:" + rest;
    TaskHead(rest);
    AfterLiteral("-", " " + body);
    TakesAll(c => c == ' ', " ", body);
    AfterLiteral("(id:", rest);
    TakesAll(word, id, tail);
  }

  lemma {:induction false} TaskHead(rest: string)
    ensures "- (id:" + rest == "-" + (" " + ("(id:" + rest))
  {
    assert "- (id:" == "-" + (" " + "(id:");
  }

  lemma {:induction false} StatusIsWord(word: char -> bool, status: Status)
    requires WordClass(word)
    ensures StatusText(status) != "" && All(word, StatusText(status))
    ensures StatusOf(StatusText(status)) == Some(status)
  {
  }

  lemma {:induction false} ReadsTask(word: char -> bool, t: Task)
    requires WordClass(word) && Printable(word, t)
    ensures TaskOf(word, TaskText(t)) == Ok(Some(t))
  {
    var tail := ToolText(t.tool) + ("): " + t.description);
    assert tail[0] == (if t.tool.Some? then ',' else ')');
    ReadsTool(word, t.tool, t.description);
    StatusIsWord(word, t.status);
    ReadsStatus(word, StatusText(t.status), tail, (t.tool, t.description));
    MatchesTask(word, t.id, ", status:" + (StatusText(t.status) + tail), (StatusText(t.status), t.tool, t.description));
  }

  /** Whatever is read is printable, and says nothing the line did not say. */
  lemma {:induction false} ReadIsPrintable(word: char -> bool, line: string)
    requires TaskOf(word, line).Ok? && TaskOf(word, line).value.Some?
    ensures Printable(word, TaskOf(word, line).value.value)
    ensures Within(TaskOf(word, line).value.value.description, line)
  {
  }

  /** A task survives printing and reading exactly when it is printable. */
  lemma {:induction false} TaskRoundTrip(word: char -> bool, t: Task)
    requires WordClass(word)
    ensures TaskOf(word, TaskText(t)) == Ok(Some(t)) <==> Printable(word, t)
  {
    if Printable(word, t) {
      ReadsTask(word, t);
    }
    if TaskOf(word, TaskText(t)) == Ok(Some(t)) {
      ReadIsPrintable(word, TaskText(t));
    }
  }

  // ---- Plans there and back ----

  predicate OneLine(s: string) {
    '\n' !in s
  }

  /** The lines that are not skipped. */
  function Noticed(read: Reader, lines: seq<string>): seq<string> {
    if lines == [] then []
    else
      var n := |lines| - 1;
      Noticed(read, lines[..n]) + if read(lines[n]) == Ok(None) then [] else [lines[n]]
  }

  /** Lines that are no task, wherever they stand, change nothing. */
  lemma {:induction false} SkippedLinesDoNotMatter(read: Reader, lines: seq<string>)
    ensures Collected(read, Noticed(read, lines)) == Collected(read, lines)
    decreases |lines|
  {
    if lines != [] {
      var n := |lines| - 1;
      SkippedLinesDoNotMatter(read, lines[..n]);
      var kept := Noticed(read, lines[..n]);
      assert (kept + [lines[n]])[..|kept|] == kept;
      assert read(lines[n]) == Ok(None) ==> Noticed(read, lines) == kept;
    }
  }

  lemma {:induction false} CollectsEach(read: Reader, lines: seq<string>, tasks: seq<Task>)
    requires |lines| == |tasks| && forall i | 0 <= i < |lines| :: read(lines[i]) == Ok(Some(tasks[i]))
    ensures Collected(read, lines) == Ok(tasks)
    decreases |tasks|
  {
    if tasks != [] {
      var n := |tasks| - 1;
      CollectsEach(read, lines[..n], tasks[..n]);
      assert tasks == tasks[..n] + [tasks[n]];
    }
  }

  lemma {:induction false} ReadsEveryTask(word: char -> bool, tasks: seq<Task>)
    requires WordClass(word) && forall i | 0 <= i < |tasks| :: Printable(word, tasks[i])
    ensures Collected(TaskReader(word), TaskLines(tasks)) == Ok(tasks)
  {
    forall i | 0 <= i < |tasks| ensures TaskReader(word)(TaskText(tasks[i])) == Ok(Some(tasks[i])) {
      ReadsTask(word, tasks[i]);
    }
    CollectsEach(TaskReader(word), TaskLines(tasks), tasks);
  }

  /** A text whose task lines are those of a plan reads as that plan, whatever stands between them. */
  lemma {:induction false} InterleavedRoundTrip(word: char -> bool, tasks: seq<Task>, text: string)
    requires WordClass(word) && forall i | 0 <= i < |tasks| :: Printable(word, tasks[i])
    requires Noticed(TaskReader(word), Lines(text)) == TaskLines(tasks)
    ensures PlanIn(word, text) == Ok(tasks)
  {
    SkippedLinesDoNotMatter(TaskReader(word), Lines(text));
    ReadsEveryTask(word, tasks);
  }

  lemma {:induction false} SplitJoined(lines: seq<string>)
    requires lines != [] && forall i | 0 <= i < |lines| :: OneLine(lines[i])
    ensures Lines(Joined(lines)) == lines
    decreases |lines|
  {
    var p := c => c != '\n';
    var head := lines[0];
    if |lines| == 1 {
      SpanStops(p, head, "");
      assert head + "" == head;
    } else {
      var rest := "\n" + Joined(lines[1..]);
      SpanStops(p, head, rest);
      assert Joined(lines) == head + rest;
      assert (head + rest)[..|head|] == head && (head + rest)[|head| + 1..] == Joined(lines[1..]);
      SplitJoined(lines[1..]);
    }
  }

  lemma {:induction false} LinesAreSingle(text: string)
    ensures forall i | 0 <= i < |Lines(text)| :: OneLine(Lines(text)[i])
    decreases |text|
  {
    var n := Span(c => c != '\n', text);
    if n < |text| {
      LinesAreSingle(text[n + 1..]);
    } else {
      assert text[..n] == text;
    }
  }

  lemma {:induction false} TaskTextOneLine(word: char -> bool, t: Task)
    requires WordClass(word) && Printable(word, t) && OneLine(t.description)
    ensures OneLine(TaskText(t))
  {
    assert OneLine(t.id) && OneLine(StatusText(t.status)) && OneLine(ToolText(t.tool));
  }

  /** Whatever a reader only says of lines, a plan says of all its tasks. */
  lemma {:induction false} CollectedKeeps(read: Reader, lines: seq<string>, keeps: Task -> bool)
    requires Collected(read, lines).Ok?
    requires forall i | 0 <= i < |lines| ::
               read(lines[i]).Ok? && read(lines[i]).value.Some? ==> keeps(read(lines[i]).value.value)
    ensures forall t | t in Collected(read, lines).value :: keeps(t)
    decreases |lines|
  {
    if lines != [] {
      CollectedKeeps(read, lines[..|lines| - 1], keeps);
    }
  }

  /** Exactly the plans of printable tasks with one-line descriptions survive printing and reading. */
  lemma {:induction false} PlanRoundTrip(word: char -> bool, tasks: seq<Task>)
    requires WordClass(word)
    ensures PlanIn(word, PlanText(tasks)) == Ok(tasks) <==>
            forall i | 0 <= i < |tasks| :: Printable(word, tasks[i]) && OneLine(tasks[i].description)
  {
    if forall i | 0 <= i < |tasks| :: Printable(word, tasks[i]) && OneLine(tasks[i].description) {
      PrintablePlanReadsBack(word, tasks);
    }
    if PlanIn(word, PlanText(tasks)) == Ok(tasks) {
      PlanReadIsPrintable(word, PlanText(tasks));
    }
  }

  lemma {:induction false} PrintablePlanReadsBack(word: char -> bool, tasks: seq<Task>)
    requires WordClass(word)
    requires forall i | 0 <= i < |tasks| :: Printable(word, tasks[i]) && OneLine(tasks[i].description)
    ensures PlanIn(word, PlanText(tasks)) == Ok(tasks)
  {
    if tasks == [] {
      assert Lines("") == [""] && Collected(TaskReader(word), [""][..0]) == Ok([]);
    } else {
      forall i | 0 <= i < |tasks| ensures OneLine(TaskLines(tasks)[i]) {
        TaskTextOneLine(word, tasks[i]);
      }
      SplitJoined(TaskLines(tasks));
      ReadsEveryTask(word, tasks);
    }
  }

  lemma {:induction false} PlanReadIsPrintable(word: char -> bool, text: string)
    requires PlanIn(word, text).Ok?
    ensures forall t | t in PlanIn(word, text).value :: Printable(word, t) && OneLine(t.description)
  {
    LinesAreSingle(text);
    var lines, read := Lines(text), TaskReader(word);
    forall i | 0 <= i < |lines| && read(lines[i]).Ok? && read(lines[i]).value.Some?
      ensures Printable(word, read(lines[i]).value.value) && OneLine(read(lines[i]).value.value.description)
    {
      ReadIsPrintable(word, lines[i]);
    }
    CollectedKeeps(read, lines, t => Printable(word, t) && OneLine(t.description));
  }
}

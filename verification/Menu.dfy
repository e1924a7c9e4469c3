/** The menu as a SwiftBar document, and what SwiftBar reads back out of it. */
module Menu {
  import opened Wrappers
  import opened Text
  import opened Terminal

  // ---- escaping for a second decoder ----------------------------------------------

  /** The pipe spelled so that an operator can read it. */
  const PIPE: string := ['\\', 'u', '{', '7', 'c', '}']

  /** Control characters visible, every backslash doubled, the pipe written pre-doubled. */
  function MenuText(text: string): string {
    ReplaceChar(ReplaceChar(SafeText(text), '\\', ['\\', '\\']), '|', ['\\'] + PIPE)
  }

  /** What the operator is meant to read. */
  function Shown(text: string): string {
    ReplaceChar(SafeText(text), '|', PIPE)
  }

  /** SwiftBar's own escapes: `\\` and `\n`; of any other escape only the backslash goes. */
  function Decode(s: string): string {
    if s == [] then []
    else if s[0] != '\\' then [s[0]] + Decode(s[1..])
    else if |s| > 1 && s[1] == '\\' then ['\\'] + Decode(s[2..])
    else if |s| > 1 && s[1] == 'n' then ['\n'] + Decode(s[2..])
    else Decode(s[1..])
  }

  /** Both replacements of `MenuText` in one pass. */
  function Encode(s: string): string {
    if s == [] then []
    else (if s[0] == '\\' then ['\\', '\\'] else if s[0] == '|' then ['\\'] + PIPE else [s[0]]) + Encode(s[1..])
  }

  lemma {:induction false} TwoReplacements(s: string)
    ensures ReplaceChar(ReplaceChar(s, '\\', ['\\', '\\']), '|', ['\\'] + PIPE) == Encode(s)
  {
    if s != [] {
      TwoReplacements(s[1..]);
      var head := if s[0] == '\\' then ['\\', '\\'] else [s[0]];
      ReplaceCharAppend(head, ReplaceChar(s[1..], '\\', ['\\', '\\']), '|', ['\\'] + PIPE);
      if s[0] == '\\' {
        NoPipeToReplace(head);
      } else {
        assert ReplaceChar(head[1..], '|', ['\\'] + PIPE) == [];
      }
    }
  }

  lemma {:induction false} NoPipeToReplace(s: string)
    requires '|' !in s
    ensures ReplaceChar(s, '|', ['\\'] + PIPE) == s
  {
    if s != [] {
      NoPipeToReplace(s[1..]);
    }
  }

  /** Text in which backslashes come in pairs. */
  predicate Paired(s: string) {
    || s == []
    || (s[0] != '\\' && Paired(s[1..]))
    || (s[0] == '\\' && |s| > 1 && s[1] == '\\' && Paired(s[2..]))
  }

  lemma {:induction false} PairedAppend(a: string, b: string)
    requires Paired(a)
    ensures Paired(b) ==> Paired(a + b)
    ensures Decode(a + b) == Decode(a) + Decode(b)
  {
    if a == [] {
      assert a + b == b;
    } else if a[0] != '\\' {
      assert (a + b)[1..] == a[1..] + b;
      PairedAppend(a[1..], b);
    } else {
      assert (a + b)[2..] == a[2..] + b;
      PairedAppend(a[2..], b);
    }
  }

  lemma {:induction false} PlainDecodes(s: string)
    requires '\\' !in s
    ensures Paired(s) && Decode(s) == s
  {
    if s != [] {
      PlainDecodes(s[1..]);
    }
  }

  lemma PipeDecodes()
    ensures Paired(['\\'] + PIPE) && Decode(['\\'] + PIPE) == PIPE
  {
    var tail := ['u', '{', '7', 'c', '}'];
    assert ['\\'] + PIPE == ['\\', '\\'] + tail && (['\\', '\\'] + tail)[2..] == tail;
    PlainDecodes(tail);
    assert ['\\'] + tail == PIPE;
  }

  lemma {:induction false} EncodeDecodes(s: string)
    ensures Paired(Encode(s)) && Decode(Encode(s)) == ReplaceChar(s, '|', PIPE)
  {
    if s != [] {
      EncodeDecodes(s[1..]);
      var head := if s[0] == '\\' then ['\\', '\\'] else if s[0] == '|' then ['\\'] + PIPE else [s[0]];
      HeadDecodes(s[0]);
      PairedAppend(head, Encode(s[1..]));
    }
  }

  lemma HeadDecodes(c: char)
    ensures var head := if c == '\\' then ['\\', '\\'] else if c == '|' then ['\\'] + PIPE else [c];
      Paired(head) && Decode(head) == if c == '|' then PIPE else [c]
  {
    if c == '\\' {
      assert ['\\', '\\'][2..] == [];
    } else if c == '|' {
      PipeDecodes();
    } else {
      assert [c][1..] == [];
    }
  }

  predicate NoBreak(s: string) {
    '|' !in s && Printable(s)
  }

  lemma {:induction false} EncodeNoBreak(s: string)
    requires Printable(s)
    ensures NoBreak(Encode(s))
  {
    if s != [] {
      EncodeNoBreak(s[1..]);
    }
  }

  /** No odd run of backslashes, `run` of them standing before `s`. */
  predicate EvenRuns(s: string, run: nat) {
    if s == [] then run % 2 == 0
    else if s[0] == '\\' then EvenRuns(s[1..], run + 1)
    else run % 2 == 0 && EvenRuns(s[1..], 0)
  }

  lemma {:induction false} PairedRunsAreEven(s: string, run: nat)
    requires Paired(s) && run % 2 == 0
    ensures EvenRuns(s, run)
    decreases |s|
  {
    if s == [] {
    } else if s[0] != '\\' {
      PairedRunsAreEven(s[1..], 0);
    } else {
      assert s[1..][1..] == s[2..];
      PairedRunsAreEven(s[2..], run + 2);
    }
  }

  /** The second decoder gives back what the operator should read, and finds nothing else to act on. */
  lemma MenuTextSurvives(text: string)
    ensures Decode(MenuText(text)) == Shown(text)
    ensures Paired(MenuText(text)) && EvenRuns(MenuText(text), 0)
    ensures NoBreak(MenuText(text))
  {
    var s := SafeText(text);
    TwoReplacements(s);
    EncodeDecodes(s);
    PairedRunsAreEven(MenuText(text), 0);
    SafeIsPrintable(text);
    EncodeNoBreak(s);
  }

  /** Without the doubling, the decoder undoes the first escape: one title, two lines. */
  lemma UndoubledNewlineReturns()
    ensures Decode(SafeText(['\n'])) == ['\n']
  {
    assert ['\n'][1..] == [];
    assert SafeText(['\n']) == ['\\', 'n'];
    assert ['\\', 'n'][2..] == [];
  }

  /** The texts that survive undoubled are exactly those with no backslash in them. */
  lemma {:induction false} SurvivesUndoubled(s: string)
    ensures |Decode(s)| <= |s|
    ensures Decode(s) == s <==> '\\' !in s
    decreases |s|
  {
    if s != [] {
      if s[0] != '\\' {
        SurvivesUndoubled(s[1..]);
        assert Decode(s)[1..] == Decode(s[1..]);
        assert s == [s[0]] + s[1..];
      } else if |s| > 1 && (s[1] == '\\' || s[1] == 'n') {
        SurvivesUndoubled(s[2..]);
      } else {
        SurvivesUndoubled(s[1..]);
      }
    }
  }

  // ---- the document ------------------------------------------------------------------

  const TITLE_BUDGET: nat := 60
  const ELLIPSIS: string := [0x2026 as char]
  const RENDER_AS_TEXT: string := "symbolize=false emojize=false"

  datatype Availability = Ok | Degraded | Down

  datatype Row = Row(taskId: int, state: string, workflow: string, title: string, waitingFor: Option<string>)

  datatype Model = Model(
    availability: Availability,
    attentionCount: nat,
    attention: seq<Row>,
    working: seq<Row>,
    recent: seq<Row>,
    degraded: seq<string>,
    error: Option<string>)

  /** A piece of a format string: written by the renderer, or filled in from outside and escaped. */
  datatype Segment = Lit(s: string) | Ext(s: string)

  /** One line: its text, and the parameters after the separator, if it has any. */
  datatype Line = Line(text: seq<Segment>, params: Option<seq<Segment>>)

  function Written(segments: seq<Segment>): string {
    if |segments| == 0 then []
    else (if segments[0].Lit? then segments[0].s else MenuText(segments[0].s)) + Written(segments[1..])
  }

  function Visible(segments: seq<Segment>): string {
    if |segments| == 0 then []
    else (if segments[0].Lit? then segments[0].s else Shown(segments[0].s)) + Visible(segments[1..])
  }

  function RenderLine(line: Line): string {
    (Written(line.text) + match line.params case None => [] case Some(params) => ['|'] + Written(params)) + ['\n']
  }

  function RenderLines(lines: seq<Line>): string {
    if |lines| == 0 then [] else RenderLine(lines[0]) + RenderLines(lines[1..])
  }

  /** Titles are shortened before they are escaped. */
  function Elide(title: string): string {
    if |title| > TITLE_BUDGET then title[..TITLE_BUDGET] + ELLIPSIS else title
  }

  function Glyph(availability: Availability): string {
    match availability
    case Ok => [0x25CB as char]
    case Degraded => [0x26A0 as char]
    case Down => [0x2715 as char]
  }

  function RowGlyph(state: string): string {
    if state == "verifying" then [0x1F50D as char]
    else if state == "waiting_input" || state == "awaiting_approval" then [0x23F8 as char]
    else if state == "escalated" then [0x1F6A8 as char]
    else if state == "pending" then [0x25C7 as char]
    else if state == "queued" then [0x26D4 as char]
    else if state == "failed" then [0x2717 as char]
    else if state == "cancelled" || state == "skipped" then [0x2298 as char]
    else [0x25B6 as char]
  }

  /** What the row shows as its state. */
  function RowState(row: Row): string {
    if row.waitingFor == Some("approval") then "awaiting_approval" else row.state
  }

  /** The row of a task, which focuses it when clicked. */
  function RowLine(row: Row, binary: string): Line {
    var id := IntText(row.taskId);
    Line(
      [Lit(RowGlyph(RowState(row))), Lit(" #"), Lit(id), Lit(" "), Ext(RowState(row)), Lit("  "), Ext(row.workflow),
       Lit([' ', 0x2014 as char, ' ']), Ext(Elide(row.title)), Lit(" ")],
      Some([Lit(" bash=\""), Ext(binary), Lit("\" param1=focus param2="), Lit(id), Lit(" terminal=false "),
            Lit(RENDER_AS_TEXT)]))
  }

  function TitleLine(model: Model): Line {
    Line([Lit(Glyph(model.availability))] + (if model.attentionCount > 0 then [Lit(" "), Lit(NatText(model.attentionCount))] else []),
         None)
  }

  const RULE: Line := Line([Lit("---")], None)

  function StatusLine(model: Model): Line {
    match model.error
    case Some(error) => Line([Ext(error), Lit(" ")], Some([Lit(" "), Lit(RENDER_AS_TEXT)]))
    case None =>
      match model.availability
      case Ok => Line([Lit("totsuka: running")], None)
      case Degraded => Line([Lit("totsuka: running, degraded")], None)
      case Down => Line([Lit("totsuka: not running")], None)
  }

  function ReasonLine(reason: string): Line {
    Line([Lit([0x2022 as char, ' ']), Ext(reason), Lit(" ")], Some([Lit(" "), Lit(RENDER_AS_TEXT)]))
  }

  function ActionLine(name: string, command: string, binary: string): Line {
    Line([Lit(name), Lit(" ")], Some([Lit(" bash=\""), Ext(binary), Lit("\" param1="), Lit(command), Lit(" terminal=true")]))
  }

  function ReasonLines(reasons: seq<string>): (lines: seq<Line>)
    ensures |lines| == |reasons|
  {
    seq(|reasons|, i requires 0 <= i < |reasons| => ReasonLine(reasons[i]))
  }

  function RowLines(rows: seq<Row>, binary: string): (lines: seq<Line>)
    ensures |lines| == |rows|
  {
    seq(|rows|, i requires 0 <= i < |rows| => RowLine(rows[i], binary))
  }

  /** A section takes no line at all when it is empty. */
  function SectionLines(title: string, rows: seq<Row>, binary: string): seq<Line> {
    if |rows| == 0 then [] else [RULE, Line([Lit(title)], None)] + RowLines(rows, binary)
  }

  function Head(model: Model): seq<Line> {
    [TitleLine(model), RULE, StatusLine(model)] + ReasonLines(model.degraded)
  }

  function Sections(model: Model, binary: string): seq<Line> {
    SectionLines("Needs you", model.attention, binary)
    + SectionLines("Working", model.working, binary)
    + SectionLines("Recent", model.recent, binary)
  }

  function Foot(binary: string): seq<Line> {
    [RULE, ActionLine("Open logs", "logs", binary), ActionLine("Run doctor", "doctor", binary)]
  }

  /** The lines of the whole document. */
  function MenuLines(model: Model, binary: string): seq<Line> {
    Head(model) + Sections(model, binary) + Foot(binary)
  }

  lemma {:induction false} RenderLinesAppend(a: seq<Line>, b: seq<Line>)
    ensures RenderLines(a + b) == RenderLines(a) + RenderLines(b)
  {
    if |a| == 0 {
      assert a + b == b;
    } else {
      assert (a + b)[1..] == a[1..] + b;
      RenderLinesAppend(a[1..], b);
    }
  }

  lemma RenderLinesSnoc(a: seq<Line>, l: Line)
    ensures RenderLines(a + [l]) == RenderLines(a) + RenderLine(l)
  {
    RenderLinesAppend(a, [l]);
    assert [l][1..] == [];
    assert RenderLines([l]) == RenderLine(l) + [];
  }

  method Push(out: string, ghost sofar: seq<Line>, line: Line) returns (next: string)
    requires out == RenderLines(sofar)
    ensures next == RenderLines(sofar + [line])
  {
    RenderLinesSnoc(sofar, line);
    next := out + RenderLine(line);
  }

  lemma PushedOne(sofar: seq<Line>, lines: seq<Line>, i: nat)
    requires i < |lines|
    ensures sofar + lines[..i] + [lines[i]] == sofar + lines[..i + 1]
  {
    assert lines[..i + 1] == lines[..i] + [lines[i]];
  }

  method PushRows(before: string, ghost sofar: seq<Line>, rows: seq<Row>, binary: string) returns (out: string)
    requires before == RenderLines(sofar)
    ensures out == RenderLines(sofar + RowLines(rows, binary))
  {
    out := before;
    ghost var lines := RowLines(rows, binary);
    assert sofar + lines[..0] == sofar;
    for i := 0 to |rows|
      invariant out == RenderLines(sofar + lines[..i])
    {
      PushedOne(sofar, lines, i);
      out := Push(out, sofar + lines[..i], RowLine(rows[i], binary));
    }
    assert lines[..|rows|] == lines;
  }

  method PushReasons(before: string, ghost sofar: seq<Line>, reasons: seq<string>) returns (out: string)
    requires before == RenderLines(sofar)
    ensures out == RenderLines(sofar + ReasonLines(reasons))
  {
    out := before;
    ghost var lines := ReasonLines(reasons);
    assert sofar + lines[..0] == sofar;
    for i := 0 to |reasons|
      invariant out == RenderLines(sofar + lines[..i])
    {
      PushedOne(sofar, lines, i);
      out := Push(out, sofar + lines[..i], ReasonLine(reasons[i]));
    }
    assert lines[..|reasons|] == lines;
  }

  method PushSection(before: string, ghost sofar: seq<Line>, title: string, rows: seq<Row>, binary: string)
    returns (out: string)
    requires before == RenderLines(sofar)
    ensures out == RenderLines(sofar + SectionLines(title, rows, binary))
  {
    out := before;
    if |rows| == 0 {
      assert sofar + [] == sofar;
      return;
    }
    ghost var heading := Line([Lit(title)], None);
    out := Push(out, sofar, RULE);
    out := Push(out, sofar + [RULE], Line([Lit(title)], None));
    out := PushRows(out, sofar + [RULE] + [heading], rows, binary);
    Regroup(sofar, RULE, heading, RowLines(rows, binary));
  }

  lemma Regroup(a: seq<Line>, b: Line, c: Line, d: seq<Line>)
    ensures a + [b] + [c] + d == a + ([b, c] + d)
  {
  }

  lemma Regroup3(a: Line, b: Line, c: Line)
    ensures [] + [a] + [b] + [c] == [a, b, c]
  {
  }

  /** The lines above the sections. */
  method PushHead(model: Model) returns (out: string)
    ensures out == RenderLines(Head(model))
  {
    out := Push("", [], TitleLine(model));
    out := Push(out, [] + [TitleLine(model)], RULE);
    out := Push(out, [] + [TitleLine(model)] + [RULE], StatusLine(model));
    Regroup3(TitleLine(model), RULE, StatusLine(model));
    out := PushReasons(out, [TitleLine(model), RULE, StatusLine(model)], model.degraded);
  }

  method PushSections(before: string, ghost sofar: seq<Line>, model: Model, binary: string) returns (out: string)
    requires before == RenderLines(sofar)
    ensures out == RenderLines(sofar + Sections(model, binary))
  {
    ghost var a := SectionLines("Needs you", model.attention, binary);
    ghost var b := SectionLines("Working", model.working, binary);
    ghost var c := SectionLines("Recent", model.recent, binary);
    out := PushSection(before, sofar, "Needs you", model.attention, binary);
    out := PushSection(out, sofar + a, "Working", model.working, binary);
    out := PushSection(out, sofar + a + b, "Recent", model.recent, binary);
    AssocSections(sofar, a, b, c);
  }

  lemma AssocSections(s: seq<Line>, a: seq<Line>, b: seq<Line>, c: seq<Line>)
    ensures s + a + b + c == s + (a + b + c)
  {
  }

  method PushFoot(before: string, ghost sofar: seq<Line>, binary: string) returns (out: string)
    requires before == RenderLines(sofar)
    ensures out == RenderLines(sofar + Foot(binary))
  {
    ghost var logs, doctor := ActionLine("Open logs", "logs", binary), ActionLine("Run doctor", "doctor", binary);
    out := Push(before, sofar, RULE);
    out := Push(out, sofar + [RULE], ActionLine("Open logs", "logs", binary));
    out := Push(out, sofar + [RULE] + [logs], ActionLine("Run doctor", "doctor", binary));
    assert sofar + [RULE] + [logs] + [doctor] == sofar + [RULE, logs, doctor];
  }

  /** Serialize the model, line by line. */
  method RenderSwiftbar(model: Model, binary: string) returns (out: string)
    ensures out == RenderLines(MenuLines(model, binary))
  {
    out := PushHead(model);
    out := PushSections(out, Head(model), model, binary);
    out := PushFoot(out, Head(model) + Sections(model, binary), binary);
  }

  // ---- what SwiftBar reads -----------------------------------------------------------

  /** A menu entry: the text shown, and the parameters it carries. */
  datatype Item = Item(text: string, params: Option<string>)

  function ReadLine(line: string): Item {
    match SplitAt(line, '|')
    case Absent => Item(Decode(line), None)
    case Split(text, params) => Item(Decode(text), Some(params))
  }

  /** Lines end at a line feed; a line's text ends at its first pipe. */
  function ReadMenu(out: string): seq<Item>
    decreases |out|
  {
    if out == [] then []
    else
      match SplitAt(out, '\n')
      case Absent => [ReadLine(out)]
      case Split(line, rest) => [ReadLine(line)] + ReadMenu(rest)
  }

  /** What a line is meant to say. */
  function Meant(line: Line): Item {
    Item(Visible(line.text), match line.params case None => None case Some(params) => Some(Written(params)))
  }

  function MeantItems(lines: seq<Line>): (items: seq<Item>)
    ensures |items| == |lines|
  {
    if |lines| == 0 then [] else [Meant(lines[0])] + MeantItems(lines[1..])
  }

  /** The renderer's own text holds nothing the reader acts on. */
  predicate CleanLit(s: string) {
    forall k :: 0 <= k < |s| ==> s[k] != '\\' && s[k] != '|' && !IsScreenControl(s[k])
  }

  predicate CleanSegments(segments: seq<Segment>) {
    forall k :: 0 <= k < |segments| && segments[k].Lit? ==> CleanLit(segments[k].s)
  }

  predicate CleanLine(line: Line) {
    CleanSegments(line.text) && (line.params.Some? ==> CleanSegments(line.params.value))
  }

  predicate CleanLines(lines: seq<Line>) {
    forall k :: 0 <= k < |lines| ==> CleanLine(lines[k])
  }

  lemma {:induction false} WrittenReads(segments: seq<Segment>)
    requires CleanSegments(segments)
    ensures NoBreak(Written(segments)) && '\n' !in Written(segments)
    ensures Decode(Written(segments)) == Visible(segments)
  {
    if |segments| > 0 {
      var rest := segments[1..];
      assert forall k :: 0 <= k < |rest| ==> rest[k] == segments[k + 1];
      WrittenReads(rest);
      var s := segments[0].s;
      if segments[0].Lit? {
        assert CleanLit(segments[0].s);
        PlainDecodes(s);
        PairedAppend(s, Written(rest));
      } else {
        MenuTextSurvives(s);
        PairedAppend(MenuText(s), Written(rest));
      }
    }
  }

  lemma TextLineReads(text: string, rest: string)
    requires NoBreak(text) && '\n' !in text
    ensures ReadMenu((text + []) + ['\n'] + rest) == [Item(Decode(text), None)] + ReadMenu(rest)
  {
    assert (text + []) + ['\n'] + rest == text + (['\n'] + rest);
    SplitFirst(text, '\n', rest);
    SplitAbsent(text, '|');
  }

  lemma ActionLineReads(text: string, params: string, rest: string)
    requires NoBreak(text) && '\n' !in text && '\n' !in params
    ensures ReadMenu((text + (['|'] + params)) + ['\n'] + rest) == [Item(Decode(text), Some(params))] + ReadMenu(rest)
  {
    var body := text + (['|'] + params);
    Assoc(body, ['\n'], rest);
    SplitFirst(body, '\n', rest);
    SplitFirst(text, '|', params);
  }

  lemma LineReads(line: Line, rest: string)
    requires CleanLine(line)
    ensures ReadMenu(RenderLine(line) + rest) == [Meant(line)] + ReadMenu(rest)
  {
    WrittenReads(line.text);
    match line.params
    case None => TextLineReads(Written(line.text), rest);
    case Some(params) =>
      WrittenReads(params);
      ActionLineReads(Written(line.text), Written(params), rest);
  }

  lemma {:induction false} LinesRead(lines: seq<Line>)
    requires CleanLines(lines)
    ensures ReadMenu(RenderLines(lines)) == MeantItems(lines)
  {
    if |lines| > 0 {
      assert CleanLine(lines[0]);
      assert forall k :: 0 <= k < |lines| - 1 ==> lines[1..][k] == lines[k + 1];
      LinesRead(lines[1..]);
      LineReads(lines[0], RenderLines(lines[1..]));
    }
  }

  lemma {:induction false} NatTextClean(n: nat)
    ensures CleanLit(NatText(n))
  {
  }

  lemma IntTextClean(n: int)
    ensures CleanLit(IntText(n))
  {
  }

  lemma ParameterLiterals()
    ensures CleanLit(" bash=\"") && CleanLit("\" param1=") && CleanLit(" terminal=true")
    ensures CleanLit("\" param1=focus param2=") && CleanLit(" terminal=false ")
  {
  }

  lemma SwitchLiteral()
    ensures CleanLit(RENDER_AS_TEXT)
  {
  }

  lemma StatusLiterals()
    ensures CleanLit("totsuka: running") && CleanLit("totsuka: not running")
    ensures CleanLit("totsuka: running, degraded")
  {
  }

  lemma RowTextClean(row: Row)
    ensures CleanSegments(RowLine(row, "").text)
  {
    IntTextClean(row.taskId);
    assert CleanLit(RowGlyph(RowState(row)));
    assert CleanLit(" #") && CleanLit(" ") && CleanLit("  ") && CleanLit([' ', 0x2014 as char, ' ']);
  }

  lemma RowLineClean(row: Row, binary: string)
    ensures CleanLine(RowLine(row, binary))
  {
    RowTextClean(row);
    assert RowLine(row, binary).text == RowLine(row, "").text;
    IntTextClean(row.taskId);
    ParameterLiterals();
    SwitchLiteral();
  }

  lemma ReasonClean(reason: string)
    ensures CleanLine(ReasonLine(reason))
  {
    SwitchLiteral();
    assert CleanLit([0x2022 as char, ' ']) && CleanLit(" ");
  }

  lemma TopClean(model: Model)
    ensures CleanLine(TitleLine(model)) && CleanLine(RULE) && CleanLine(StatusLine(model))
  {
    NatTextClean(model.attentionCount);
    SwitchLiteral();
    StatusLiterals();
    assert CleanLit(" ") && CleanLit("---") && CleanLit(Glyph(model.availability));
  }

  lemma HeadClean(model: Model)
    ensures CleanLines(Head(model))
  {
    TopClean(model);
    forall k | 0 <= k < |ReasonLines(model.degraded)| ensures CleanLine(ReasonLines(model.degraded)[k]) {
      ReasonClean(model.degraded[k]);
    }
  }

  lemma SectionClean(title: string, rows: seq<Row>, binary: string)
    requires CleanLit(title)
    ensures CleanLines(SectionLines(title, rows, binary))
  {
    assert CleanLine(RULE) && CleanLine(Line([Lit(title)], None));
    forall k | 0 <= k < |RowLines(rows, binary)| ensures CleanLine(RowLines(rows, binary)[k]) {
      RowLineClean(rows[k], binary);
    }
  }

  lemma ActionClean(name: string, command: string, binary: string)
    requires CleanLit(name) && CleanLit(command)
    ensures CleanLine(ActionLine(name, command, binary))
  {
    ParameterLiterals();
    assert CleanLit(" ");
  }

  lemma FootClean(binary: string)
    ensures CleanLines(Foot(binary))
  {
    assert CleanLine(RULE);
    ActionClean("Open logs", "logs", binary);
    ActionClean("Run doctor", "doctor", binary);
  }

  lemma MenuClean(model: Model, binary: string)
    ensures CleanLines(MenuLines(model, binary))
  {
    HeadClean(model);
    SectionClean("Needs you", model.attention, binary);
    SectionClean("Working", model.working, binary);
    SectionClean("Recent", model.recent, binary);
    FootClean(binary);
    assert CleanLines(Sections(model, binary));
  }

  /** No line carries a second pipe: the parameters hold none either. */
  lemma {:induction false} OnePipePerLine(lines: seq<Line>)
    requires CleanLines(lines)
    ensures forall item :: item in ReadMenu(RenderLines(lines)) && item.params.Some? ==> '|' !in item.params.value
  {
    LinesRead(lines);
    if |lines| > 0 {
      assert CleanLine(lines[0]);
      assert forall k :: 0 <= k < |lines| - 1 ==> lines[1..][k] == lines[k + 1];
      LinesRead(lines[1..]);
      OnePipePerLine(lines[1..]);
      if lines[0].params.Some? {
        WrittenReads(lines[0].params.value);
      }
    }
  }

  function SectionSize(rows: seq<Row>): nat {
    if |rows| == 0 then 0 else 2 + |rows|
  }

  /**
   * Whatever the titles, reasons, error and binary path hold, SwiftBar reads exactly the lines the
   * renderer meant: as many, with the text each was to show, and with all that stands after the renderer's own
   * separator as its parameter text.
   */
  lemma MenuReadsAsMeant(model: Model, binary: string)
    ensures var items := ReadMenu(RenderLines(MenuLines(model, binary)));
      && items == MeantItems(MenuLines(model, binary))
      && |items| == 6 + |model.degraded|
                    + SectionSize(model.attention) + SectionSize(model.working) + SectionSize(model.recent)
      && forall item :: item in items && item.params.Some? ==> '|' !in item.params.value
  {
    MenuClean(model, binary);
    LinesRead(MenuLines(model, binary));
    OnePipePerLine(MenuLines(model, binary));
  }

  // ---- separators ----------------------------------------------------------------------

  /** A shown text that starts with `---` reads as a separator. */
  predicate ReadsAsSeparator(text: string) {
    |text| >= 3 && text[0] == '-' && text[1] == '-' && text[2] == '-'
  }

  /** A line that opens with text of the renderer's own, which is no dash. */
  predicate OpensPlainly(line: Line) {
    line.text != [] && line.text[0].Lit? && line.text[0].s != [] && line.text[0].s[0] != '-'
  }

  lemma PlainlyNoSeparator(line: Line)
    requires OpensPlainly(line)
    ensures line != RULE && !ReadsAsSeparator(Visible(line.text))
  {
  }

  lemma RuleIsSeparator()
    ensures ReadsAsSeparator(Visible(RULE.text))
  {
    assert RULE.text[1..] == [] && Visible(RULE.text) == "---" + [];
  }

  /** Dashes pass the escaping, and nothing else turns into one at the start. */
  lemma {:induction false} DashesPass(text: string, n: nat)
    ensures Dashes(Shown(text), n) <==> Dashes(text, n)
  {
    if n > 0 && text != [] {
      DashesPass(text[1..], n - 1);
      assert !IsScreenControl('-');
      if text[0] == '-' {
        assert SafeText(text) == ['-'] + SafeText(text[1..]);
        assert (['-'] + SafeText(text[1..]))[1..] == SafeText(text[1..]);
        assert Shown(text) == ['-'] + Shown(text[1..]);
      } else if IsScreenControl(text[0]) {
        EscapeOpens(text[0]);
        assert SafeText(text)[0] == '\\';
      } else {
        assert SafeText(text)[0] == text[0];
      }
    }
  }

  lemma EscapeOpens(c: char)
    requires IsScreenControl(c)
    ensures EscapeDebug(c) != [] && EscapeDebug(c)[0] == '\\'
  {
  }

  /** The text starts with `n` dashes. */
  predicate Dashes(text: string, n: nat) {
    n == 0 || (text != [] && text[0] == '-' && Dashes(text[1..], n - 1))
  }

  lemma ThreeDashes(text: string)
    ensures ReadsAsSeparator(text) <==> Dashes(text, 3)
  {
    if |text| >= 2 {
      assert text[1..][0] == text[1] && text[1..][1..] == text[2..];
      assert Dashes(text[2..], 1) <==> |text| >= 3 && text[2] == '-';
      assert Dashes(text[1..], 2) <==> text[1] == '-' && Dashes(text[2..], 1);
    }
  }

  /** The status line of a failure reads as a separator exactly when the error does. */
  lemma ErrorReads(error: string)
    ensures ReadsAsSeparator(Visible([Ext(error), Lit(" ")])) <==> ReadsAsSeparator(error)
  {
    var segments := [Ext(error), Lit(" ")];
    assert segments[1..] == [Lit(" ")] && [Lit(" ")][1..] == [];
    assert Visible(segments) == Shown(error) + (" " + []);
    ThreeDashes(error);
    ThreeDashes(Shown(error));
    DashesPass(error, 3);
  }

  /** Separators of the renderer's own, and lines that are none. */
  predicate Ordinary(lines: seq<Line>) {
    forall k :: 0 <= k < |lines| ==> lines[k] == RULE || OpensPlainly(lines[k])
  }

  lemma RowGlyphPlain(state: string)
    ensures RowGlyph(state) != [] && RowGlyph(state)[0] != '-'
  {
  }

  lemma RowOpensPlainly(row: Row, binary: string)
    ensures OpensPlainly(RowLine(row, binary))
  {
    RowGlyphPlain(RowState(row));
  }

  lemma SectionOrdinary(title: string, rows: seq<Row>, binary: string)
    requires title != [] && title[0] != '-'
    ensures Ordinary(SectionLines(title, rows, binary))
  {
    forall k | 0 <= k < |RowLines(rows, binary)| ensures OpensPlainly(RowLines(rows, binary)[k]) {
      RowOpensPlainly(rows[k], binary);
    }
  }

  lemma SectionsOrdinary(model: Model, binary: string)
    ensures Ordinary(Sections(model, binary)) && Ordinary(Foot(binary))
  {
    SectionOrdinary("Needs you", model.attention, binary);
    SectionOrdinary("Working", model.working, binary);
    SectionOrdinary("Recent", model.recent, binary);
  }

  lemma HeadOrdinary(model: Model, k: nat)
    requires k < |Head(model)| && (k == 2 ==> model.error.None?)
    ensures Head(model)[k] == RULE || OpensPlainly(Head(model)[k])
  {
    if k == 0 {
      assert Head(model)[0] == TitleLine(model);
      assert Glyph(model.availability) != [] && Glyph(model.availability)[0] != '-';
    } else if k == 1 {
      assert Head(model)[1] == RULE;
    } else if k == 2 {
      assert Head(model)[2] == StatusLine(model);
      assert OpensPlainly(StatusLine(model));
    } else {
      assert Head(model)[k] == ReasonLine(model.degraded[k - 3]);
    }
  }

  lemma LineOrdinary(model: Model, binary: string, k: nat)
    requires k < |MenuLines(model, binary)| && (k == 2 ==> model.error.None?)
    ensures MenuLines(model, binary)[k] == RULE || OpensPlainly(MenuLines(model, binary)[k])
  {
    var head, sections := Head(model), Sections(model, binary);
    SectionsOrdinary(model, binary);
    if k < |head| {
      HeadOrdinary(model, k);
      assert MenuLines(model, binary)[k] == head[k];
    } else if k < |head| + |sections| {
      assert MenuLines(model, binary)[k] == sections[k - |head|];
    } else {
      assert MenuLines(model, binary)[k] == Foot(binary)[k - |head| - |sections|];
    }
  }

  /** Which items of the menu read as separators: the renderer's, and a failure whose text begins like one. */
  lemma SeparatorAt(model: Model, binary: string, k: nat)
    requires k < |MenuLines(model, binary)|
    ensures var line := MenuLines(model, binary)[k];
      ReadsAsSeparator(Visible(line.text)) <==>
      line == RULE || (k == 2 && model.error.Some? && ReadsAsSeparator(model.error.value))
  {
    var line := MenuLines(model, binary)[k];
    RuleIsSeparator();
    if k == 2 && model.error.Some? {
      assert line == Head(model)[2] == StatusLine(model);
      ErrorReads(model.error.value);
    } else {
      LineOrdinary(model, binary, k);
      if line != RULE {
        PlainlyNoSeparator(line);
      }
    }
  }

  lemma {:induction false} MeantAt(lines: seq<Line>, k: nat)
    requires k < |lines|
    ensures MeantItems(lines)[k] == Meant(lines[k])
  {
    if k > 0 {
      MeantAt(lines[1..], k - 1);
    }
  }

  /**
   * No title, reason, workflow or path forges a separator: those read are exactly the renderer's, unless it is the
   * error of a menu that could not be built, and that begins with three dashes.
   */
  lemma SeparatorsAreTheRenderers(model: Model, binary: string)
    ensures var lines, items := MenuLines(model, binary), ReadMenu(RenderLines(MenuLines(model, binary)));
      && |items| == |lines|
      && ((forall k :: 0 <= k < |items| ==> (ReadsAsSeparator(items[k].text) <==> lines[k] == RULE)) <==>
          !(model.error.Some? && ReadsAsSeparator(model.error.value)))
  {
    var lines := MenuLines(model, binary);
    MenuClean(model, binary);
    LinesRead(lines);
    forall k | 0 <= k < |lines|
      ensures ReadsAsSeparator(MeantItems(lines)[k].text) <==>
              lines[k] == RULE || (k == 2 && model.error.Some? && ReadsAsSeparator(model.error.value))
    {
      MeantAt(lines, k);
      SeparatorAt(model, binary, k);
    }
    if model.error.Some? {
      assert lines[2] == Head(model)[2] == StatusLine(model);
      assert StatusLine(model) != RULE;
      assert 2 < |lines|;
    }
  }

  // ---- the lines by their letters ---------------------------------------------------------------

  /** Sixty characters of a title are shown, and an ellipsis for the rest. */
  lemma TitleShown(title: string)
    ensures |title| <= 60 ==> Elide(title) == title
    ensures |title| > 60 ==> |Elide(title)| == 61 && Elide(title)[..60] == title[..60] && Elide(title)[60] as int == 0x2026
  {
  }

  lemma VisibleCons(s: Segment, rest: seq<Segment>)
    ensures Visible([s] + rest) == (if s.Lit? then s.s else Shown(s.s)) + Visible(rest)
  {
    assert ([s] + rest)[1..] == rest;
  }

  /** What a task row says: glyph, number, state, workflow and title, each in its place. */
  lemma RowSays(row: Row, binary: string)
    ensures var shown := if row.waitingFor == Some("approval") then "awaiting_approval" else row.state;
      Visible(RowLine(row, binary).text) ==
      RowGlyph(shown) + (" #" + (IntText(row.taskId) + (" " + (Shown(shown) + ("  " + (Shown(row.workflow)
      + ([' ', 0x2014 as char, ' '] + (Shown(Elide(row.title)) + (" " + [])))))))))
  {
    var shown := if row.waitingFor == Some("approval") then "awaiting_approval" else row.state;
    var a, b, c, d, e := Lit(RowGlyph(shown)), Lit(" #"), Lit(IntText(row.taskId)), Lit(" "), Ext(shown);
    var f, g, h, i, j := Lit("  "), Ext(row.workflow), Lit([' ', 0x2014 as char, ' ']), Ext(Elide(row.title)), Lit(" ");
    VisibleCons(j, []);
    VisibleCons(i, [j] + []);
    VisibleCons(h, [i] + ([j] + []));
    VisibleCons(g, [h] + ([i] + ([j] + [])));
    VisibleCons(f, [g] + ([h] + ([i] + ([j] + []))));
    var tail := [f] + ([g] + ([h] + ([i] + ([j] + []))));
    VisibleCons(e, tail);
    VisibleCons(d, [e] + tail);
    VisibleCons(c, [d] + ([e] + tail));
    VisibleCons(b, [c] + ([d] + ([e] + tail)));
    VisibleCons(a, [b] + ([c] + ([d] + ([e] + tail))));
    assert tail == [f, g, h, i, j];
    assert RowLine(row, binary).text == [a] + ([b] + ([c] + ([d] + ([e] + tail))));
  }

  /** The glyphs by code point. */
  lemma RowGlyphs()
    ensures RowGlyph("verifying") == [0x1F50D as char] && RowGlyph("escalated") == [0x1F6A8 as char]
    ensures RowGlyph("waiting_input") == RowGlyph("awaiting_approval") == [0x23F8 as char]
    ensures RowGlyph("pending") == [0x25C7 as char] && RowGlyph("queued") == [0x26D4 as char]
    ensures RowGlyph("failed") == [0x2717 as char]
    ensures RowGlyph("cancelled") == RowGlyph("skipped") == [0x2298 as char]
    ensures RowGlyph("running") == RowGlyph("dispatched") == RowGlyph("publishing") == [0x25B6 as char]
  {
  }

  /** The bar's title: the glyph, and the number of waiting tasks where there is one. */
  lemma TitleSays(model: Model)
    ensures Meant(TitleLine(model)).params == None
    ensures model.availability == Availability.Ok ==> Glyph(model.availability) == [0x25CB as char]
    ensures model.availability == Degraded ==> Glyph(model.availability) == [0x26A0 as char]
    ensures model.availability == Down ==> Glyph(model.availability) == [0x2715 as char]
    ensures model.attentionCount == 0 ==> Visible(TitleLine(model).text) == Glyph(model.availability) + []
    ensures model.attentionCount > 0 ==>
              Visible(TitleLine(model).text) == Glyph(model.availability) + (" " + (NatText(model.attentionCount) + []))
  {
    var glyph, blank, count := Lit(Glyph(model.availability)), Lit(" "), Lit(NatText(model.attentionCount));
    VisibleCons(glyph, []);
    VisibleCons(count, []);
    VisibleCons(blank, [count] + []);
    VisibleCons(glyph, [blank] + ([count] + []));
    assert [glyph] + [] == [glyph] && [glyph] + ([blank] + ([count] + [])) == [glyph] + [blank, count];
  }

  /** The status line and the reasons. */
  lemma StatusSays(model: Model, reason: string)
    ensures model.error.Some? ==> Visible(StatusLine(model).text) == Shown(model.error.value) + (" " + [])
    ensures model.error.None? && model.availability == Availability.Ok ==> Visible(StatusLine(model).text) == "totsuka: running" + []
    ensures model.error.None? && model.availability == Degraded ==>
              Visible(StatusLine(model).text) == "totsuka: running, degraded" + []
    ensures model.error.None? && model.availability == Down ==>
              Visible(StatusLine(model).text) == "totsuka: not running" + []
    ensures Visible(ReasonLine(reason).text) == [0x2022 as char, ' '] + (Shown(reason) + (" " + []))
  {
    var blank := Lit(" ");
    VisibleCons(blank, []);
    VisibleCons(Ext(reason), [blank] + []);
    VisibleCons(Lit([0x2022 as char, ' ']), [Ext(reason)] + ([blank] + []));
    assert [Lit([0x2022 as char, ' '])] + ([Ext(reason)] + ([blank] + [])) == ReasonLine(reason).text;
    if model.error.Some? {
      VisibleCons(Ext(model.error.value), [blank] + []);
      assert [Ext(model.error.value)] + ([blank] + []) == StatusLine(model).text;
    } else {
      assert StatusLine(model).text[1..] == [];
    }
  }

  /** Where each line stands: the head, a rule and a heading before the rows of each section that has any, the foot. */
  lemma LinesStand(model: Model, binary: string)
    ensures MenuLines(model, binary) ==
            [TitleLine(model), RULE, StatusLine(model)] + ReasonLines(model.degraded)
            + (HeadedRows("Needs you", model.attention, binary) + HeadedRows("Working", model.working, binary)
               + HeadedRows("Recent", model.recent, binary))
            + [RULE, ActionLine("Open logs", "logs", binary), ActionLine("Run doctor", "doctor", binary)]
    ensures forall k :: 0 <= k < |model.degraded| ==> ReasonLines(model.degraded)[k] == ReasonLine(model.degraded[k])
    ensures forall k :: 0 <= k < |model.attention| ==> RowLines(model.attention, binary)[k] == RowLine(model.attention[k], binary)
    ensures Visible(RULE.text) == "---" + []
  {
    assert RULE.text[1..] == [];
  }

  /** The rows of a section behind its heading, or nothing. */
  function HeadedRows(heading: string, rows: seq<Row>, binary: string): seq<Line> {
    if rows == [] then [] else [RULE] + ([Line([Lit(heading)], None)] + RowLines(rows, binary))
  }
}

/** What SwiftBar reads after a row's separator, and when that is what the renderer wrote. */
module MenuParams {
  import opened Wrappers
  import opened Text
  import opened Terminal
  import opened Menu

  datatype Param = Param(key: string, value: string)

  /** `key=value …`: a value in quotes runs to the next quote, any other to the next space. */
  function ReadParams(s: string): seq<Param>
    decreases |s|
  {
    if s == [] then []
    else if s[0] == ' ' then ReadParams(s[1..])
    else
      match SplitAt(s, '=')
      case Absent => []
      case Split(key, after) =>
        if after != [] && after[0] == '"' then
          match SplitAt(after[1..], '"')
          case Absent => [Param(key, after[1..])]
          case Split(value, rest) => [Param(key, value)] + ReadParams(rest)
        else
          match SplitAt(after, ' ')
          case Absent => [Param(key, after)]
          case Split(value, rest) => [Param(key, value)] + ReadParams(rest)
  }

  /** Parameters that need no quotes. */
  predicate IsBare(p: Param) {
    && p.key != [] && '=' !in p.key && p.key[0] != ' '
    && ' ' !in p.value && (p.value != [] ==> p.value[0] != '"')
  }

  function Spell(params: seq<Param>): string {
    if params == [] then []
    else [' '] + (params[0].key + (['='] + (params[0].value + Spell(params[1..]))))
  }

  lemma {:induction false} SpelledIsRead(params: seq<Param>)
    requires forall p :: p in params ==> IsBare(p)
    ensures ReadParams(Spell(params)) == params
  {
    if params != [] {
      var p, rest := params[0], params[1..];
      assert IsBare(p);
      SpelledIsRead(rest);
      var after := p.value + Spell(rest);
      var s := p.key + (['='] + after);
      assert Spell(params) == [' '] + s && ([' '] + s)[1..] == s;
      SplitFirst(p.key, '=', after);
      assert params == [p] + rest;
      BareEnds(p, rest);
    }
  }

  /** A bare value ends where the next parameter starts. */
  lemma BareEnds(p: Param, rest: seq<Param>)
    requires IsBare(p)
    ensures p.value + Spell(rest) != [] ==> (p.value + Spell(rest))[0] != '"'
    ensures rest == [] ==> SplitAt(p.value + Spell(rest), ' ').Absent? && p.value + Spell(rest) == p.value
    ensures rest != [] ==>
              var cut := SplitAt(p.value + Spell(rest), ' ');
              cut.Split? && cut.before == p.value && ReadParams(cut.after) == ReadParams(Spell(rest))
  {
    if rest == [] {
      assert p.value + [] == p.value;
      SplitAbsent(p.value, ' ');
    } else {
      var tail := rest[0].key + (['='] + (rest[0].value + Spell(rest[1..])));
      SplitFirst(p.value, ' ', tail);
      assert ([' '] + tail)[1..] == tail;
    }
  }

  /** A quoted parameter, and whatever follows it. */
  function Quoted(key: string, value: string, rest: string): string {
    [' '] + (key + (['='] + (['"'] + (value + (['"'] + rest)))))
  }

  /** A quoted value is read as written, and what follows it too, exactly when it holds no quote. */
  lemma QuotedIsRead(key: string, value: string, rest: string)
    requires IsBare(Param(key, ""))
    ensures ReadParams(Quoted(key, value, rest)) == [Param(key, value)] + ReadParams(rest) <==> '"' !in value
  {
    var inner := value + (['"'] + rest);
    var after := ['"'] + inner;
    var s := key + (['='] + after);
    assert Quoted(key, value, rest)[1..] == s && after[1..] == inner;
    SplitFirst(key, '=', after);
    if '"' !in value {
      SplitFirst(value, '"', rest);
    } else {
      SplitAbsent(value, '"');
      SplitPrefix(value, '"', ['"'] + rest);
      assert ReadParams(s)[0] == Param(key, SplitAt(value, '"').before);
      assert |SplitAt(value, '"').before| < |value|;
    }
  }

  // ---- quotes pass the escaping -----------------------------------------------------------------

  lemma {:induction false} ReplacePasses(s: string, c: char, with: string, d: char)
    requires d != c && d !in with
    ensures d in ReplaceChar(s, c, with) <==> d in s
  {
    if s != [] {
      ReplacePasses(s[1..], c, with, d);
      assert s == [s[0]] + s[1..];
    }
  }

  lemma NoQuoteInEscape(c: char)
    requires IsScreenControl(c)
    ensures '"' !in EscapeDebug(c)
  {
    var e, hex := EscapeDebug(c), HexText(c as int);
    if !(c == NUL || c == '\t' || c == '\r' || c == '\n') {
      assert forall k :: 0 <= k < |hex| ==> hex[k] != '"';
      assert e == ['\\', 'u', '{'] + (hex + ['}']);
    }
  }

  lemma {:induction false} SafePassesQuotes(text: string)
    ensures '"' in SafeText(text) <==> '"' in text
  {
    if text != [] {
      SafePassesQuotes(text[1..]);
      assert text == [text[0]] + text[1..];
      if IsScreenControl(text[0]) {
        NoQuoteInEscape(text[0]);
      }
    }
  }

  lemma QuotesPass(text: string)
    ensures '"' in MenuText(text) <==> '"' in text
  {
    SafePassesQuotes(text);
    ReplacePasses(SafeText(text), '\\', ['\\', '\\'], '"');
    ReplacePasses(ReplaceChar(SafeText(text), '\\', ['\\', '\\']), '|', ['\\'] + PIPE, '"');
  }

  // ---- the renderer's parameters ------------------------------------------------------------------

  const AS_TEXT: seq<Param> := [Param("symbolize", "false"), Param("emojize", "false")]

  /** What follows the binary of a task row. */
  function FocusParams(id: string): seq<Param> {
    [Param("param1", "focus"), Param("param2", id), Param("terminal", "false")] + AS_TEXT
  }

  function CommandParams(command: string): seq<Param> {
    [Param("param1", command), Param("terminal", "true")]
  }

  lemma SpellCons(p: Param, rest: seq<Param>)
    ensures Spell([p] + rest) == [' '] + (p.key + (['='] + (p.value + Spell(rest))))
  {
    assert ([p] + rest)[1..] == rest;
  }

  /** One more parameter, in the form it is written in. */
  lemma SpellMore(p: Param, rest: seq<Param>, tail: string, whole: string)
    requires Spell(rest) == tail && whole == [' '] + (p.key + (['='] + (p.value + tail)))
    ensures Spell([p] + rest) == whole
  {
    SpellCons(p, rest);
  }

  lemma AsTextSpelled()
    ensures Spell(AS_TEXT) == [' '] + RENDER_AS_TEXT
  {
    var symbolize, emojize := Param("symbolize", "false"), Param("emojize", "false");
    SpellMore(emojize, [], "", " emojize=false");
    SpellMore(symbolize, [emojize] + [], " emojize=false", [' '] + RENDER_AS_TEXT);
    assert [symbolize] + ([emojize] + []) == AS_TEXT;
  }

  lemma TerminalSpelled()
    ensures Spell([Param("terminal", "false")] + AS_TEXT) == " terminal=false " + RENDER_AS_TEXT
  {
    AsTextSpelled();
    var tail := [' '] + RENDER_AS_TEXT;
    assert " terminal=false " + RENDER_AS_TEXT == " terminal=false" + tail;
    assert " terminal=false" + tail == [' '] + ("terminal" + (['='] + ("false" + tail)));
    SpellMore(Param("terminal", "false"), AS_TEXT, tail, " terminal=false " + RENDER_AS_TEXT);
  }

  lemma FocusSpelled(id: string)
    ensures Spell(FocusParams(id)) == " param1=focus param2=" + (id + (" terminal=false " + RENDER_AS_TEXT))
  {
    var p, q, r := Param("param1", "focus"), Param("param2", id), Param("terminal", "false");
    var end := " terminal=false " + RENDER_AS_TEXT;
    TerminalSpelled();
    FocusText(id, end);
    SpellMore(q, [r] + AS_TEXT, end, " param2=" + (id + end));
    SpellMore(p, [q] + ([r] + AS_TEXT), " param2=" + (id + end), " param1=focus param2=" + (id + end));
    assert [p] + ([q] + ([r] + AS_TEXT)) == FocusParams(id);
  }

  lemma FocusText(id: string, end: string)
    ensures " param2=" + (id + end) == [' '] + ("param2" + (['='] + (id + end)))
    ensures " param1=focus param2=" + (id + end) == [' '] + ("param1" + (['='] + ("focus" + (" param2=" + (id + end)))))
  {
    assert " param2=" == [' '] + ("param2" + ['=']);
    assert " param1=focus param2=" == [' '] + ("param1" + (['='] + ("focus" + " param2=")));
  }

  lemma CommandSpelled(command: string)
    ensures Spell(CommandParams(command)) == " param1=" + (command + " terminal=true")
  {
    var p, q := Param("param1", command), Param("terminal", "true");
    SpellMore(q, [], "", " terminal=true");
    assert " param1=" == [' '] + ("param1" + ['=']);
    SpellMore(p, [q] + [], " terminal=true", " param1=" + (command + " terminal=true"));
    assert [p] + ([q] + []) == CommandParams(command);
  }

  lemma {:induction false} DigitsAreBare(n: nat)
    ensures ' ' !in NatText(n) && NatText(n)[0] != '"'
  {
  }

  lemma IntIsBare(n: int)
    ensures ' ' !in IntText(n) && IntText(n)[0] != '"'
  {
    DigitsAreBare(if n < 0 then -n else n);
  }

  function One(s: Segment): string {
    if s.Lit? then s.s else MenuText(s.s)
  }

  lemma WrittenCons(s: Segment, rest: seq<Segment>)
    ensures Written([s] + rest) == One(s) + Written(rest)
  {
    assert ([s] + rest)[1..] == rest;
  }

  lemma WrittenOne(s: Segment)
    ensures Written([s]) == One(s)
  {
    WrittenCons(s, []);
    assert [s] + [] == [s] && One(s) + [] == One(s);
  }

  /** ` bash="…"`, closed by the quote that opens the next literal. */
  lemma BashWritten(binary: string, open: string, rest: seq<Segment>, tail: string)
    requires open + Written(rest) == ['"'] + tail
    ensures Written([Lit(" bash=\""), Ext(binary)] + ([Lit(open)] + rest)) == Quoted("bash", MenuText(binary), tail)
  {
    var value := MenuText(binary);
    WrittenCons(Lit(open), rest);
    WrittenCons(Ext(binary), [Lit(open)] + rest);
    WrittenCons(Lit(" bash=\""), [Ext(binary)] + ([Lit(open)] + rest));
    assert [Lit(" bash=\""), Ext(binary)] + ([Lit(open)] + rest) == [Lit(" bash=\"")] + ([Ext(binary)] + ([Lit(open)] + rest));
    BashOpens(value + (['"'] + tail));
  }

  lemma BashOpens(rest: string)
    ensures " bash=\"" + rest == [' '] + ("bash" + (['='] + (['"'] + rest)))
  {
    assert " bash=\"" == [' '] + ("bash" + (['='] + ['"']));
  }

  lemma RowEnd(id: string)
    ensures Written([Lit(id), Lit(" terminal=false "), Lit(RENDER_AS_TEXT)]) == id + (" terminal=false " + RENDER_AS_TEXT)
  {
    WrittenOne(Lit(RENDER_AS_TEXT));
    WrittenCons(Lit(" terminal=false "), [Lit(RENDER_AS_TEXT)]);
    WrittenCons(Lit(id), [Lit(" terminal=false "), Lit(RENDER_AS_TEXT)]);
    assert [Lit(" terminal=false ")] + [Lit(RENDER_AS_TEXT)] == [Lit(" terminal=false "), Lit(RENDER_AS_TEXT)];
    assert [Lit(id)] + [Lit(" terminal=false "), Lit(RENDER_AS_TEXT)] == [Lit(id), Lit(" terminal=false "), Lit(RENDER_AS_TEXT)];
  }

  lemma OpensWith(open: string, word: string, rest: string)
    requires open == ['"'] + word
    ensures open + rest == ['"'] + (word + rest)
  {
  }

  lemma RowWritten(row: Row, binary: string)
    ensures Written(RowLine(row, binary).params.value)
         == Quoted("bash", MenuText(binary), Spell(FocusParams(IntText(row.taskId))))
  {
    var id := IntText(row.taskId);
    var rest := [Lit(id), Lit(" terminal=false "), Lit(RENDER_AS_TEXT)];
    FocusSpelled(id);
    RowEnd(id);
    OpensWith("\" param1=focus param2=", " param1=focus param2=", Written(rest));
    BashWritten(binary, "\" param1=focus param2=", rest, Spell(FocusParams(id)));
    assert RowLine(row, binary).params.value == [Lit(" bash=\""), Ext(binary)] + ([Lit("\" param1=focus param2=")] + rest);
  }

  lemma ActionWritten(name: string, command: string, binary: string)
    ensures Written(ActionLine(name, command, binary).params.value)
         == Quoted("bash", MenuText(binary), Spell(CommandParams(command)))
  {
    var rest := [Lit(command), Lit(" terminal=true")];
    CommandSpelled(command);
    WrittenOne(Lit(" terminal=true"));
    WrittenCons(Lit(command), [Lit(" terminal=true")]);
    assert [Lit(command)] + [Lit(" terminal=true")] == rest;
    OpensWith("\" param1=", " param1=", Written(rest));
    BashWritten(binary, "\" param1=", rest, Spell(CommandParams(command)));
    assert ActionLine(name, command, binary).params.value == [Lit(" bash=\""), Ext(binary)] + ([Lit("\" param1=")] + rest);
  }

  /** The parameters of a command: the binary it runs, then the bare ones. */
  lemma BashParamsRead(binary: string, bare: seq<Param>)
    requires forall p :: p in bare ==> IsBare(p)
    ensures ReadParams(Quoted("bash", MenuText(binary), Spell(bare))) == [Param("bash", MenuText(binary))] + bare
            <==> '"' !in binary
  {
    QuotedIsRead("bash", MenuText(binary), Spell(bare));
    QuotesPass(binary);
    SpelledIsRead(bare);
  }

  /** A task row opens its own task and nothing else, exactly when the binary's path holds no quote. */
  lemma RowParamsRead(row: Row, binary: string)
    ensures var meant := [Param("bash", MenuText(binary))] + FocusParams(IntText(row.taskId));
      ReadParams(Written(RowLine(row, binary).params.value)) == meant <==> '"' !in binary
  {
    RowWritten(row, binary);
    IntIsBare(row.taskId);
    BashParamsRead(binary, FocusParams(IntText(row.taskId)));
  }

  /** Likewise the two commands at the foot of the menu. */
  lemma ActionParamsRead(name: string, command: string, binary: string)
    requires ' ' !in command && '"' !in command
    ensures var meant := [Param("bash", MenuText(binary))] + CommandParams(command);
      ReadParams(Written(ActionLine(name, command, binary).params.value)) == meant <==> '"' !in binary
  {
    ActionWritten(name, command, binary);
    BashParamsRead(binary, CommandParams(command));
  }

  /** A line of somebody else's text and no action carries the two switches, always. */
  lemma NoticeParamsRead(reason: string, model: Model)
    ensures ReadParams(Written(ReasonLine(reason).params.value)) == AS_TEXT
    ensures model.error.Some? ==> StatusLine(model).params == ReasonLine(reason).params
  {
    AsTextSpelled();
    WrittenOne(Lit(RENDER_AS_TEXT));
    WrittenCons(Lit(" "), [Lit(RENDER_AS_TEXT)]);
    assert ReasonLine(reason).params.value == [Lit(" ")] + [Lit(RENDER_AS_TEXT)];
    SpelledIsRead(AS_TEXT);
  }
}

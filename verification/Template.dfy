/** `{placeholder}` substitution in one pass, and the scanner that lists the placeholders. */
module Template {
  import opened Wrappers
  import opened Text

  /** A template: literal text, then a brace span and what follows it. An unbalanced `{` is literal. */
  datatype Stream = End(text: string) | Piece(text: string, key: string, rest: Stream)

  datatype ScanMode = Rendered | Replaced

  type Vars = seq<(string, string)>

  /** The token stream of a template. It reads nothing but the template. */
  function Tokens(t: string): Stream
    decreases |t|
  {
    match SplitAt(t, '{')
    case Absent => End(t)
    case Split(text, after) =>
      match SplitAt(after, '}')
      case Absent => End(t)
      case Split(key, rest) => Piece(text, key, Tokens(rest))
  }

  /** The value of the first variable named `key`. */
  function Lookup(vars: Vars, key: string): Option<string> {
    if |vars| == 0 then None
    else if vars[0].0 == key then Some(vars[0].1)
    else Lookup(vars[1..], key)
  }

  function Braced(key: string): string {
    ['{'] + (key + ['}'])
  }

  /** A known key's value; an unknown placeholder as it was written. */
  function Substitute(key: string, vars: Vars): string {
    match Lookup(vars, key)
    case Some(value) => value
    case None => Braced(key)
  }

  /** The stream with each span substituted on its own. */
  function RenderStream(s: Stream, vars: Vars): string {
    match s
    case End(text) => text
    case Piece(text, key, rest) => text + (Substitute(key, vars) + RenderStream(rest, vars))
  }

  /** The loop: what is rendered so far, and the template that is left. */
  method Render(template: string, vars: Vars) returns (out: string)
    ensures out == RenderStream(Tokens(template), vars)
  {
    out := "";
    var rest := template;
    while SplitAt(rest, '{').Split?
      invariant RenderStream(Tokens(template), vars) == out + RenderStream(Tokens(rest), vars)
      decreases |rest|
    {
      var cut := SplitAt(rest, '{');
      match SplitAt(cut.after, '}') {
        case Absent =>
          return out + rest;
        case Split(key, after) =>
          var piece := cut.before + Substitute(key, vars);
          Assoc(cut.before, Substitute(key, vars), RenderStream(Tokens(after), vars));
          Assoc(out, piece, RenderStream(Tokens(after), vars));
          out := out + piece;
          rest := after;
      }
    }
    out := out + rest;
  }

  // ---- what rendering means ---------------------------------------------------

  /** A closed span in the text: what stands before it, its key, what follows. */
  lemma ClosedSpan(t: string)
    requires SplitAt(t, '{').Split? && SplitAt(SplitAt(t, '{').after, '}').Split?
    ensures var text, after := SplitAt(t, '{').before, SplitAt(t, '{').after;
      t == text + (Braced(SplitAt(after, '}').before) + SplitAt(after, '}').after)
  {
    var after := SplitAt(t, '{').after;
    SplitText(t, '{');
    SplitText(after, '}');
    BracedText(SplitAt(after, '}').before, SplitAt(after, '}').after);
  }

  lemma BracedText(key: string, rest: string)
    ensures ['{'] + (key + (['}'] + rest)) == Braced(key) + rest
  {
  }

  /** With no variables at all, a template renders to itself. */
  lemma {:induction false} RenderNothing(t: string)
    ensures RenderStream(Tokens(t), []) == t
    decreases |t|
  {
    if SplitAt(t, '{').Split? && SplitAt(SplitAt(t, '{').after, '}').Split? {
      ClosedSpan(t);
      RenderNothing(SplitAt(SplitAt(t, '{').after, '}').after);
    }
  }

  predicate IsIdentifier(s: string) {
    && s != []
    && (IsAsciiAlphabetic(s[0]) || s[0] == '_')
    && forall k :: 1 <= k < |s| ==> IsAsciiAlphanumeric(s[k]) || s[k] == '_'
  }

  /** The keys `mode` reports, in order: identifiers for `Rendered`, every key for `Replaced`. */
  function Reported(s: Stream, mode: ScanMode): seq<string> {
    match s
    case End(_) => []
    case Piece(_, key, rest) =>
      (if mode == Replaced || IsIdentifier(key) then [key] else []) + Reported(rest, mode)
  }

  predicate Keyed(vars: Vars) {
    forall k :: 0 <= k < |vars| ==> IsIdentifier(vars[k].0)
  }

  lemma {:induction false} OnlyIdentifiersFound(vars: Vars, key: string)
    requires Keyed(vars)
    ensures Lookup(vars, key).Some? ==> IsIdentifier(key)
  {
    if |vars| > 0 {
      assert IsIdentifier(vars[0].0);
      forall k | 0 <= k < |vars| - 1 ensures IsIdentifier(vars[1..][k].0) { assert vars[1..][k] == vars[k + 1]; }
      OnlyIdentifiersFound(vars[1..], key);
    }
  }

  /** What `Rendered` reports is all that can matter: agreeing on it is rendering alike. */
  lemma {:induction false} ReportedNamesDecide(s: Stream, vars1: Vars, vars2: Vars)
    requires Keyed(vars1) && Keyed(vars2)
    requires forall name :: name in Reported(s, Rendered) ==> Lookup(vars1, name) == Lookup(vars2, name)
    ensures RenderStream(s, vars1) == RenderStream(s, vars2)
  {
    match s
    case End(_) =>
    case Piece(_, key, rest) =>
      OnlyIdentifiersFound(vars1, key);
      OnlyIdentifiersFound(vars2, key);
      if IsIdentifier(key) {
        assert Reported(s, Rendered)[0] == key;
      }
      forall name | name in Reported(rest, Rendered) ensures name in Reported(s, Rendered) {}
      ReportedNamesDecide(rest, vars1, vars2);
  }

  // ---- scan -------------------------------------------------------------------

  /** What the scanner collects from the text `t` that is left, `dollar` telling whether a `$` came just before. */
  function ScanFrom(t: string, dollar: bool, mode: ScanMode): seq<string>
    decreases |t|
  {
    if t == [] then []
    else if t[0] == '{' && !(mode == Replaced && dollar) && SplitAt(t[1..], '}').Split? then
      var span := SplitAt(t[1..], '}');
      (if mode == Replaced || IsIdentifier(span.before) then [span.before] else []) + ScanFrom(span.after, false, mode)
    else ScanFrom(t[1..], t[0] == '$', mode)
  }

  /** No brace follows a `$`. */
  predicate NoDollarBrace(t: string, dollar: bool) {
    t != [] ==> !(dollar && t[0] == '{') && NoDollarBrace(t[1..], t[0] == '$')
  }

  lemma {:induction false} NothingCloses(t: string, dollar: bool, mode: ScanMode)
    requires '}' !in t
    ensures ScanFrom(t, dollar, mode) == []
  {
    if t != [] {
      SplitAbsent(t[1..], '}');
      NothingCloses(t[1..], t[0] == '$', mode);
    }
  }

  lemma {:induction false} SkipLiteral(t: string, mode: ScanMode)
    requires t != [] && t[0] != '{'
    ensures Reported(Tokens(t), mode) == Reported(Tokens(t[1..]), mode)
  {
  }

  lemma {:induction false} DollarBraceAfter(t: string, dollar: bool, c: char)
    requires NoDollarBrace(t, dollar) && SplitAt(t, c).Split? && c != '$'
    ensures NoDollarBrace(SplitAt(t, c).after, false)
  {
    if t[0] != c {
      DollarBraceAfter(t[1..], t[0] == '$', c);
    }
  }

  /** The scanner lists the keys of the renderer's own token stream. */
  lemma {:induction false} ScanIsKeys(t: string, dollar: bool, mode: ScanMode)
    requires mode == Replaced ==> NoDollarBrace(t, dollar)
    ensures ScanFrom(t, dollar, mode) == Reported(Tokens(t), mode)
    decreases |t|
  {
    if t == [] {
    } else if t[0] != '{' {
      SkipLiteral(t, mode);
      ScanIsKeys(t[1..], t[0] == '$', mode);
    } else if SplitAt(t[1..], '}').Absent? {
      SplitAbsent(t[1..], '}');
      NothingCloses(t[1..], false, mode);
    } else {
      if mode == Replaced {
        DollarBraceAfter(t[1..], false, '}');
      }
      ScanIsKeys(SplitAt(t[1..], '}').after, false, mode);
    }
  }

  /** The scanner's loop. `rest` is the template from index `i` on. */
  method Scan(template: string, mode: ScanMode) returns (found: seq<string>)
    ensures found == ScanFrom(template, false, mode)
    ensures mode == Rendered || NoDollarBrace(template, false) ==> found == Reported(Tokens(template), mode)
  {
    found := [];
    var rest, dollar := template, false;
    while rest != []
      invariant ScanFrom(template, false, mode) == found + ScanFrom(rest, dollar, mode)
      decreases |rest|
    {
      if rest[0] == '{' && !(mode == Replaced && dollar) {
        match SplitAt(rest[1..], '}') {
          case Split(name, after) =>
            if mode == Replaced || IsIdentifier(name) {
              found := found + [name];
            }
            rest, dollar := after, false;
            continue;
          case Absent =>
        }
      }
      rest, dollar := rest[1..], rest[0] == '$';
    }
    if mode == Rendered || NoDollarBrace(template, false) {
      ScanIsKeys(template, false, mode);
    }
  }

  // ---- swallowed placeholders ---------------------------------------------------

  /** Whether a span the scanner sees in `Replaced` mode contains another `{`. */
  predicate HasSwallowedBrace(t: string) {
    exists name :: name in ScanFrom(t, false, Replaced) && '{' in name
  }

  /** The text `{name}` stands in `t` right after `x`, and `y` follows it. */
  predicate OccursAfter(t: string, x: string, name: string, y: string) {
    t == x + (Braced(name) + y)
  }

  /** The key of the renderer's span whose brace opens at index `p`, if one does. */
  function SpanAt(t: string, p: int): Option<string>
    decreases |t|
  {
    match SplitAt(t, '{')
    case Absent => None
    case Split(text, after) =>
      match SplitAt(after, '}')
      case Absent => None
      case Split(key, rest) =>
        if p == |text| then Some(key) else SpanAt(rest, p - |text| - |key| - 2)
  }

  /** A key that ends in `{name` swallowed a placeholder: the span's `}` was the placeholder's own. */
  ghost predicate EndsInPlaceholder(key: string) {
    exists u: string, name: string :: IsIdentifier(name) && key == u + (['{'] + name)
  }

  /** Some span of the stream swallowed a placeholder. */
  ghost predicate Swallows(s: Stream) {
    s.Piece? && (EndsInPlaceholder(s.key) || Swallows(s.rest))
  }

  ghost predicate EveryPlaceholderIsItsOwnSpan(t: string) {
    forall x, name, y :: OccursAfter(t, x, name, y) && IsIdentifier(name) ==> SpanAt(t, |x|) == Some(name)
  }

  lemma IdentifierHasNoBrace(name: string)
    requires IsIdentifier(name)
    ensures '{' !in name && '}' !in name
  {
  }

  lemma OpeningBrace(x: string, name: string, y: string)
    ensures x + (Braced(name) + y) == x + (['{'] + (name + (['}'] + y)))
  {
    assert Braced(name) + y == ['{'] + (name + (['}'] + y));
  }

  /** An open span with no `}` before the placeholder closes on the placeholder's. */
  lemma SwallowedBy(a: string, name: string, y: string)
    requires IsIdentifier(name) && '}' !in a
    ensures SplitAt(a + (['{'] + (name + (['}'] + y))), '}') == Split(a + (['{'] + name), y)
    ensures EndsInPlaceholder(a + (['{'] + name))
  {
    IdentifierHasNoBrace(name);
    var key := a + (['{'] + name);
    assert a + (['{'] + (name + (['}'] + y))) == key + (['}'] + y);
    SplitFirst(key, '}', y);
  }

  /** An occurrence is its own span unless some key ends in it. */
  lemma {:induction false} OwnSpan(x: string, name: string, y: string)
    requires IsIdentifier(name) && !Swallows(Tokens(x + (Braced(name) + y)))
    ensures SpanAt(x + (Braced(name) + y), |x|) == Some(name)
    decreases |x|
  {
    IdentifierHasNoBrace(name);
    OpeningBrace(x, name, y);
    var tail := ['{'] + (name + (['}'] + y));
    if '{' !in x {
      SplitFirst(x, '{', name + (['}'] + y));
      SplitFirst(name, '}', y);
    } else {
      SplitAbsent(x, '{');
      SplitPrefix(x, '{', tail);
      var b, a := SplitAt(x, '{').before, SplitAt(x, '{').after;
      if '}' !in a {
        SwallowedBy(a, name, y);
        assert false;
      } else {
        SplitAbsent(a, '}');
        SplitPrefix(a, '}', tail);
        var a' := SplitAt(a, '}').after;
        OpeningBrace(a', name, y);
        OwnSpan(a', name, y);
      }
    }
  }

  /** Where nothing is swallowed, rendering cuts at every placeholder: its value, and each side on its own. */
  lemma {:induction false} PlaceholderReplaced(x: string, name: string, y: string, vars: Vars)
    requires IsIdentifier(name) && !Swallows(Tokens(x + (Braced(name) + y)))
    ensures RenderStream(Tokens(x + (Braced(name) + y)), vars)
         == RenderStream(Tokens(x), vars) + (Substitute(name, vars) + RenderStream(Tokens(y), vars))
    decreases |x|
  {
    IdentifierHasNoBrace(name);
    OpeningBrace(x, name, y);
    var tail := ['{'] + (name + (['}'] + y));
    SplitAbsent(x, '{');
    if '{' !in x {
      SplitFirst(x, '{', name + (['}'] + y));
      SplitFirst(name, '}', y);
    } else {
      SplitPrefix(x, '{', tail);
      var b, a := SplitAt(x, '{').before, SplitAt(x, '{').after;
      SplitAbsent(a, '}');
      if '}' !in a {
        SwallowedBy(a, name, y);
        assert false;
      } else {
        SplitPrefix(a, '}', tail);
        var k, a' := SplitAt(a, '}').before, SplitAt(a, '}').after;
        OpeningBrace(a', name, y);
        PlaceholderReplaced(a', name, y, vars);
        var rest := Substitute(name, vars) + RenderStream(Tokens(y), vars);
        Assoc(Substitute(k, vars), RenderStream(Tokens(a'), vars), rest);
        Assoc(b, Substitute(k, vars) + RenderStream(Tokens(a'), vars), rest);
      }
    }
  }

  /** A key that ends in a placeholder hides that placeholder's occurrence. */
  lemma {:induction false} SwallowedOccurrence(t: string) returns (x: string, name: string, y: string)
    requires Swallows(Tokens(t))
    ensures OccursAfter(t, x, name, y) && IsIdentifier(name) && SpanAt(t, |x|) == None
    decreases |t|
  {
    ClosedSpan(t);
    var text := SplitAt(t, '{').before;
    var key, rest := SplitAt(SplitAt(t, '{').after, '}').before, SplitAt(SplitAt(t, '{').after, '}').after;
    if EndsInPlaceholder(key) {
      var u: string, n: string :| IsIdentifier(n) && key == u + (['{'] + n);
      x, name, y := text + (['{'] + u), n, rest;
      NestedSpan(text, u, name, rest);
      NoSpanBehind(rest, |x| - |text| - |key| - 2);
    } else {
      var x': string;
      x', name, y := SwallowedOccurrence(rest);
      x := text + (Braced(key) + x');
      Assoc(Braced(key), x', Braced(name) + y);
      Assoc(text, Braced(key) + x', Braced(name) + y);
    }
  }

  lemma NestedSpan(text: string, u: string, name: string, rest: string)
    ensures text + (Braced(u + (['{'] + name)) + rest) == text + (['{'] + u) + (Braced(name) + rest)
  {
    assert Braced(u + (['{'] + name)) == ['{'] + u + Braced(name);
    Assoc(['{'] + u, Braced(name), rest);
    Assoc(text, ['{'] + u, Braced(name) + rest);
  }

  lemma {:induction false} NoSpanBehind(t: string, p: int)
    requires p < 0
    ensures SpanAt(t, p) == None
    decreases |t|
  {
    if SplitAt(t, '{').Split? && SplitAt(SplitAt(t, '{').after, '}').Split? {
      var text, after := SplitAt(t, '{').before, SplitAt(t, '{').after;
      NoSpanBehind(SplitAt(after, '}').after, p - |text| - |SplitAt(after, '}').before| - 2);
    }
  }

  /** Exactly when no placeholder is swallowed: when no key of the stream ends in one. */
  lemma PlaceholdersOwnTheirSpans(t: string)
    ensures EveryPlaceholderIsItsOwnSpan(t) <==> !Swallows(Tokens(t))
  {
    if !Swallows(Tokens(t)) {
      forall x, name, y | OccursAfter(t, x, name, y) && IsIdentifier(name) ensures SpanAt(t, |x|) == Some(name) {
        OwnSpan(x, name, y);
      }
    } else {
      var x, name, y := SwallowedOccurrence(t);
    }
  }

  /** Some span of the renderer that opens right after a `$` swallowed a placeholder. */
  ghost predicate DollarSwallows(t: string, dollar: bool)
    decreases |t|
  {
    t != [] &&
    if t[0] == '{' && SplitAt(t[1..], '}').Split? then
      var span := SplitAt(t[1..], '}');
      (dollar && EndsInPlaceholder(span.before)) || DollarSwallows(span.after, false)
    else DollarSwallows(t[1..], t[0] == '$')
  }

  /** However the scanner enters a span, it is back in step with the renderer after the first `}`. */
  lemma {:induction false} BackInStep(t: string, dollar: bool, name: string)
    requires SplitAt(t, '}').Split? && name in ScanFrom(SplitAt(t, '}').after, false, Replaced)
    ensures name in ScanFrom(t, dollar, Replaced)
  {
    if t[0] != '}' && !(t[0] == '{' && !dollar) {
      BackInStep(t[1..], t[0] == '$', name);
    }
  }

  lemma {:induction false} NoSpanNoSwallow(t: string, dollar: bool)
    requires '}' !in t
    ensures !DollarSwallows(t, dollar)
  {
    if t != [] {
      SplitAbsent(t[1..], '}');
      NoSpanNoSwallow(t[1..], t[0] == '$');
    }
  }

  lemma SwallowingHasBrace(key: string)
    ensures EndsInPlaceholder(key) ==> '{' in key
  {
    if EndsInPlaceholder(key) {
      var u: string, name: string :| IsIdentifier(name) && key == u + (['{'] + name);
      assert key[|u|] == '{';
    }
  }

  /** Where the advisory is silent, a span that swallows is one it did not look at: one behind a `$`. */
  lemma {:induction false} OnlyDollarsSwallow(t: string, dollar: bool)
    requires forall name :: name in ScanFrom(t, dollar, Replaced) ==> '{' !in name
    ensures Swallows(Tokens(t)) <==> DollarSwallows(t, dollar)
    decreases |t|
  {
    if t == [] {
    } else if t[0] != '{' {
      OnlyDollarsSwallow(t[1..], t[0] == '$');
    } else if SplitAt(t[1..], '}').Absent? {
      SplitAbsent(t[1..], '}');
      NoSpanNoSwallow(t[1..], false);
    } else {
      var span := SplitAt(t[1..], '}');
      forall name | name in ScanFrom(span.after, false, Replaced) ensures '{' !in name {
        if dollar {
          BackInStep(t[1..], false, name);
        }
      }
      if !dollar {
        assert ScanFrom(t, dollar, Replaced)[0] == span.before;
        SwallowingHasBrace(span.before);
      }
      OnlyDollarsSwallow(span.after, false);
    }
  }

  /** What the advisory's silence means exactly: every placeholder is its own span, unless one behind a `$` swallows. */
  lemma AdvisoryIsExact(t: string)
    requires !HasSwallowedBrace(t)
    ensures EveryPlaceholderIsItsOwnSpan(t) <==> !DollarSwallows(t, false)
  {
    OnlyDollarsSwallow(t, false);
    PlaceholdersOwnTheirSpans(t);
  }

  lemma {:induction false} NoDollarNoSwallow(t: string, dollar: bool)
    requires NoDollarBrace(t, dollar)
    ensures !DollarSwallows(t, dollar)
    decreases |t|
  {
    if t != [] {
      if t[0] == '{' && SplitAt(t[1..], '}').Split? {
        DollarBraceAfter(t[1..], false, '}');
        NoDollarNoSwallow(SplitAt(t[1..], '}').after, false);
      } else {
        NoDollarNoSwallow(t[1..], t[0] == '$');
      }
    }
  }

  /** In particular, without `${` the advisory's silence is enough. */
  lemma AdvisoryIsEnough(t: string)
    requires NoDollarBrace(t, false) && !HasSwallowedBrace(t)
    ensures EveryPlaceholderIsItsOwnSpan(t)
  {
    AdvisoryIsExact(t);
    NoDollarNoSwallow(t, false);
  }

  /** Otherwise it may not be: the advisory skips the very brace that swallows for the renderer. */
  lemma AdvisoryMissesDollarBrace()
    ensures !HasSwallowedBrace("${ {x}") && !EveryPlaceholderIsItsOwnSpan("${ {x}")
  {
    ScanSkips();
    assert !HasSwallowedBrace("${ {x}");
    RendererSwallows();
    OnlyDollarsSwallow("${ {x}", false);
    AdvisoryIsExact("${ {x}");
  }

  lemma RendererSwallows()
    ensures Swallows(Tokens("${ {x}"))
  {
    SplitFirst("$", '{', " {x}");
    SplitFirst(" {x", '}', "");
    assert "${ {x}" == "$" + (['{'] + " {x}") && " {x}" == " {x" + (['}'] + "");
    assert Tokens("${ {x}") == Piece("$", " {x", End(""));
    assert IsIdentifier("x") && " {x" == " " + (['{'] + "x");
  }

  lemma ScanSkips()
    ensures ScanFrom("${ {x}", false, Replaced) == ["x"]
  {
    SplitFirst("x", '}', "");
    assert "x" + (['}'] + "") == "x}" && "{x}"[1..] == "x}";
    assert ScanFrom("{x}", false, Replaced) == ["x"];
    assert " {x}"[1..] == "{x}" && "{ {x}"[1..] == " {x}" && "${ {x}"[1..] == "{ {x}";
    assert ScanFrom(" {x}", false, Replaced) == ["x"];
    assert ScanFrom("{ {x}", true, Replaced) == ["x"];
  }

  lemma {:induction false} SpanAtReported(t: string, p: int)
    requires SpanAt(t, p).Some? && IsIdentifier(SpanAt(t, p).value)
    ensures SpanAt(t, p).value in Reported(Tokens(t), Rendered)
    decreases |t|
  {
    var text, after := SplitAt(t, '{').before, SplitAt(t, '{').after;
    var key, rest := SplitAt(after, '}').before, SplitAt(after, '}').after;
    if p == |text| {
      assert Reported(Tokens(t), Rendered)[0] == key;
    } else {
      SpanAtReported(rest, p - |text| - |key| - 2);
    }
  }

  /** Where nothing is swallowed, every placeholder written in the text is reported. */
  lemma EveryPlaceholderReported(t: string, x: string, name: string, y: string)
    requires OccursAfter(t, x, name, y) && IsIdentifier(name) && !Swallows(Tokens(t))
    ensures name in ScanFrom(t, false, Rendered)
  {
    OwnSpan(x, name, y);
    SpanAtReported(t, |x|);
    ScanIsKeys(t, false, Rendered);
  }

  // ---- rendering, spelled out ------------------------------------------------------------

  lemma {:induction false} FirstNamed(vars: Vars, name: string, k: nat)
    requires k < |vars| && vars[k].0 == name && forall j :: 0 <= j < k ==> vars[j].0 != name
    ensures Lookup(vars, name) == Some(vars[k].1)
  {
    if k > 0 {
      assert vars[0].0 != name;
      FirstNamed(vars[1..], name, k - 1);
    }
  }

  lemma {:induction false} NoneNamed(vars: Vars, name: string)
    requires forall j :: 0 <= j < |vars| ==> vars[j].0 != name
    ensures Lookup(vars, name) == None
  {
    if |vars| > 0 {
      NoneNamed(vars[1..], name);
    }
  }

  /** An unswallowed placeholder becomes the value of the first variable of its name, whatever that value holds. */
  lemma ValueReplaces(x: string, name: string, y: string, vars: Vars, k: nat)
    requires IsIdentifier(name) && !Swallows(Tokens(x + (['{'] + (name + ['}']) + y)))
    requires k < |vars| && vars[k].0 == name && forall j :: 0 <= j < k ==> vars[j].0 != name
    ensures RenderStream(Tokens(x + (['{'] + (name + ['}']) + y)), vars)
         == RenderStream(Tokens(x), vars) + (vars[k].1 + RenderStream(Tokens(y), vars))
  {
    PlaceholderReplaced(x, name, y, vars);
    FirstNamed(vars, name, k);
  }

  /** And stays as it was written when no variable has its name. */
  lemma UnknownStays(x: string, name: string, y: string, vars: Vars)
    requires IsIdentifier(name) && !Swallows(Tokens(x + (['{'] + (name + ['}']) + y)))
    requires forall j :: 0 <= j < |vars| ==> vars[j].0 != name
    ensures RenderStream(Tokens(x + (['{'] + (name + ['}']) + y)), vars)
         == RenderStream(Tokens(x), vars) + (['{'] + (name + ['}']) + RenderStream(Tokens(y), vars))
  {
    PlaceholderReplaced(x, name, y, vars);
    NoneNamed(vars, name);
  }

  /** The first span, whatever its key: text before it stays, the key is looked up, the rest renders on its own. */
  lemma FirstSpanRenders(text: string, key: string, rest: string, vars: Vars, k: nat)
    requires '{' !in text && '}' !in key
    requires k < |vars| && vars[k].0 == key && forall j :: 0 <= j < k ==> vars[j].0 != key
    ensures RenderStream(Tokens(text + (['{'] + (key + (['}'] + rest)))), vars)
         == text + (vars[k].1 + RenderStream(Tokens(rest), vars))
  {
    SplitFirst(text, '{', key + (['}'] + rest));
    SplitFirst(key, '}', rest);
    FirstNamed(vars, key, k);
  }

  /** Text with no brace, or with one that nothing closes, renders to itself. */
  lemma NoSpanNoChange(text: string, tail: string, vars: Vars)
    requires '{' !in text && '}' !in tail
    ensures RenderStream(Tokens(text), vars) == text
    ensures RenderStream(Tokens(text + (['{'] + tail)), vars) == text + (['{'] + tail)
  {
    SplitAbsent(text, '{');
    SplitFirst(text, '{', tail);
    SplitAbsent(tail, '}');
  }

  /** An identifier is a letter or an underscore, and then letters, digits and underscores. */
  lemma IdentifiersGrow(s: string, c: char)
    ensures !IsIdentifier([])
    ensures IsIdentifier([c]) <==> c in UPPER || c in LOWER || c == '_'
    ensures s != [] ==> (IsIdentifier(s + [c]) <==> IsIdentifier(s) && (c in UPPER || c in LOWER || c in DIGITS || c == '_'))
  {
    ClassesListed(c);
    if s != [] {
      var t := s + [c];
      assert t[0] == s[0] && t[|s|] == c;
      assert forall k :: 1 <= k < |s| ==> t[k] == s[k];
    }
  }

  lemma {:induction false} DollarBraceFound(t: string, dollar: bool)
    ensures NoDollarBrace(t, dollar) <==>
            && !(dollar && t != [] && t[0] == '{')
            && forall k :: 0 <= k < |t| - 1 ==> !(t[k] == '$' && t[k + 1] == '{')
  {
    if t != [] {
      DollarBraceFound(t[1..], t[0] == '$');
      assert forall k :: 1 <= k < |t| - 1 ==> t[k] == t[1..][k - 1] && t[k + 1] == t[1..][k];
    }
  }
}

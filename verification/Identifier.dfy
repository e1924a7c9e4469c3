/** Byte-budgeted identifiers: sanitize the parts, fit them, append the digest. */
module Identifier {
  import opened Wrappers
  import opened Text

  const HASH_CHARS: nat := 8

  datatype Case = Lower | Preserve

  /** The task behind a name. */
  datatype Core = Core(taskNumber: Option<int>, source: string, sourceTaskId: string, handle: Option<string>)

  /** A separator is one character outside the ASCII alphanumerics, or absent. */
  datatype AnySeparator = NoSep | Sep(c: char)

  type Separator = s: AnySeparator | s.Sep? ==> !IsAsciiAlphanumeric(s.c) witness NoSep

  function SepText(sep: Separator): string {
    if sep.Sep? then [sep.c] else []
  }

  // ---- sanitize -----------------------------------------------------------

  /** `to_ascii_lowercase` under `Lower`, the identity under `Preserve`. */
  function MapCase(c: char, cas: Case): char {
    if cas == Lower && 'A' <= c <= 'Z' then (c as int + 32) as char else c
  }

  function FoldCase(s: string, cas: Case): string {
    seq(|s|, i requires 0 <= i < |s| => MapCase(s[i], cas))
  }

  function RunEnd(s: string): (n: nat)
    ensures n <= |s| && forall k :: 0 <= k < n ==> IsAsciiAlphanumeric(s[k])
    ensures n < |s| ==> !IsAsciiAlphanumeric(s[n])
  {
    FindFrom(s, c => !IsAsciiAlphanumeric(c))
  }

  /** The maximal ASCII-alphanumeric runs of `s`, in order. */
  function Words(s: string): (ws: seq<string>)
    ensures forall w :: w in ws ==> IsWord(w)
  {
    if s == [] then []
    else if !IsAsciiAlphanumeric(s[0]) then Words(s[1..])
    else [s[..RunEnd(s)]] + Words(s[RunEnd(s)..])
  }

  predicate AllAlphanumeric(s: string) {
    forall k :: 0 <= k < |s| ==> IsAsciiAlphanumeric(s[k])
  }

  predicate IsWord(s: string) {
    s != [] && AllAlphanumeric(s)
  }

  function FoldWords(ws: seq<string>, cas: Case): (r: seq<string>)
    ensures |r| == |ws| && forall k :: 0 <= k < |ws| ==> r[k] == FoldCase(ws[k], cas)
  {
    if ws == [] then [] else [FoldCase(ws[0], cas)] + FoldWords(ws[1..], cas)
  }

  /** The runs of `input`, case-mapped, with exactly one separator between two. */
  function Sanitized(input: string, cas: Case, sep: Separator): string {
    Join(FoldWords(Words(input), cas), SepText(sep))
  }

  /** What the flag loop still has to emit for the rest `s` of its input. */
  function Pending(s: string, cas: Case, sep: Separator, pending: bool, empty: bool): string {
    if s == [] then []
    else if IsAsciiAlphanumeric(s[0]) then
      (if pending && !empty then SepText(sep) else []) + [MapCase(s[0], cas)]
      + Pending(s[1..], cas, sep, false, false)
    else Pending(s[1..], cas, sep, true, empty)
  }

  lemma {:induction false} PendingRun(w: string, rest: string, cas: Case, sep: Separator)
    requires IsWord(w)
    ensures Pending(w + rest, cas, sep, false, false) == FoldCase(w, cas) + Pending(rest, cas, sep, false, false)
  {
    assert (w + rest)[1..] == w[1..] + rest;
    assert FoldCase(w, cas) == [MapCase(w[0], cas)] + FoldCase(w[1..], cas);
    if |w| > 1 {
      PendingRun(w[1..], rest, cas, sep);
    } else {
      assert w[1..] + rest == rest;
    }
  }

  /** At an alphanumeric, the flags decide only whether a separator comes first. */
  lemma PendingFlags(s: string, cas: Case, sep: Separator, pending: bool, empty: bool)
    requires s != [] && IsAsciiAlphanumeric(s[0])
    ensures Pending(s, cas, sep, pending, empty)
         == (if pending && !empty then SepText(sep) else []) + Pending(s, cas, sep, false, false)
  {
    var lead := if pending && !empty then SepText(sep) else [];
    var tail := Pending(s[1..], cas, sep, false, false);
    assert Pending(s, cas, sep, pending, empty) == lead + [MapCase(s[0], cas)] + tail;
    assert Pending(s, cas, sep, false, false) == [MapCase(s[0], cas)] + tail;
    Assoc(lead, [MapCase(s[0], cas)], tail);
  }

  /** The separator the loop owes before the runs of `s`, once something is out. */
  function Owed(s: string, sep: Separator): string {
    if Words(s) == [] then [] else SepText(sep)
  }

  lemma SanitizedStep(s: string, cas: Case, sep: Separator)
    requires s != [] && IsAsciiAlphanumeric(s[0])
    ensures var w, rest := s[..RunEnd(s)], s[RunEnd(s)..];
      Sanitized(s, cas, sep) == FoldCase(w, cas) + Owed(rest, sep) + Sanitized(rest, cas, sep)
  {
    var w, rest := s[..RunEnd(s)], s[RunEnd(s)..];
    var ws, tail := FoldWords(Words(s), cas), FoldWords(Words(rest), cas);
    assert Words(s) == [w] + Words(rest);
    assert ws[0] == FoldCase(w, cas) && ws[1..] == tail by {
      assert Words(s)[1..] == Words(rest);
    }
  }

  lemma PendingStep(s: string, cas: Case, sep: Separator)
    requires s != [] && IsAsciiAlphanumeric(s[0])
    requires var rest := s[RunEnd(s)..];
      Pending(rest, cas, sep, false, false) == Owed(rest, sep) + Sanitized(rest, cas, sep)
    ensures Pending(s, cas, sep, false, false) == Sanitized(s, cas, sep) && Words(s) != []
  {
    var w, rest := s[..RunEnd(s)], s[RunEnd(s)..];
    assert s == w + rest;
    PendingRun(w, rest, cas, sep);
    SanitizedStep(s, cas, sep);
    Assoc(FoldCase(w, cas), Owed(rest, sep), Sanitized(rest, cas, sep));
  }

  /** With nothing emitted yet, the loop emits the joined runs; later, it leads them with one separator. */
  lemma {:induction false} PendingIsJoin(s: string, cas: Case, sep: Separator, pending: bool, empty: bool)
    requires pending || empty || s == [] || !IsAsciiAlphanumeric(s[0])
    ensures Pending(s, cas, sep, pending, empty) ==
            (if empty then [] else Owed(s, sep)) + Sanitized(s, cas, sep)
    decreases |s|
  {
    if s == [] {
    } else if !IsAsciiAlphanumeric(s[0]) {
      PendingIsJoin(s[1..], cas, sep, true, empty);
    } else {
      var w, rest := s[..RunEnd(s)], s[RunEnd(s)..];
      PendingFlags(s, cas, sep, pending, empty);
      PendingIsJoin(rest, cas, sep, false, false);
      PendingStep(s, cas, sep);
    }
  }

  /** What the loop emits at an alphanumeric. */
  lemma EmitKeeps(out: string, lead: string, s: string, cas: Case, sep: Separator, pending: bool)
    requires s != [] && IsAsciiAlphanumeric(s[0])
    requires lead == if pending && out != "" then SepText(sep) else []
    ensures out + Pending(s, cas, sep, pending, out == "")
         == (out + lead + [MapCase(s[0], cas)]) + Pending(s[1..], cas, sep, false, false)
  {
    var c, tail := [MapCase(s[0], cas)], Pending(s[1..], cas, sep, false, false);
    assert Pending(s, cas, sep, pending, out == "") == (lead + c) + tail;
    Assoc(out, lead + c, tail);
    Assoc(out, lead, c);
  }

  method EmitLead(sofar: string, owed: bool, sep: Separator) returns (out: string)
    ensures out == sofar + if owed && sofar != "" then SepText(sep) else []
  {
    out := sofar;
    if owed && out != "" && sep.Sep? {
      out := out + [sep.c];
    }
  }

  /** One character: what is out and what is still to come keep making the same text. */
  method Emit(sofar: string, pendingSeparator: bool, c: char, ghost rest: string, cas: Case, sep: Separator)
    returns (out: string, pending: bool)
    requires rest != [] && rest[0] == c
    ensures out + Pending(rest[1..], cas, sep, pending, out == "")
         == sofar + Pending(rest, cas, sep, pendingSeparator, sofar == "")
  {
    if !IsAsciiAlphanumeric(c) {
      return sofar, true;
    }
    out := EmitLead(sofar, pendingSeparator, sep);
    EmitKeeps(sofar, if pendingSeparator && sofar != "" then SepText(sep) else [], rest, cas, sep, pendingSeparator);
    out := out + [MapCase(c, cas)];
    pending := false;
  }

  /** The flag loop, one character at a time. */
  method Sanitize(input: string, cas: Case, sep: Separator) returns (out: string)
    ensures out == Sanitized(input, cas, sep)
  {
    out := "";
    var pendingSeparator := false;
    ghost var rest := input;
    PendingIsJoin(input, cas, sep, false, true);
    for i := 0 to |input|
      invariant rest == input[i..]
      invariant Sanitized(input, cas, sep) == out + Pending(rest, cas, sep, pendingSeparator, out == "")
    {
      out, pendingSeparator := Emit(out, pendingSeparator, input[i], rest, cas, sep);
      rest := rest[1..];
    }
  }

  // ---- what sanitized text looks like ---------------------------------------

  /** Alphanumerics and single separators between them: none leads, trails or doubles. */
  predicate WellSeparated(s: string, sep: Separator) {
    && (forall k :: 0 <= k < |s| ==> IsAsciiAlphanumeric(s[k]) || sep == Sep(s[k]))
    && (s != [] ==> IsAsciiAlphanumeric(s[0]) && IsAsciiAlphanumeric(s[|s| - 1]))
    && (forall k :: 0 <= k < |s| - 1 ==> IsAsciiAlphanumeric(s[k]) || IsAsciiAlphanumeric(s[k + 1]))
  }

  lemma WellSeparatedJoin2(a: string, b: string, sep: Separator)
    requires WellSeparated(a, sep) && WellSeparated(b, sep) && a != [] && b != []
    ensures WellSeparated(a + SepText(sep) + b, sep)
  {
    var s, t := a + SepText(sep) + b, |a| + |SepText(sep)|;
    forall k | 0 <= k < |s| ensures IsAsciiAlphanumeric(s[k]) || sep == Sep(s[k]) {
      assert s[k] == if k < |a| then a[k] else if k < t then SepText(sep)[k - |a|] else b[k - t];
    }
    assert s[0] == a[0] && s[|s| - 1] == b[|b| - 1];
    forall k | 0 <= k < |s| - 1 ensures IsAsciiAlphanumeric(s[k]) || IsAsciiAlphanumeric(s[k + 1]) {
      if k < |a| - 1 {
        assert s[k] == a[k] && s[k + 1] == a[k + 1];
      } else if k == |a| - 1 {
        assert s[k] == a[|a| - 1];
      } else if k == t - 1 {
        assert s[k + 1] == b[0];
      } else {
        assert s[k] == b[k - t] && s[k + 1] == b[k + 1 - t];
      }
    }
  }

  lemma {:induction false} JoinWellSeparated(ws: seq<string>, sep: Separator)
    requires forall w :: w in ws ==> w != [] && WellSeparated(w, sep)
    ensures WellSeparated(Join(ws, SepText(sep)), sep)
    ensures ws != [] ==> Join(ws, SepText(sep)) != []
  {
    if |ws| > 1 {
      forall w | w in ws[1..] ensures w != [] && WellSeparated(w, sep) { assert w in ws; }
      JoinWellSeparated(ws[1..], sep);
      WellSeparatedJoin2(ws[0], Join(ws[1..], SepText(sep)), sep);
    } else if |ws| == 1 {
      assert ws[0] in ws;
    }
  }

  lemma FoldedWordsAreWords(ws: seq<string>, cas: Case)
    requires forall w :: w in ws ==> IsWord(w)
    ensures forall w :: w in FoldWords(ws, cas) ==> IsWord(w)
  {
    forall w | w in FoldWords(ws, cas) ensures IsWord(w) {
      var k :| 0 <= k < |ws| && FoldWords(ws, cas)[k] == w;
      assert ws[k] in ws;
    }
  }

  lemma SanitizedWellSeparated(input: string, cas: Case, sep: Separator)
    ensures WellSeparated(Sanitized(input, cas, sep), sep)
  {
    FoldedWordsAreWords(Words(input), cas);
    forall w | w in FoldWords(Words(input), cas) ensures w != [] && WellSeparated(w, sep) { assert IsWord(w); }
    JoinWellSeparated(FoldWords(Words(input), cas), sep);
  }

  lemma WordsOfWordThen(w: string, x: string)
    requires IsWord(w) && (x == [] || !IsAsciiAlphanumeric(x[0]))
    ensures Words(w + x) == [w] + Words(x)
  {
    var s := w + x;
    assert forall k :: 0 <= k < |w| ==> s[k] == w[k];
    var n := RunEnd(s);
    assert x != [] ==> s[|w|] == x[0];
    assert n == |w|;
    assert s[..|w|] == w && s[|w|..] == x;
  }

  lemma {:induction false} WordsOfJoin(ws: seq<string>, c: char)
    requires !IsAsciiAlphanumeric(c)
    requires forall w :: w in ws ==> IsWord(w)
    ensures Words(Join(ws, [c])) == ws
  {
    if |ws| == 1 {
      assert ws[0] in ws && ws[0] + "" == ws[0];
      WordsOfWordThen(ws[0], "");
    } else if |ws| > 1 {
      assert ws[0] in ws;
      forall w | w in ws[1..] ensures IsWord(w) { assert w in ws; }
      var tail := Join(ws[1..], [c]);
      WordsOfJoin(ws[1..], c);
      assert ws[0] + [c] + tail == ws[0] + ([c] + tail);
      WordsOfWordThen(ws[0], [c] + tail);
      assert ([c] + tail)[1..] == tail;
    }
  }

  lemma FoldWordsTwice(ws: seq<string>, cas: Case)
    ensures FoldWords(FoldWords(ws, cas), cas) == FoldWords(ws, cas)
  {
    forall k | 0 <= k < |ws| ensures FoldWords(FoldWords(ws, cas), cas)[k] == FoldWords(ws, cas)[k] {
      assert FoldCase(FoldCase(ws[k], cas), cas) == FoldCase(ws[k], cas);
    }
  }

  lemma {:induction false} JoinNothing(ws: seq<string>)
    requires forall w :: w in ws ==> IsWord(w)
    ensures AllAlphanumeric(Join(ws, ""))
  {
    if |ws| == 1 {
      assert ws[0] in ws;
    } else if |ws| > 1 {
      assert ws[0] in ws;
      forall w | w in ws[1..] ensures IsWord(w) { assert w in ws; }
      JoinNothing(ws[1..]);
    }
  }

  lemma {:induction false} FoldJoinNothing(ws: seq<string>, cas: Case)
    ensures FoldCase(Join(FoldWords(ws, cas), ""), cas) == Join(FoldWords(ws, cas), "")
  {
    if |ws| >= 1 {
      assert FoldCase(FoldCase(ws[0], cas), cas) == FoldCase(ws[0], cas);
      assert FoldWords(ws, cas)[1..] == FoldWords(ws[1..], cas);
      FoldJoinNothing(ws[1..], cas);
    }
  }

  /** Normalizing a normalized part changes nothing. */
  lemma SanitizeIdempotent(input: string, cas: Case, sep: Separator)
    ensures Sanitized(Sanitized(input, cas, sep), cas, sep) == Sanitized(input, cas, sep)
  {
    var ws := FoldWords(Words(input), cas);
    FoldedWordsAreWords(Words(input), cas);
    if sep.Sep? {
      WordsOfJoin(ws, sep.c);
      FoldWordsTwice(Words(input), cas);
    } else {
      var s := Join(ws, "");
      JoinNothing(ws);
      FoldJoinNothing(Words(input), cas);
      if s != "" {
        assert s + "" == s;
        WordsOfWordThen(s, "");
      }
    }
  }

  // ---- truncate and fit -----------------------------------------------------

  /** The longest prefix of `s` of at most `budget` bytes that ends on a character boundary. */
  function Cut(s: string, budget: nat): string
  {
    if s == [] || CharLen(s[0]) > budget then []
    else [s[0]] + Cut(s[1..], budget - CharLen(s[0]))
  }

  /** `trim_end_matches(sep)`. */
  function TrimEnd(s: string, sep: Separator): string
  {
    if s == [] || sep != Sep(s[|s| - 1]) then s else TrimEnd(s[..|s| - 1], sep)
  }

  lemma {:induction false} TrimEndPrefix(s: string, sep: Separator)
    ensures |TrimEnd(s, sep)| <= |s| && TrimEnd(s, sep) == s[..|TrimEnd(s, sep)|]
    ensures forall k :: |TrimEnd(s, sep)| <= k < |s| ==> sep == Sep(s[k])
  {
    if s != [] && sep == Sep(s[|s| - 1]) {
      TrimEndPrefix(s[..|s| - 1], sep);
    }
  }

  /** `value` cut to `budget` bytes, without the separators the cut exposed. */
  function Truncate(value: string, budget: nat, sep: Separator): string {
    if ByteLen(value) <= budget then value else TrimEnd(Cut(value, budget), sep)
  }

  /** `Cut` is what its comment says: within the budget, and no longer prefix is. */
  lemma {:induction false} CutIsLongest(s: string, budget: nat, n: nat)
    requires n <= |s|
    ensures ByteLen(Cut(s, budget)) <= budget
    ensures n <= |Cut(s, budget)| <==> ByteLen(s[..n]) <= budget
  {
    if s == [] {
    } else if CharLen(s[0]) > budget {
      if n > 0 { assert s[..n][0] == s[0]; }
    } else {
      var m := if n == 0 then 0 else n - 1;
      CutIsLongest(s[1..], budget - CharLen(s[0]), m);
      assert Cut(s, budget)[1..] == Cut(s[1..], budget - CharLen(s[0]));
      if n > 0 {
        assert s[..n][0] == s[0] && s[..n][1..] == s[1..][..m];
      }
    }
  }

  lemma CutWhole(s: string, budget: nat)
    requires ByteLen(s) <= budget
    ensures Cut(s, budget) == s
  {
    assert s[..|s|] == s;
    CutIsLongest(s, budget, |s|);
  }

  /** Once `a` alone overflows, what follows it does not change the cut. */
  lemma {:induction false} CutOverflowing(a: string, b: string, budget: nat)
    requires ByteLen(a) > budget
    ensures Cut(a + b, budget) == Cut(a, budget)
  {
    if CharLen(a[0]) <= budget {
      assert (a + b)[1..] == a[1..] + b;
      CutOverflowing(a[1..], b, budget - CharLen(a[0]));
    }
  }

  lemma {:induction false} CutFitting(a: string, b: string, budget: nat)
    requires ByteLen(a) <= budget
    ensures Cut(a + b, budget) == a + Cut(b, budget - ByteLen(a))
  {
    if a == [] {
      assert a + b == b;
    } else {
      assert (a + b)[1..] == a[1..] + b;
      CutFitting(a[1..], b, budget - CharLen(a[0]));
    }
  }

  lemma {:induction false} TrimEndAppend(a: string, b: string, sep: Separator)
    ensures TrimEnd(a + b, sep) == if TrimEnd(b, sep) == [] then TrimEnd(a, sep) else a + TrimEnd(b, sep)
  {
    if b == [] {
      assert a + b == a;
    } else {
      var i := b[..|b| - 1];
      assert (a + b)[..|a + b| - 1] == a + i;
      TrimEndAppend(a, i, sep);
    }
  }

  /** A part neither starts nor ends with the separator. */
  predicate Clean(s: string, sep: Separator) {
    s != [] ==> sep != Sep(s[0]) && sep != Sep(s[|s| - 1])
  }

  function NonEmpty(parts: seq<string>): seq<string> {
    if parts == [] then []
    else
      var last := parts[|parts| - 1];
      NonEmpty(parts[..|parts| - 1]) + if last == [] then [] else [last]
  }

  /** The non-empty parts with the separator between them. */
  function Joined(parts: seq<string>, sep: Separator): string {
    Join(NonEmpty(parts), SepText(sep))
  }

  /** Join, cut at the last boundary within the budget, drop a trailing separator. */
  function Fitted(parts: seq<string>, budget: Option<nat>, sep: Separator): string {
    if budget.None? then Joined(parts, sep) else TrimEnd(Cut(Joined(parts, sep), budget.value), sep)
  }

  /** What part `i` adds to the join of the parts before it. */
  function Lead(sofar: string, sep: Separator): string {
    if sofar == [] then [] else SepText(sep)
  }

  lemma {:induction false} NonEmptyIsNonEmpty(parts: seq<string>)
    ensures NonEmpty(parts) != [] ==> NonEmpty(parts)[0] != []
  {
    if parts != [] {
      NonEmptyIsNonEmpty(parts[..|parts| - 1]);
    }
  }

  lemma JoinedStep(parts: seq<string>, i: nat, sep: Separator)
    requires i < |parts|
    ensures Joined(parts[..i + 1], sep) ==
            if parts[i] == [] then Joined(parts[..i], sep)
            else Joined(parts[..i], sep) + Lead(Joined(parts[..i], sep), sep) + parts[i]
  {
    assert parts[..i + 1][..i] == parts[..i];
    JoinSnoc(NonEmpty(parts[..i]), parts[i], SepText(sep));
    var ws := NonEmpty(parts[..i]);
    assert NonEmpty(parts[..i + 1]) == if parts[i] == [] then ws else ws + [parts[i]];
    if ws == [] {
      assert parts[i] == [] + [] + parts[i];
    } else {
      NonEmptyIsNonEmpty(parts[..i]);
    }
  }

  lemma {:induction false} JoinedPrefix(parts: seq<string>, i: nat, sep: Separator)
    requires i <= |parts|
    ensures Joined(parts[..i], sep) <= Joined(parts, sep)
    decreases |parts| - i
  {
    if i == |parts| {
      assert parts[..i] == parts;
    } else {
      JoinedStep(parts, i, sep);
      JoinedPrefix(parts, i + 1, sep);
    }
  }

  lemma CleanExtension(out: string, lead: string, part: string, sep: Separator)
    requires Clean(out, sep) && Clean(part, sep) && part != [] && (out == [] ==> lead == [])
    ensures Clean(out + lead + part, sep)
  {
    var s := out + lead + part;
    assert s[|s| - 1] == part[|part| - 1];
    assert s[0] == if out != [] then out[0] else part[0];
  }

  lemma {:induction false} JoinedClean(parts: seq<string>, i: nat, sep: Separator)
    requires i <= |parts| && forall p :: p in parts ==> Clean(p, sep)
    ensures Clean(Joined(parts[..i], sep), sep)
  {
    if i > 0 {
      JoinedClean(parts, i - 1, sep);
      JoinedStep(parts, i - 1, sep);
      var out, part := Joined(parts[..i - 1], sep), parts[i - 1];
      assert part in parts;
      if part != [] {
        CleanExtension(out, Lead(out, sep), part, sep);
      }
    }
  }

  lemma CleanTrim(s: string, sep: Separator)
    requires Clean(s, sep)
    ensures TrimEnd(s, sep) == s
  {
  }

  /** `out` with as much of an overflowing part as there is room for: `left` bytes remain, the separator's included. */
  function Cropped(out: string, lead: string, part: string, left: nat, sep: Separator): string {
    if left < ByteLen(lead) then out else Extended(out, lead, TrimEnd(Cut(part, left - ByteLen(lead)), sep))
  }

  function Extended(out: string, lead: string, piece: string): string {
    if piece == [] then out else out + lead + piece
  }

  lemma LeadHasNoRoom(lead: string, part: string, left: nat)
    requires |lead| <= 1 && left < ByteLen(lead)
    ensures Cut(lead + part, left) == []
  {
    ByteLenChar(lead[0]);
    assert [lead[0]] == lead && (lead + part)[0] == lead[0];
  }

  lemma TrimLead(lead: string, piece: string, sep: Separator)
    requires lead == [] || lead == SepText(sep)
    ensures TrimEnd(lead + piece, sep) == Extended([], lead, TrimEnd(piece, sep))
  {
    TrimEndAppend(lead, piece, sep);
    if lead != [] {
      assert lead[..0] == [];
      assert TrimEnd(lead, sep) == [];
    }
  }

  lemma ExtendedAppend(out: string, lead: string, piece: string)
    ensures (if Extended([], lead, piece) == [] then out else out + Extended([], lead, piece)) == Extended(out, lead, piece)
  {
    if piece != [] {
      Assoc(out, lead, piece);
      assert [] + lead == lead;
    }
  }

  lemma TrimExtension(out: string, lead: string, piece: string, sep: Separator)
    requires Clean(out, sep) && (lead == [] || lead == SepText(sep))
    ensures TrimEnd(out + (lead + piece), sep) == Extended(out, lead, TrimEnd(piece, sep))
  {
    TrimEndAppend(out, lead + piece, sep);
    CleanTrim(out, sep);
    TrimLead(lead, piece, sep);
    ExtendedAppend(out, lead, TrimEnd(piece, sep));
  }

  lemma CutWithRoom(out: string, lead: string, part: string, left: nat, sep: Separator)
    requires Clean(out, sep) && (lead == [] || lead == SepText(sep)) && ByteLen(lead) <= left
    ensures TrimEnd(out + Cut(lead + part, left), sep)
         == Extended(out, lead, TrimEnd(Cut(part, left - ByteLen(lead)), sep))
  {
    CutFitting(lead, part, left);
    TrimExtension(out, lead, Cut(part, left - ByteLen(lead)), sep);
  }

  lemma CutWithoutRoom(out: string, lead: string, part: string, left: nat, sep: Separator)
    requires Clean(out, sep) && |lead| <= 1 && left < ByteLen(lead)
    ensures TrimEnd(out + Cut(lead + part, left), sep) == out
  {
    LeadHasNoRoom(lead, part, left);
    CleanTrim(out, sep);
    assert out + [] == out;
  }

  /** One part against the room left for it, the separator that leads it included. */
  lemma CutPart(out: string, lead: string, part: string, left: nat, sep: Separator)
    requires Clean(out, sep) && (lead == [] || lead == SepText(sep))
    ensures TrimEnd(out + Cut(lead + part, left), sep) == Cropped(out, lead, part, left, sep)
  {
    if left < ByteLen(lead) {
      CutWithoutRoom(out, lead, part, left, sep);
    } else {
      CutWithRoom(out, lead, part, left, sep);
    }
  }

  /** The step that matters: where a part overflows, the incremental cut is the global one. */
  lemma OverflowingPart(parts: seq<string>, i: nat, budget: nat, sep: Separator)
    requires i < |parts| && forall p :: p in parts ==> Clean(p, sep)
    requires parts[i] != []
    requires ByteLen(Joined(parts[..i], sep)) <= budget < ByteLen(Joined(parts[..i + 1], sep))
    ensures Fitted(parts, Some(budget), sep) ==
            var out := Joined(parts[..i], sep);
            TrimEnd(out + Cut(Lead(out, sep) + parts[i], budget - ByteLen(out)), sep)
  {
    var out := Joined(parts[..i], sep);
    var upto, all := Joined(parts[..i + 1], sep), Joined(parts, sep);
    JoinedPrefix(parts, i + 1, sep);
    assert all == upto + all[|upto|..];
    CutOverflowing(upto, all[|upto|..], budget);
    JoinedStep(parts, i, sep);
    Assoc(out, Lead(out, sep), parts[i]);
    CutFitting(out, Lead(out, sep) + parts[i], budget);
  }

  /** A truncated value is strictly shorter. */
  lemma CutShorter(value: string, budget: nat, sep: Separator)
    ensures ByteLen(Truncate(value, budget, sep)) <= budget
    ensures ByteLen(value) > budget ==> ByteLen(Truncate(value, budget, sep)) < ByteLen(value)
  {
    if ByteLen(value) > budget {
      CutIsLongest(value, budget, 0);
      var cut, t := Cut(value, budget), TrimEnd(Cut(value, budget), sep);
      TrimEndPrefix(cut, sep);
      assert cut == t + cut[|t|..];
      ByteLenAppend(t, cut[|t|..]);
    }
  }

  lemma JoinedFits(parts: seq<string>, i: nat, sep: Separator)
    requires i < |parts| && parts[i] != []
    ensures ByteLen(Joined(parts[..i + 1], sep)) ==
            ByteLen(Joined(parts[..i], sep)) + ByteLen(Lead(Joined(parts[..i], sep), sep)) + ByteLen(parts[i])
  {
    var out := Joined(parts[..i], sep);
    JoinedStep(parts, i, sep);
    ByteLenAppend(out + Lead(out, sep), parts[i]);
    ByteLenAppend(out, Lead(out, sep));
  }

  /** What the loop may conclude when part `i` does not fit whole. */
  lemma StopHere(parts: seq<string>, i: nat, out: string, budget: nat, sep: Separator)
    requires i < |parts| && forall p :: p in parts ==> Clean(p, sep)
    requires parts[i] != [] && out == Joined(parts[..i], sep) && ByteLen(out) <= budget
    requires budget < ByteLen(Joined(parts[..i + 1], sep))
    ensures Fitted(parts, Some(budget), sep) == Cropped(out, Lead(out, sep), parts[i], budget - ByteLen(out), sep)
  {
    JoinedClean(parts, i, sep);
    OverflowingPart(parts, i, budget, sep);
    CutPart(out, Lead(out, sep), parts[i], budget - ByteLen(out), sep);
  }

  lemma AllFit(parts: seq<string>, budget: Option<nat>, sep: Separator)
    requires forall p :: p in parts ==> Clean(p, sep)
    requires budget.Some? ==> ByteLen(Joined(parts, sep)) <= budget.value
    ensures Fitted(parts, budget, sep) == Joined(parts, sep)
  {
    if budget.Some? {
      CutWhole(Joined(parts, sep), budget.value);
      assert parts[..|parts|] == parts;
      JoinedClean(parts, |parts|, sep);
    }
  }

  /** The bytes left for a part, after the separator that would lead it. */
  function Room(out: string, part: string, budget: Option<nat>, sep: Separator): int {
    if budget.None? then ByteLen(part) else budget.value - ByteLen(out) - ByteLen(Lead(out, sep))
  }

  /** One turn of the loop: what it makes of `out`, and whether it goes on. */
  predicate Turn(out: string, lead: string, part: string, room: int, sep: Separator, next: string, more: bool) {
    if room < 0 || Truncate(part, room, sep) == [] then next == out && !more
    else next == out + lead + Truncate(part, room, sep) && more == (ByteLen(part) <= room)
  }

  lemma TurnIsRight(parts: seq<string>, i: nat, out: string, budget: Option<nat>, sep: Separator, next: string, more: bool)
    requires i < |parts| && forall p :: p in parts ==> Clean(p, sep)
    requires parts[i] != [] && out == Joined(parts[..i], sep)
    requires budget.Some? ==> ByteLen(out) <= budget.value
    requires Turn(out, Lead(out, sep), parts[i], Room(out, parts[i], budget, sep), sep, next, more)
    ensures if more then next == Joined(parts[..i + 1], sep) && (budget.Some? ==> ByteLen(next) <= budget.value)
            else next == Fitted(parts, budget, sep)
  {
    JoinedStep(parts, i, sep);
    JoinedFits(parts, i, sep);
    if budget.Some? && Room(out, parts[i], budget, sep) < ByteLen(parts[i]) {
      StopHere(parts, i, out, budget.value, sep);
      TurnCrops(out, Lead(out, sep), parts[i], budget.value - ByteLen(out), sep, next, more);
    } else {
      TurnTakesAll(out, Lead(out, sep), parts[i], Room(out, parts[i], budget, sep), sep, next, more);
    }
  }

  lemma TurnCrops(out: string, lead: string, part: string, left: nat, sep: Separator, next: string, more: bool)
    requires left - ByteLen(lead) < ByteLen(part)
    requires Turn(out, lead, part, left - ByteLen(lead), sep, next, more)
    ensures next == Cropped(out, lead, part, left, sep) && !more
  {
  }

  lemma TurnTakesAll(out: string, lead: string, part: string, room: nat, sep: Separator, next: string, more: bool)
    requires part != [] && ByteLen(part) <= room
    requires Turn(out, lead, part, room, sep, next, more)
    ensures next == out + lead + part && more
  {
  }

  method PushPart(sofar: string, part: string, budget: Option<nat>, sepLen: nat, sep: Separator)
    returns (out: string, more: bool)
    requires sepLen == ByteLen(SepText(sep)) && part != ""
    ensures Turn(sofar, Lead(sofar, sep), part, Room(sofar, part, budget, sep), sep, out, more)
  {
    var lead := if sofar == "" then 0 else sepLen;
    assert lead == ByteLen(Lead(sofar, sep));
    var room := ByteLen(part);
    if budget.Some? {
      if budget.value < ByteLen(sofar) + lead {
        return sofar, false;
      }
      room := budget.value - (ByteLen(sofar) + lead);
    }
    assert room == Room(sofar, part, budget, sep);
    var cut := Truncate(part, room, sep);
    CutShorter(part, room, sep);
    if cut == "" {
      return sofar, false;
    }
    out := PushSeparator(sofar, sep);
    out := out + cut;
    more := ByteLen(cut) >= ByteLen(part);
  }

  method PushSeparator(sofar: string, sep: Separator) returns (out: string)
    ensures out == sofar + Lead(sofar, sep)
  {
    out := sofar;
    if out != "" && sep.Sep? {
      out := out + [sep.c];
    }
  }

  /** Join the non-empty `parts`, stopping at `budget` bytes. */
  method Fit(parts: seq<string>, budget: Option<nat>, sepLen: nat, sep: Separator) returns (out: string)
    requires sepLen == ByteLen(SepText(sep))
    requires forall p :: p in parts ==> Clean(p, sep)
    ensures out == Fitted(parts, budget, sep)
  {
    out := "";
    for i := 0 to |parts|
      invariant out == Joined(parts[..i], sep)
      invariant budget.Some? ==> ByteLen(out) <= budget.value
    {
      if parts[i] == "" {
        JoinedStep(parts, i, sep);
        continue;
      }
      ghost var before := out;
      var more: bool;
      out, more := PushPart(out, parts[i], budget, sepLen, sep);
      TurnIsRight(parts, i, before, budget, sep, out, more);
      if !more {
        return;
      }
    }
    assert parts[..|parts|] == parts;
    AllFit(parts, budget, sep);
  }

  // ---- the digest -----------------------------------------------------------

  /** SHA-256, of which only the digest length matters here. */
  type Sha256 = f: seq<Byte> -> seq<Byte> | forall m :: |f(m)| == 32 witness (m: seq<Byte>) => seq(32, _ => 0)

  function Preimage(source: string, id: string): seq<Byte> {
    Utf8(source) + [0] + Utf8(id)
  }

  function HexDigit(n: nat): (c: char)
    requires n < 16
    ensures '0' <= c <= '9' || 'a' <= c <= 'f'
  {
    if n < 10 then ('0' as int + n) as char else ('a' as int + n - 10) as char
  }

  /** The first `HASH_CHARS` lower-case hex characters of the digest. */
  function Hash8(sha: Sha256, source: string, id: string): (h: string)
    ensures |h| == HASH_CHARS && forall k :: 0 <= k < |h| ==> '0' <= h[k] <= '9' || 'a' <= h[k] <= 'f'
  {
    var digest := sha(Preimage(source, id));
    seq(HASH_CHARS, i requires 0 <= i < HASH_CHARS =>
      HexDigit(if i % 2 == 0 then digest[i / 2] / 16 else digest[i / 2] % 16))
  }

  lemma PreimageIsText(source: string, id: string)
    ensures Preimage(source, id) == Utf8(source + [NUL] + id)
  {
    assert Utf8([NUL]) == [0] by { assert [NUL][1..] == []; }
    Utf8Append(source, [NUL]);
    Utf8Append(source + [NUL], id);
  }

  lemma PreimagesAreTexts(source1: string, id1: string, source2: string, id2: string)
    ensures Preimage(source1, id1) == Preimage(source2, id2) <==> source1 + [NUL] + id1 == source2 + [NUL] + id2
  {
    PreimageIsText(source1, id1);
    PreimageIsText(source2, id2);
    if Preimage(source1, id1) == Preimage(source2, id2) {
      Utf8Injective(source1 + [NUL] + id1, source2 + [NUL] + id2);
    }
  }

  /** Whether the longer source is the shorter one, a NUL, and a piece that the shorter one's id starts with. */
  predicate Forges(source1: string, id1: string, source2: string, id2: string) {
    |source1| < |source2| &&
    var mid := source2[|source1| + 1..];
    source2 == source1 + [NUL] + mid && id1 == mid + [NUL] + id2
  }

  lemma SharedText(source1: string, id1: string, source2: string, id2: string)
    requires |source1| < |source2| && source1 + [NUL] + id1 == source2 + [NUL] + id2
    ensures Forges(source1, id1, source2, id2)
  {
    var s, t, n, m := source1 + [NUL] + id1, source2 + [NUL] + id2, |source1|, |source2|;
    assert source1 == s[..n] && source2 == t[..m] && id1 == s[n + 1..] && id2 == t[m + 1..];
    assert s[n] == NUL && t[m] == NUL;
    var mid := source2[n + 1..];
    assert source2 == source1 + [NUL] + mid;
    assert id1 == mid + [NUL] + id2;
  }

  lemma ForgedText(source1: string, id1: string, source2: string, id2: string)
    ensures Forges(source1, id1, source2, id2) ==>
              source1 + [NUL] + id1 == source2 + [NUL] + id2 && source2[|source1|] == NUL
  {
    if Forges(source1, id1, source2, id2) {
      var mid := source2[|source1| + 1..];
      assert source1 + [NUL] + (mid + [NUL] + id2) == source1 + [NUL] + mid + [NUL] + id2;
    }
  }

  /** A NUL inside a source name is the one way to forge another task's preimage. */
  lemma PreimagesMeet(source1: string, id1: string, source2: string, id2: string)
    requires |source1| <= |source2|
    ensures Preimage(source1, id1) == Preimage(source2, id2) <==>
            (source1 == source2 && id1 == id2) || Forges(source1, id1, source2, id2)
  {
    PreimagesAreTexts(source1, id1, source2, id2);
    var s, t := source1 + [NUL] + id1, source2 + [NUL] + id2;
    if s == t {
      if |source1| < |source2| {
        SharedText(source1, id1, source2, id2);
      } else {
        assert source1 == s[..|source1|] && source2 == t[..|source1|];
        assert id1 == s[|source1| + 1..] && id2 == t[|source1| + 1..];
      }
    }
    ForgedText(source1, id1, source2, id2);
  }

  /** So the zero byte keeps two tasks apart, for sources that hold none themselves. */
  lemma PreimageInjective(source1: string, id1: string, source2: string, id2: string)
    requires NUL !in source1 && NUL !in source2
    requires Preimage(source1, id1) == Preimage(source2, id2)
    ensures source1 == source2 && id1 == id2
  {
    if |source1| <= |source2| {
      ForgedText(source1, id1, source2, id2);
      PreimagesMeet(source1, id1, source2, id2);
    } else {
      ForgedText(source2, id2, source1, id1);
      PreimagesMeet(source2, id2, source1, id1);
    }
  }

  /** And with one, some other task shares the preimage. */
  lemma NulForgesPreimage(source: string, mid: string, id: string)
    ensures Preimage(source, mid + [NUL] + id) == Preimage(source + [NUL] + mid, id)
    ensures source != source + [NUL] + mid
  {
    assert (source + [NUL] + mid)[|source| + 1..] == mid;
    PreimagesMeet(source, mid + [NUL] + id, source + [NUL] + mid, id);
  }

  // ---- build ----------------------------------------------------------------

  /** What names the task first in the readable half. */
  function Subject(core: Core): string {
    if core.taskNumber.Some? then IntText(core.taskNumber.value) else core.sourceTaskId
  }

  function Readable(core: Core, cas: Case, sep: Separator): string {
    Sanitized(Subject(core), cas, sep)
  }

  function Parts(core: Core, cas: Case, sep: Separator): seq<string> {
    [Readable(core, cas, sep), if core.handle.Some? then Sanitized(core.handle.value, cas, sep) else ""]
  }

  /** What is left for the readable half: the last separator and the digest are spent first. */
  function Budget(prefix: string, maxLen: Option<nat>, sep: Separator): Option<nat> {
    if maxLen.None? then None
    else
      var spent := ByteLen(prefix) + ByteLen(SepText(sep)) + HASH_CHARS;
      Some(if maxLen.value < spent then 0 else maxLen.value - spent)
  }

  /** The readable half of the name. */
  function ReadableHalf(prefix: string, maxLen: Option<nat>, cas: Case, sep: Separator, core: Core): string {
    Fitted(Parts(core, cas, sep), Budget(prefix, maxLen, sep), sep)
  }

  /** Everything after the prefix. */
  function Tail(half: string, sep: Separator, hash: string): string {
    (if half == "" then "" else half + SepText(sep)) + hash
  }

  function NameTail(sha: Sha256, prefix: string, maxLen: Option<nat>, cas: Case, sep: Separator, core: Core): string {
    Tail(ReadableHalf(prefix, maxLen, cas, sep, core), sep, Hash8(sha, core.source, core.sourceTaskId))
  }

  function Name(sha: Sha256, prefix: string, maxLen: Option<nat>, cas: Case, sep: Separator, core: Core): string {
    prefix + NameTail(sha, prefix, maxLen, cas, sep, core)
  }

  lemma PartsAreSanitized(core: Core, cas: Case, sep: Separator)
    ensures forall p :: p in Parts(core, cas, sep) ==> WellSeparated(p, sep) && Clean(p, sep)
  {
    var ps := Parts(core, cas, sep);
    SanitizedWellSeparated(Subject(core), cas, sep);
    SanitizedWellSeparated(if core.handle.Some? then core.handle.value else "", cas, sep);
    assert WellSeparated(ps[0], sep) && WellSeparated(ps[1], sep);
  }

  /** Sanitize, fit, append the digest. */
  method Build(sha: Sha256, prefix: string, maxLen: Option<nat>, cas: Case, sep: Separator, core: Core)
    returns (out: string)
    ensures out == Name(sha, prefix, maxLen, cas, sep, core)
  {
    var hash := Hash8(sha, core.source, core.sourceTaskId);
    var first := Sanitize(Subject(core), cas, sep);
    var second := "";
    if core.handle.Some? {
      second := Sanitize(core.handle.value, cas, sep);
    }
    var parts := [first, second];
    assert parts == Parts(core, cas, sep);
    PartsAreSanitized(core, cas, sep);
    var sepLen := if sep.Sep? then CharLen(sep.c) else 0;
    assert sepLen == ByteLen(SepText(sep)) by { if sep.Sep? { ByteLenChar(sep.c); } }
    var readable := Fit(parts, Budget(prefix, maxLen, sep), sepLen, sep);
    out := Assemble(prefix, readable, sep, hash);
  }

  method Assemble(prefix: string, readable: string, sep: Separator, hash: string) returns (out: string)
    ensures out == prefix + Tail(readable, sep, hash)
  {
    out := prefix;
    if readable != "" {
      out := out + readable;
      if sep.Sep? {
        out := out + [sep.c];
      }
    }
    var mid := if readable == "" then "" else readable + SepText(sep);
    assert out == prefix + mid;
    out := out + hash;
    Assoc(prefix, mid, hash);
  }

  lemma {:induction false} AsciiByteLen(s: string)
    requires forall k :: 0 <= k < |s| ==> s[k] as int < 0x80
    ensures ByteLen(s) == |s|
  {
    if s != [] {
      AsciiByteLen(s[1..]);
    }
  }

  lemma TailByteLen(half: string, sep: Separator, hash: string)
    ensures ByteLen(Tail(half, sep, hash)) ==
            (if half == "" then 0 else ByteLen(half) + ByteLen(SepText(sep))) + ByteLen(hash)
  {
    ByteLenAppend(if half == "" then "" else half + SepText(sep), hash);
    ByteLenAppend(half, SepText(sep));
  }

  lemma FittedWithin(parts: seq<string>, budget: nat, sep: Separator)
    ensures ByteLen(Fitted(parts, Some(budget), sep)) <= budget
  {
    var cut := Cut(Joined(parts, sep), budget);
    CutIsLongest(Joined(parts, sep), budget, 0);
    TrimEndPrefix(cut, sep);
    var t := TrimEnd(cut, sep);
    assert cut == t + cut[|t|..];
    ByteLenAppend(t, cut[|t|..]);
  }

  /** A limit is met for every task exactly when it leaves room for the prefix and the digest. */
  lemma LimitMet(sha: Sha256, prefix: string, max: nat, cas: Case, sep: Separator, core: Core)
    ensures ByteLen(Name(sha, prefix, Some(max), cas, sep, core)) <= max <==> ByteLen(prefix) + HASH_CHARS <= max
  {
    var hash := Hash8(sha, core.source, core.sourceTaskId);
    var half := ReadableHalf(prefix, Some(max), cas, sep, core);
    AsciiByteLen(hash);
    TailByteLen(half, sep, hash);
    ByteLenAppend(prefix, Tail(half, sep, hash));
    FittedWithin(Parts(core, cas, sep), Budget(prefix, Some(max), sep).value, sep);
    ByteLenEmpty(half);
  }

  lemma JoinedWellSeparated(parts: seq<string>, sep: Separator)
    requires forall p :: p in parts ==> WellSeparated(p, sep)
    ensures WellSeparated(Joined(parts, sep), sep)
  {
    NonEmptyMembers(parts);
    JoinWellSeparated(NonEmpty(parts), sep);
  }

  lemma {:induction false} NonEmptyMembers(parts: seq<string>)
    ensures forall p :: p in NonEmpty(parts) ==> p in parts && p != []
  {
    if parts != [] {
      NonEmptyMembers(parts[..|parts| - 1]);
    }
  }

  lemma TrimmedPrefixWellSeparated(s: string, n: nat, sep: Separator)
    requires WellSeparated(s, sep) && n <= |s|
    ensures WellSeparated(TrimEnd(s[..n], sep), sep)
    ensures |TrimEnd(s[..n], sep)| == if n > 0 && !IsAsciiAlphanumeric(s[n - 1]) then n - 1 else n
  {
    var t := TrimEnd(s[..n], sep);
    TrimEndPrefix(s[..n], sep);
    if n > 0 {
      assert s[..n][..n - 1] == s[..n - 1];
    }
  }

  lemma CutIsPrefix(s: string, budget: nat)
    ensures |Cut(s, budget)| <= |s| && Cut(s, budget) == s[..|Cut(s, budget)|]
  {
  }

  lemma HalfWellSeparated(prefix: string, maxLen: Option<nat>, cas: Case, sep: Separator, core: Core)
    ensures WellSeparated(ReadableHalf(prefix, maxLen, cas, sep, core), sep)
  {
    var parts := Parts(core, cas, sep);
    PartsAreSanitized(core, cas, sep);
    JoinedWellSeparated(parts, sep);
    var all := Joined(parts, sep);
    if maxLen.Some? {
      CutIsPrefix(all, Budget(prefix, maxLen, sep).value);
      TrimmedPrefixWellSeparated(all, |Cut(all, Budget(prefix, maxLen, sep).value)|, sep);
    }
  }

  predicate EndsIn(s: string, suffix: string) {
    |suffix| <= |s| && s[|s| - |suffix|..] == suffix
  }

  lemma EndsInLonger(prefix: string, s: string, suffix: string)
    requires EndsIn(s, suffix)
    ensures EndsIn(prefix + s, suffix)
  {
  }

  lemma TailShape(half: string, sep: Separator, hash: string)
    requires WellSeparated(half, sep) && WellSeparated(hash, sep) && hash != ""
    ensures WellSeparated(Tail(half, sep, hash), sep)
    ensures EndsIn(Tail(half, sep, hash), hash)
  {
    if half != "" {
      WellSeparatedJoin2(half, hash, sep);
    } else {
      assert "" + hash == hash;
    }
  }

  /** After the prefix, separators never lead, trail or double, and the digest closes the name intact. */
  lemma NameShape(sha: Sha256, prefix: string, maxLen: Option<nat>, cas: Case, sep: Separator, core: Core)
    ensures var tail := NameTail(sha, prefix, maxLen, cas, sep, core);
      WellSeparated(tail, sep) && EndsIn(tail, Hash8(sha, core.source, core.sourceTaskId))
  {
    var hash := Hash8(sha, core.source, core.sourceTaskId);
    HalfWellSeparated(prefix, maxLen, cas, sep, core);
    assert WellSeparated(hash, sep);
    TailShape(ReadableHalf(prefix, maxLen, cas, sep, core), sep, hash);
  }

  lemma DigestEnds(sha: Sha256, prefix: string, maxLen: Option<nat>, cas: Case, sep: Separator, core: Core)
    ensures EndsIn(Name(sha, prefix, maxLen, cas, sep, core), Hash8(sha, core.source, core.sourceTaskId))
  {
    NameShape(sha, prefix, maxLen, cas, sep, core);
    EndsInLonger(prefix, NameTail(sha, prefix, maxLen, cas, sep, core), Hash8(sha, core.source, core.sourceTaskId));
  }

  /** A name is of two different tasks only where the shortened digests of two different texts agree. */
  lemma NamesApart(sha: Sha256, name: string, core1: Core, core2: Core)
    requires EndsIn(name, Hash8(sha, core1.source, core1.sourceTaskId))
    requires EndsIn(name, Hash8(sha, core2.source, core2.sourceTaskId))
    requires NUL !in core1.source && NUL !in core2.source
    requires core1.source != core2.source || core1.sourceTaskId != core2.sourceTaskId
    ensures Preimage(core1.source, core1.sourceTaskId) != Preimage(core2.source, core2.sourceTaskId)
    ensures Hash8(sha, core1.source, core1.sourceTaskId) == Hash8(sha, core2.source, core2.sourceTaskId)
  {
    if Preimage(core1.source, core1.sourceTaskId) == Preimage(core2.source, core2.sourceTaskId) {
      PreimageInjective(core1.source, core1.sourceTaskId, core2.source, core2.sourceTaskId);
    }
  }

  /** The cut stops because the next character does not fit. */
  lemma CutStops(s: string, budget: nat)
    requires ByteLen(s) > budget
    ensures var n := |Cut(s, budget)|;
      n < |s| && Cut(s, budget) == s[..n] && ByteLen(s[..n]) + CharLen(s[n]) > budget
  {
    CutIsPrefix(s, budget);
    var n := |Cut(s, budget)|;
    assert s[..|s|] == s;
    CutIsLongest(s, budget, |s|);
    CutIsLongest(s, budget, n + 1);
    assert s[..n + 1] == s[..n] + [s[n]];
    ByteLenAppend(s[..n], [s[n]]);
    ByteLenChar(s[n]);
  }

  lemma TrimCosts(s: string, n: nat, sep: Separator)
    requires WellSeparated(s, sep) && n < |s|
    ensures ByteLen(TrimEnd(s[..n], sep)) + ByteLen(SepText(sep)) + 1 >= ByteLen(s[..n]) + CharLen(s[n])
  {
    TrimmedPrefixWellSeparated(s, n, sep);
    TrimEndPrefix(s[..n], sep);
    var last := if n > 0 && !IsAsciiAlphanumeric(s[n - 1]) then n - 1 else n;
    assert TrimEnd(s[..n], sep) == s[..last];
    if last < n {
      assert s[..n] == s[..last] + [s[last]];
      ByteLenAppend(s[..last], [s[last]]);
      assert SepText(sep) == [s[last]];
    } else if !IsAsciiAlphanumeric(s[n]) {
      assert SepText(sep) == [s[n]];
      ByteLenChar(s[n]);
    }
  }

  /** An overflowing join leaves at most one separator's bytes of the budget unused. */
  lemma BudgetUsed(parts: seq<string>, budget: nat, sep: Separator)
    requires forall p :: p in parts ==> WellSeparated(p, sep)
    requires ByteLen(Joined(parts, sep)) > budget
    ensures ByteLen(Fitted(parts, Some(budget), sep)) + ByteLen(SepText(sep)) >= budget
  {
    var s := Joined(parts, sep);
    JoinedWellSeparated(parts, sep);
    CutStops(s, budget);
    TrimCosts(s, |Cut(s, budget)|, sep);
  }

  /** The first part is never what gets cut while it fits: the handle is. */
  lemma FirstPartSurvives(first: string, second: string, budget: nat, sep: Separator)
    requires Clean(first, sep) && Clean(second, sep)
    requires first != [] && ByteLen(first) <= budget
    ensures first <= Fitted([first, second], Some(budget), sep)
  {
    var parts := [first, second];
    assert Joined(parts[..1], sep) == first by {
      JoinedStep(parts, 0, sep);
      assert Joined(parts[..0], sep) == [];
      assert [] + [] + first == first;
    }
    JoinedPrefix(parts, 1, sep);
    var rest := Joined(parts, sep)[|first|..];
    assert Joined(parts, sep) == first + rest;
    CutFitting(first, rest, budget);
    TrimEndAppend(first, Cut(rest, budget - ByteLen(first)), sep);
    CleanTrim(first, sep);
  }

  // ---- names, spelled out ----------------------------------------------------------------

  /** Lower-casing, letter by letter. */
  lemma CaseByLetter(c: char, k: nat)
    requires k < 26
    ensures MapCase(c, Preserve) == c
    ensures MapCase(UPPER[k], Lower) == LOWER[k]
    ensures c !in UPPER ==> MapCase(c, Lower) == c
  {
    UpperListed(c);
    LetterAt(k);
  }

  /** Two texts as one, a separator between them only where both say something. */
  function Beside(a: string, b: string, sep: Separator): string {
    if a == "" then b else if b == "" then a else a + SepText(sep) + b
  }

  lemma {:induction false} WordsAround(a: string, gap: string, b: string)
    requires gap != [] && forall k :: 0 <= k < |gap| ==> !IsAsciiAlphanumeric(gap[k])
    ensures Words(a + (gap + b)) == Words(a) + Words(b)
    decreases |a|
  {
    var s := a + (gap + b);
    if a == [] {
      assert s == gap + b;
      GapSkipped(gap, b);
      assert [] + Words(b) == Words(b);
    } else if !IsAsciiAlphanumeric(a[0]) {
      assert s[1..] == a[1..] + (gap + b);
      WordsAround(a[1..], gap, b);
    } else {
      var w, rest := a[..RunEnd(a)], a[RunEnd(a)..];
      assert a == w + rest && s == w + (rest + (gap + b));
      assert rest + (gap + b) != [] && !IsAsciiAlphanumeric((rest + (gap + b))[0]);
      WordsOfWordThen(w, rest + (gap + b));
      WordsAround(rest, gap, b);
      WordsOfWordThen(w, rest);
    }
  }

  lemma {:induction false} GapSkipped(gap: string, b: string)
    requires forall k :: 0 <= k < |gap| ==> !IsAsciiAlphanumeric(gap[k])
    ensures Words(gap + b) == Words(b)
  {
    if gap == [] {
      assert gap + b == b;
    } else {
      assert (gap + b)[1..] == gap[1..] + b;
      GapSkipped(gap[1..], b);
    }
  }

  lemma {:induction false} JoinBeside(a: seq<string>, b: seq<string>, sep: Separator)
    requires (forall w :: w in a ==> w != []) && (forall w :: w in b ==> w != [])
    ensures Join(a + b, SepText(sep)) == Beside(Join(a, SepText(sep)), Join(b, SepText(sep)), sep)
  {
    JoinNotEmpty(a, SepText(sep));
    JoinNotEmpty(b, SepText(sep));
    if a == [] {
      assert a + b == b;
    } else if b == [] {
      assert a + b == a;
    } else {
      var first, rest := a[0], a[1..];
      assert a == [first] + rest && a + b == [first] + (rest + b);
      assert forall w :: w in rest ==> w in a;
      JoinBeside(rest, b, sep);
      JoinNotEmpty(rest, SepText(sep));
      if rest == [] {
        assert rest + b == b;
      } else {
        JoinLonger(first, Join(rest, SepText(sep)), SepText(sep), Join(b, SepText(sep)));
      }
    }
  }

  lemma JoinLonger(first: string, rest: string, sep: string, b: string)
    ensures first + sep + (rest + sep + b) == first + sep + rest + sep + b
  {
  }

  lemma JoinNotEmpty(ws: seq<string>, sep: string)
    requires forall w :: w in ws ==> w != []
    ensures Join(ws, sep) == "" <==> ws == []
  {
    if ws != [] {
      assert ws[0] in ws;
    }
  }

  /** A gap of other characters, however long, puts one separator between what its two sides say. */
  lemma SanitizedAround(a: string, gap: string, b: string, cas: Case, sep: Separator)
    requires gap != [] && forall k :: 0 <= k < |gap| ==> !IsAsciiAlphanumeric(gap[k])
    ensures Sanitized(a + (gap + b), cas, sep) == Beside(Sanitized(a, cas, sep), Sanitized(b, cas, sep), sep)
  {
    WordsAround(a, gap, b);
    FoldTwo(Words(a), Words(b), cas);
    FoldedWordsAreWords(Words(a), cas);
    FoldedWordsAreWords(Words(b), cas);
    JoinBeside(FoldWords(Words(a), cas), FoldWords(Words(b), cas), sep);
  }

  lemma {:induction false} FoldTwo(a: seq<string>, b: seq<string>, cas: Case)
    ensures FoldWords(a + b, cas) == FoldWords(a, cas) + FoldWords(b, cas)
  {
    if a == [] {
      assert a + b == b;
    } else {
      assert (a + b)[1..] == a[1..] + b;
      FoldTwo(a[1..], b, cas);
    }
  }

  /** A word is kept, letter by letter. */
  lemma SanitizedWord(w: string, cas: Case, sep: Separator)
    requires w != [] && forall k :: 0 <= k < |w| ==> IsAsciiAlphanumeric(w[k])
    ensures |Sanitized(w, cas, sep)| == |w|
    ensures forall k :: 0 <= k < |w| ==> Sanitized(w, cas, sep)[k] == MapCase(w[k], cas)
  {
    assert w + [] == w;
    WordsOfWordThen(w, []);
    assert Words(w) == [w];
    assert [w][1..] == [];
  }

  /**
   * The whole name in one line: the prefix; the task number, or else the source's id, beside the handle, cut to the
   * bytes that the prefix, one separator and eight digits leave; a separator if anything is left; the digest.
   */
  lemma NameSpelled(sha: Sha256, prefix: string, maxLen: Option<nat>, cas: Case, sep: Separator, core: Core)
    ensures var subject := if core.taskNumber.Some? then IntText(core.taskNumber.value) else core.sourceTaskId;
      var readable := Beside(Sanitized(subject, cas, sep), Sanitized(core.handle.GetOr(""), cas, sep), sep);
      var half := if maxLen.None? then readable
                  else TrimEnd(Cut(readable, Left(maxLen.value, ByteLen(prefix) + ByteLen(SepText(sep)) + 8)), sep);
      Name(sha, prefix, maxLen, cas, sep, core) ==
      prefix + ((if half == "" then "" else half + SepText(sep)) + Hash8(sha, core.source, core.sourceTaskId))
  {
    HalfSpelled(prefix, maxLen, cas, sep, core);
  }

  lemma HalfSpelled(prefix: string, maxLen: Option<nat>, cas: Case, sep: Separator, core: Core)
    ensures var subject := if core.taskNumber.Some? then IntText(core.taskNumber.value) else core.sourceTaskId;
      var readable := Beside(Sanitized(subject, cas, sep), Sanitized(core.handle.GetOr(""), cas, sep), sep);
      ReadableHalf(prefix, maxLen, cas, sep, core) ==
      if maxLen.None? then readable
      else TrimEnd(Cut(readable, Left(maxLen.value, ByteLen(prefix) + ByteLen(SepText(sep)) + 8)), sep)
  {
    JoinedPair(core, cas, sep);
    BudgetSpelled(prefix, maxLen, sep);
  }

  lemma BudgetSpelled(prefix: string, maxLen: Option<nat>, sep: Separator)
    ensures Budget(prefix, maxLen, sep) ==
            if maxLen.None? then None else Some(Left(maxLen.value, ByteLen(prefix) + ByteLen(SepText(sep)) + 8))
  {
  }

  /** Subtraction that stops at zero. */
  function Left(max: nat, spent: nat): nat {
    if max < spent then 0 else max - spent
  }

  lemma JoinedPair(core: Core, cas: Case, sep: Separator)
    ensures var subject := if core.taskNumber.Some? then IntText(core.taskNumber.value) else core.sourceTaskId;
      Joined(Parts(core, cas, sep), sep)
      == Beside(Sanitized(subject, cas, sep), Sanitized(core.handle.GetOr(""), cas, sep), sep)
  {
    var ps := Parts(core, cas, sep);
    NothingSanitized(cas, sep);
    JoinedTwo(ps[0], ps[1], sep);
    assert ps == [ps[0], ps[1]];
  }

  lemma JoinedTwo(a: string, b: string, sep: Separator)
    ensures Joined([a, b], sep) == Beside(a, b, sep)
  {
    assert [a, b][..1] == [a] && [a][..0] == [];
    assert NonEmpty([a]) == if a == [] then [] else [a];
    assert NonEmpty([a, b]) == NonEmpty([a]) + if b == [] then [] else [b];
    assert [a] + [b] == [a, b] && [] + [b] == [b] && [a] + [] == [a];
    assert [a, b][1..] == [b];
    if a != "" && b != "" {
      assert Join([a, b], SepText(sep)) == a + SepText(sep) + Join([b], SepText(sep));
    }
  }

  lemma NothingSanitized(cas: Case, sep: Separator)
    ensures Sanitized("", cas, sep) == ""
  {
  }

  /** Order is priority: where the number, or the id that stands for it, fits, the name starts with it. */
  lemma NumberComesFirst(sha: Sha256, prefix: string, maxLen: Option<nat>, cas: Case, sep: Separator, core: Core)
    requires var subject := if core.taskNumber.Some? then IntText(core.taskNumber.value) else core.sourceTaskId;
      maxLen.Some? ==>
        ByteLen(prefix) + ByteLen(Sanitized(subject, cas, sep)) + ByteLen(SepText(sep)) + 8 <= maxLen.value
    ensures var subject := if core.taskNumber.Some? then IntText(core.taskNumber.value) else core.sourceTaskId;
      prefix + Sanitized(subject, cas, sep) <= Name(sha, prefix, maxLen, cas, sep, core)
  {
    var first, second := Readable(core, cas, sep), Sanitized(core.handle.GetOr(""), cas, sep);
    NothingSanitized(cas, sep);
    var half := ReadableHalf(prefix, maxLen, cas, sep, core);
    assert Parts(core, cas, sep) == [first, second];
    JoinedPair(core, cas, sep);
    PartsAreSanitized(core, cas, sep);
    if first != "" {
      if maxLen.Some? {
        assert first in Parts(core, cas, sep) && second in Parts(core, cas, sep);
        FirstPartSurvives(first, second, Budget(prefix, maxLen, sep).value, sep);
      }
      assert first <= half;
      PrefixOfName(prefix, first, half, sep, Hash8(sha, core.source, core.sourceTaskId));
    } else {
      assert prefix + first == prefix;
    }
  }

  lemma PrefixOfName(prefix: string, first: string, half: string, sep: Separator, hash: string)
    requires first <= half && first != ""
    ensures prefix + first <= prefix + Tail(half, sep, hash)
  {
    assert half == first + half[|first|..];
    assert Tail(half, sep, hash) == half + SepText(sep) + hash;
  }

  const HEX: string := "0123456789abcdef"

  lemma HexDigitListed(n: nat)
    requires n < 16
    ensures HexDigit(n) == HEX[n]
  {
  }

  /** The digest part is the first four bytes, two digits each, the upper half of a byte first. */
  lemma HashSpelled(sha: Sha256, source: string, id: string, i: nat)
    requires i < 4
    ensures var byte := sha(Utf8(source) + [0] + Utf8(id))[i];
      Hash8(sha, source, id)[2 * i] == HEX[byte / 16] && Hash8(sha, source, id)[2 * i + 1] == HEX[byte % 16]
  {
    var byte := sha(Preimage(source, id))[i];
    assert 2 * i / 2 == i && (2 * i + 1) / 2 == i && 2 * i % 2 == 0 && (2 * i + 1) % 2 == 1;
    HexDigitListed(byte / 16);
    HexDigitListed(byte % 16);
  }
}

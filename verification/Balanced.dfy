/** The shortest balanced prefix of a text that starts with a brace. */
module Balanced {
  import opened Wrappers
  import opened Json

  function Prepend(p: string, r: Option<string>): Option<string> {
    match r
    case None => None
    case Some(s) => Some(p + s)
  }

  /** The text up to the `}` that brings `depth` to zero, given where the scan stands. */
  function Close(t: string, depth: nat, inString: bool, escaped: bool): Option<string>
    requires depth > 0
  {
    if t == [] then None
    else
      var c, rest := t[0], t[1..];
      if escaped then Prepend([c], Close(rest, depth, inString, false))
      else if c == '\\' && inString then Prepend([c], Close(rest, depth, inString, true))
      else if c == '"' then Prepend([c], Close(rest, depth, !inString, false))
      else if c == '{' && !inString then Prepend([c], Close(rest, depth + 1, inString, false))
      else if c == '}' && !inString then
        if depth == 1 then Some([c]) else Prepend([c], Close(rest, depth - 1, inString, false))
      else Prepend([c], Close(rest, depth, inString, false))
  }

  /** The block that the brace at the start of `text` opens. */
  function Block(text: string): Option<string>
    requires text != [] && text[0] == '{'
  {
    Prepend(['{'], Close(text[1..], 1, false, false))
  }

  lemma PrependTwice(p: string, q: string, r: Option<string>)
    ensures Prepend(p, Prepend(q, r)) == Prepend(p + q, r)
  {
    if r.Some? {
      assert p + (q + r.value) == p + q + r.value;
    }
  }

  /** The shortest prefix of `text` whose braces balance. The brace it starts with keeps `depth` above zero. */
  method BalancedObject(text: string) returns (found: Option<string>)
    requires text != [] && text[0] == '{'
    ensures found == Block(text)
  {
    var depth: nat, inString, escaped := 0, false, false;
    for i := 0 to |text|
      invariant i == 0 ==> depth == 0 && !inString && !escaped
      invariant i > 0 ==> depth > 0 && Block(text) == Prepend(text[..i], Close(text[i..], depth, inString, escaped))
    {
      var c := text[i];
      assert text[i..][0] == c && text[..1] == ['{'];
      assert text[..i] + [c] == text[..i + 1];
      assert text[i..][1..] == text[i + 1..];
      if escaped {
        escaped := false;
        PrependTwice(text[..i], [c], Close(text[i + 1..], depth, inString, escaped));
        continue;
      }
      if c == '\\' && inString {
        escaped := true;
      } else if c == '"' {
        inString := !inString;
      } else if c == '{' && !inString {
        depth := depth + 1;
      } else if c == '}' && !inString {
        depth := depth - 1;
        if depth == 0 {
          return Some(text[..i + 1]);
        }
      }
      PrependTwice(text[..i], [c], Close(text[i + 1..], depth, inString, escaped));
    }
    return None;
  }

  // ---- printed JSON is balanced -------------------------------------------------

  /** Scanning over `p` outside a string changes nothing but the position. */
  ghost predicate Neutral(p: string, depth: nat)
    requires depth > 0
  {
    forall rest {:trigger Close(p + rest, depth, false, false)} ::
      Close(p + rest, depth, false, false) == Prepend(p, Close(rest, depth, false, false))
  }

  lemma NeutralEmpty(depth: nat)
    requires depth > 0
    ensures Neutral([], depth)
  {
    forall rest: string ensures Close([] + rest, depth, false, false) == Prepend([], Close(rest, depth, false, false)) {
      assert [] + rest == rest;
      if Close(rest, depth, false, false).Some? {
        assert [] + Close(rest, depth, false, false).value == Close(rest, depth, false, false).value;
      }
    }
  }

  lemma NeutralAppend(p: string, q: string, depth: nat)
    requires depth > 0 && Neutral(p, depth) && Neutral(q, depth)
    ensures Neutral(p + q, depth)
  {
    forall rest ensures Close(p + q + rest, depth, false, false) == Prepend(p + q, Close(rest, depth, false, false)) {
      assert p + q + rest == p + (q + rest);
      PrependTwice(p, q, Close(rest, depth, false, false));
    }
  }

  predicate Plain(c: char) {
    c != '"' && c != '{' && c != '}'
  }

  lemma NeutralChar(c: char, depth: nat)
    requires depth > 0 && Plain(c)
    ensures Neutral([c], depth)
  {
    forall rest ensures Close([c] + rest, depth, false, false) == Prepend([c], Close(rest, depth, false, false)) {
      assert ([c] + rest)[1..] == rest;
    }
  }

  lemma {:induction false} NeutralPlain(p: string, depth: nat)
    requires depth > 0 && forall k :: 0 <= k < |p| ==> Plain(p[k])
    ensures Neutral(p, depth)
  {
    if p == [] {
      NeutralEmpty(depth);
    } else {
      NeutralChar(p[0], depth);
      NeutralPlain(p[1..], depth);
      NeutralAppend([p[0]], p[1..], depth);
      assert [p[0]] + p[1..] == p;
    }
  }

  /** Inside a string, scanning over `p` stays inside it. */
  lemma InStringChar(c: char, rest: string, depth: nat)
    requires depth > 0 && c != '"' && c != '\\'
    ensures Close([c] + rest, depth, true, false) == Prepend([c], Close(rest, depth, true, false))
  {
    assert ([c] + rest)[1..] == rest;
  }

  lemma InStringEscape(c: char, rest: string, depth: nat)
    requires depth > 0
    ensures Close(['\\', c] + rest, depth, true, false) == Prepend(['\\', c], Close(rest, depth, true, false))
  {
    assert (['\\', c] + rest)[1..] == [c] + rest && ([c] + rest)[1..] == rest;
    PrependTwice(['\\'], [c], Close(rest, depth, true, false));
    assert ['\\'] + [c] == ['\\', c];
  }

  lemma InStringPiece(p: Piece, rest: string, depth: nat)
    requires depth > 0 && ValidPiece(p)
    ensures Close(PrintPiece(p) + rest, depth, true, false)
         == Prepend(PrintPiece(p), Close(rest, depth, true, false))
  {
    match p
    case Raw(c) => InStringChar(c, rest, depth);
    case Escape(c) => InStringEscape(c, rest, depth);
    case Unicode(a, b, c, d) =>
      var r4 := [d] + rest;
      var r3 := [c] + r4;
      var r2 := [b] + r3;
      assert PrintPiece(p) + rest == ['\\', 'u'] + ([a] + r2);
      InStringEscape('u', [a] + r2, depth);
      InStringChar(a, r2, depth);
      InStringChar(b, r3, depth);
      InStringChar(c, r4, depth);
      InStringChar(d, rest, depth);
      var r := Close(rest, depth, true, false);
      PrependTwice([c], [d], r);
      PrependTwice([b], [c] + [d], r);
      PrependTwice([a], [b] + ([c] + [d]), r);
      PrependTwice(['\\', 'u'], [a] + ([b] + ([c] + [d])), r);
      assert ['\\', 'u'] + ([a] + ([b] + ([c] + [d]))) == PrintPiece(p);
  }

  lemma {:induction false} StringCloses(ps: seq<Piece>, rest: string, depth: nat)
    requires depth > 0 && ValidString(ps)
    ensures Close(PrintPieces(ps) + ['"'] + rest, depth, true, false)
         == Prepend(PrintPieces(ps) + ['"'], Close(rest, depth, false, false))
  {
    if |ps| == 0 {
      assert [] + ['"'] + rest == ['"'] + rest && (['"'] + rest)[1..] == rest;
      assert [] + ['"'] == ['"'];
    } else {
      var tail := PrintPieces(ps[1..]) + ['"'];
      assert PrintPieces(ps) + ['"'] + rest == PrintPiece(ps[0]) + (tail + rest);
      InStringPiece(ps[0], tail + rest, depth);
      StringCloses(ps[1..], rest, depth);
      PrependTwice(PrintPiece(ps[0]), tail, Close(rest, depth, false, false));
      assert PrintPiece(ps[0]) + tail == PrintPieces(ps) + ['"'];
    }
  }

  lemma NeutralString(ps: seq<Piece>, depth: nat)
    requires depth > 0 && ValidString(ps)
    ensures Neutral(PrintString(ps), depth)
  {
    var body := PrintPieces(ps) + ['"'];
    forall rest
      ensures Close(PrintString(ps) + rest, depth, false, false) == Prepend(PrintString(ps), Close(rest, depth, false, false))
    {
      assert PrintString(ps) + rest == ['"'] + (body + rest);
      assert (['"'] + (body + rest))[1..] == body + rest;
      StringCloses(ps, rest, depth);
      PrependTwice(['"'], body, Close(rest, depth, false, false));
    }
  }

  lemma NeutralBraces(body: string, depth: nat)
    requires depth > 0 && Neutral(body, depth + 1)
    ensures Neutral(['{'] + body + ['}'], depth)
  {
    var all := ['{'] + body + ['}'];
    forall rest ensures Close(all + rest, depth, false, false) == Prepend(all, Close(rest, depth, false, false)) {
      var r := Close(rest, depth, false, false);
      assert all + rest == ['{'] + (body + (['}'] + rest));
      assert (['{'] + (body + (['}'] + rest)))[1..] == body + (['}'] + rest);
      assert (['}'] + rest)[1..] == rest;
      PrependTwice(body, ['}'], r);
      PrependTwice(['{'], body + ['}'], r);
      assert ['{'] + (body + ['}']) == all;
    }
  }

  lemma {:induction false} NeutralText(t: Text, depth: nat)
    requires depth > 0 && Valid(t)
    ensures Neutral(Print(t), depth)
  {
    match t
    case Word(w) => NeutralPlain(w, depth);
    case Quoted(ps) => NeutralString(ps, depth);
    case List(open, items) =>
      NeutralChar('[', depth);
      NeutralPlain(open, depth);
      NeutralItems(items, depth);
      NeutralAppend(open, PrintItems(items), depth);
      NeutralAppend(['['], open + PrintItems(items), depth);
      NeutralChar(']', depth);
      NeutralAppend(['['] + (open + PrintItems(items)), [']'], depth);
    case Braces(open, members) =>
      NeutralInside(open, members, depth + 1);
      NeutralBraces(open + PrintMembers(members), depth);
  }

  lemma {:induction false} NeutralInside(open: string, members: Members, depth: nat)
    requires depth > 0 && IsSpace(open) && ValidMembers(members)
    ensures Neutral(open + PrintMembers(members), depth)
    decreases members, 1
  {
    NeutralPlain(open, depth);
    NeutralMembers(members, depth);
    NeutralAppend(open, PrintMembers(members), depth);
  }

  lemma NeutralComma(more: bool, next: string, tail: string, depth: nat)
    requires depth > 0 && IsSpace(next) && Neutral(tail, depth)
    ensures Neutral((if more then [','] + next else []) + tail, depth)
  {
    NeutralEmpty(depth);
    NeutralChar(',', depth);
    NeutralPlain(next, depth);
    NeutralAppend([','], next, depth);
    NeutralAppend(if more then [','] + next else [], tail, depth);
  }

  lemma {:induction false} NeutralItems(xs: Items, depth: nat)
    requires depth > 0 && ValidItems(xs)
    ensures Neutral(PrintItems(xs), depth)
  {
    match xs
    case NoItems => NeutralEmpty(depth);
    case Item(value, after, next, rest) =>
      NeutralText(value, depth);
      NeutralPlain(after, depth);
      NeutralItems(rest, depth);
      NeutralComma(rest.Item?, next, PrintItems(rest), depth);
      var tail := (if rest.Item? then [','] + next else []) + PrintItems(rest);
      NeutralAppend(after, tail, depth);
      NeutralAppend(Print(value), after + tail, depth);
  }

  lemma {:induction false} NeutralMembers(ms: Members, depth: nat)
    requires depth > 0 && ValidMembers(ms)
    ensures Neutral(PrintMembers(ms), depth)
    decreases ms, 0
  {
    match ms
    case NoMembers => NeutralEmpty(depth);
    case Member(key, mid, colon, value, after, next, rest) =>
      NeutralText(value, depth);
      NeutralMembers(rest, depth);
      NeutralComma(rest.Member?, next, PrintMembers(rest), depth);
      var tail := (if rest.Member? then [','] + next else []) + PrintMembers(rest);
      NeutralPlain(after, depth);
      NeutralAppend(after, tail, depth);
      NeutralAppend(Print(value), after + tail, depth);
      NeutralPlain(colon, depth);
      NeutralAppend(colon, Print(value) + (after + tail), depth);
      NeutralChar(':', depth);
      NeutralAppend([':'], colon + (Print(value) + (after + tail)), depth);
      NeutralPlain(mid, depth);
      NeutralAppend(mid, [':'] + (colon + (Print(value) + (after + tail))), depth);
      NeutralString(key, depth);
      NeutralAppend(PrintString(key), mid + ([':'] + (colon + (Print(value) + (after + tail)))), depth);
  }

  /** Every printed object, whatever text follows it, comes back exactly. */
  lemma PrintedObjectFound(open: string, members: Members, rest: string)
    requires Valid(Braces(open, members))
    ensures var text := Print(Braces(open, members));
      text[0] == '{' && Block(text + rest) == Some(text)
  {
    var body := open + PrintMembers(members);
    var text := Print(Braces(open, members));
    NeutralInside(open, members, 1);
    assert (text + rest)[1..] == body + (['}'] + rest);
    assert Close(['}'] + rest, 1, false, false) == Some(['}']);
    assert ['{'] + (body + ['}']) == text;
  }

  /** What is found is a prefix of the text, from its opening brace to a closing one. */
  lemma {:induction false} CloseIsPrefix(t: string, depth: nat, inString: bool, escaped: bool)
    requires depth > 0
    ensures var r := Close(t, depth, inString, escaped);
      r.Some? ==> r.value != [] && r.value[|r.value| - 1] == '}' && |r.value| <= |t| && t[..|r.value|] == r.value
  {
    if t != [] && Close(t, depth, inString, escaped).Some? {
      var c := t[0];
      if escaped {
        CloseIsPrefix(t[1..], depth, inString, false);
      } else if c == '\\' && inString {
        CloseIsPrefix(t[1..], depth, inString, true);
      } else if c == '"' {
        CloseIsPrefix(t[1..], depth, !inString, false);
      } else if c == '{' && !inString {
        CloseIsPrefix(t[1..], depth + 1, inString, false);
      } else if c == '}' && !inString && depth > 1 {
        CloseIsPrefix(t[1..], depth - 1, inString, false);
      } else {
        CloseIsPrefix(t[1..], depth, inString, false);
      }
    }
  }
}

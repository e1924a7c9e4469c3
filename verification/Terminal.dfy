/** Text that a terminal shows and does not obey. */
module Terminal {
  import opened Text

  /** `char::is_control`: C0, DEL and C1. */
  predicate IsControl(c: char) {
    c as int <= 0x1F || 0x7F <= c as int <= 0x9F
  }

  /** Characters that rewrite the screen: the controls, and the bidi overrides and isolates. */
  predicate IsScreenControl(c: char) {
    IsControl(c) || 0x202A <= c as int <= 0x202E || 0x2066 <= c as int <= 0x2069
  }

  function HexText(n: nat): (s: string)
    ensures forall k :: 0 <= k < |s| ==> '0' <= s[k] <= '9' || 'a' <= s[k] <= 'f'
  {
    var digit := if n % 16 < 10 then ('0' as int + n % 16) as char else ('a' as int + n % 16 - 10) as char;
    if n < 16 then [digit] else HexText(n / 16) + [digit]
  }

  /** `char::escape_debug` on a screen control. */
  function EscapeDebug(c: char): string
    requires IsScreenControl(c)
  {
    if c == NUL then ['\\', '0']
    else if c == '\t' then ['\\', 't']
    else if c == '\r' then ['\\', 'r']
    else if c == '\n' then ['\\', 'n']
    else ['\\', 'u', '{'] + (HexText(c as int) + ['}'])
  }

  /** Each screen control in its visible form, everything else as it is. */
  function SafeText(text: string): string {
    if text == [] then []
    else (if IsScreenControl(text[0]) then EscapeDebug(text[0]) else [text[0]]) + SafeText(text[1..])
  }

  predicate Printable(text: string) {
    forall k :: 0 <= k < |text| ==> !IsScreenControl(text[k])
  }

  method Safe(text: string) returns (out: string)
    ensures out == SafeText(text)
  {
    if Printable(text) {
      PrintableStays(text);
      return text;
    }
    out := [];
    for i := 0 to |text|
      invariant SafeText(text) == out + SafeText(text[i..])
    {
      assert text[i..][1..] == text[i + 1..];
      if IsScreenControl(text[i]) {
        Assoc(out, EscapeDebug(text[i]), SafeText(text[i + 1..]));
        out := out + EscapeDebug(text[i]);
      } else {
        Assoc(out, [text[i]], SafeText(text[i + 1..]));
        out := out + [text[i]];
      }
    }
  }

  lemma {:induction false} PrintableStays(text: string)
    requires Printable(text)
    ensures SafeText(text) == text
  {
    if text != [] {
      PrintableStays(text[1..]);
    }
  }

  lemma EscapeIsPrintable(c: char)
    requires IsScreenControl(c)
    ensures Printable(EscapeDebug(c)) && |EscapeDebug(c)| >= 2
  {
    var hex := HexText(c as int);
    var e := EscapeDebug(c);
    if !(c == NUL || c == '\t' || c == '\r' || c == '\n') {
      assert e == ['\\', 'u', '{'] + hex + ['}'];
      forall k | 0 <= k < |e| ensures !IsScreenControl(e[k]) {
        assert 3 <= k < |e| - 1 ==> e[k] == hex[k - 3];
      }
    }
  }

  /** The forms the comment over `safe` names: a line feed, carriage return or tab by letter, the rest by number. */
  predicate DocumentedForm(e: string) {
    || e == ['\\', 'n'] || e == ['\\', 'r'] || e == ['\\', 't']
    || (|e| >= 4 && e[..3] == ['\\', 'u', '{'] && e[|e| - 1] == '}')
  }

  /** Every screen control is spelled in one of them but NUL, which has a letter of its own. */
  lemma DocumentedUnlessNul(c: char)
    requires IsScreenControl(c)
    ensures DocumentedForm(EscapeDebug(c)) <==> c != NUL
  {
    if !(c == NUL || c == '\t' || c == '\r' || c == '\n') {
      var hex := HexText(c as int);
      assert EscapeDebug(c) == ['\\', 'u', '{'] + (hex + ['}']);
      assert (['\\', 'u', '{'] + (hex + ['}']))[..3] == ['\\', 'u', '{'];
    }
  }

  /** NUL itself, beside a tab and an escape. */
  lemma NulIsShort()
    ensures SafeText([NUL]) == ['\\', '0'] && SafeText(['\t']) == ['\\', 't']
    ensures SafeText([0x1B as char]) == ['\\', 'u', '{', '1', 'b', '}']
  {
    assert [NUL][1..] == [] && ['\t'][1..] == [] && [0x1B as char][1..] == [];
    assert HexText(1) == ['1'] && HexText(0x1B) == ['1', 'b'];
  }

  /** Nothing that reaches the terminal is executed by it; nothing disappears either. */
  lemma {:induction false} SafeIsPrintable(text: string)
    ensures Printable(SafeText(text)) && |SafeText(text)| >= |text|
    ensures SafeText(text) == text <==> Printable(text)
  {
    if Printable(text) {
      PrintableStays(text);
    }
    if text != [] {
      SafeIsPrintable(text[1..]);
      if IsScreenControl(text[0]) {
        EscapeIsPrintable(text[0]);
      }
    }
  }

  // ---- by the numbers ------------------------------------------------------------------------

  /** The nine bidirectional overrides and isolates. */
  const BIDI: seq<int> := [0x202A, 0x202B, 0x202C, 0x202D, 0x202E, 0x2066, 0x2067, 0x2068, 0x2069]

  /** Escaped are what is below a blank, what is from DEL to the last C1 control, and those nine. */
  lemma ScreenControlsListed(c: char)
    ensures IsScreenControl(c) <==> c < ' ' || (127 <= c as int && c as int < 160) || c as int in BIDI
  {
    var n := c as int;
    if 0x202A <= n <= 0x202E {
      assert BIDI[n - 0x202A] == n;
    } else if 0x2066 <= n <= 0x2069 {
      assert BIDI[n - 0x2066 + 5] == n;
    }
  }

  function HexValue(s: string): int {
    if s == [] then 0
    else
      var c := s[|s| - 1];
      HexValue(s[..|s| - 1]) * 16 + (if '0' <= c <= '9' then c as int - '0' as int else c as int - 'a' as int + 10)
  }

  lemma {:induction false} HexTextSpells(n: nat)
    ensures HexValue(HexText(n)) == n && (n > 0 ==> HexText(n)[0] != '0') && HexText(n) != []
  {
    var s := HexText(n);
    if n < 16 {
      assert s[..|s| - 1] == [];
    } else {
      HexTextSpells(n / 16);
      assert s[..|s| - 1] == HexText(n / 16);
    }
  }

  /** The escape of a control names it: a letter for four of them, its own code point for the rest. */
  lemma EscapeNames(c: char)
    requires IsScreenControl(c)
    ensures c == '\n' ==> EscapeDebug(c) == ['\\', 'n']
    ensures c == '\r' ==> EscapeDebug(c) == ['\\', 'r']
    ensures c == '\t' ==> EscapeDebug(c) == ['\\', 't']
    ensures c != NUL && c != '\n' && c != '\r' && c != '\t' ==>
              exists hex: string :: EscapeDebug(c) == ['\\', 'u', '{'] + (hex + ['}']) && HexValue(hex) == c as int && hex[0] != '0'
  {
    HexTextSpells(c as int);
    assert c != NUL ==> HexText(c as int)[0] != '0';
  }

  /** Text is escaped character by character. */
  lemma {:induction false} SafeByCharacter(a: string, c: char, b: string)
    ensures SafeText(a + ([c] + b)) == SafeText(a) + ((if IsScreenControl(c) then EscapeDebug(c) else [c]) + SafeText(b))
    ensures SafeText([]) == []
  {
    if a == [] {
      assert a + ([c] + b) == [c] + b && ([c] + b)[1..] == b;
    } else {
      assert (a + ([c] + b))[1..] == a[1..] + ([c] + b);
      SafeByCharacter(a[1..], c, b);
    }
  }
}

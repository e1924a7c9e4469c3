/** Strings as sequences of Unicode scalar values, and their UTF-8 bytes. */
module Text {
  import opened Wrappers

  type Byte = b: int | 0 <= b < 0x100

  const NUL: char := 0 as char

  /** `char::is_ascii_alphabetic`. */
  predicate IsAsciiAlphabetic(c: char) {
    'a' <= c <= 'z' || 'A' <= c <= 'Z'
  }

  /** `char::is_ascii_alphanumeric`. */
  predicate IsAsciiAlphanumeric(c: char) {
    IsAsciiAlphabetic(c) || '0' <= c <= '9'
  }

  /** `char::is_whitespace`: the code points with the property White_Space. */
  predicate IsWhitespace(c: char) {
    var n := c as int;
    || 0x9 <= n <= 0xD || n == 0x20 || n == 0x85 || n == 0xA0 || n == 0x1680
    || 0x2000 <= n <= 0x200A || n == 0x2028 || n == 0x2029 || n == 0x202F || n == 0x205F || n == 0x3000
  }

  /** The UTF-8 encoding of one scalar value. */
  function Utf8Char(c: char): (bytes: seq<Byte>)
    ensures 1 <= |bytes| <= 4
    ensures |bytes| == 1 <==> c as int < 0x80
  {
    var n := c as int;
    if n < 0x80 then [n]
    else if n < 0x800 then [0xC0 + n / 64, 0x80 + n % 64]
    else if n < 0x10000 then [0xE0 + n / 4096, 0x80 + n / 64 % 64, 0x80 + n % 64]
    else [0xF0 + n / 262144, 0x80 + n / 4096 % 64, 0x80 + n / 64 % 64, 0x80 + n % 64]
  }

  function Utf8(s: string): seq<Byte> {
    if s == [] then [] else Utf8Char(s[0]) + Utf8(s[1..])
  }

  /** `char::len_utf8`. */
  function CharLen(c: char): (n: nat)
    ensures 1 <= n <= 4
  {
    if c as int < 0x80 then 1 else if c as int < 0x800 then 2 else if c as int < 0x10000 then 3 else 4
  }

  /** `str::len`: the length in bytes. */
  function ByteLen(s: string): nat {
    if s == [] then 0 else CharLen(s[0]) + ByteLen(s[1..])
  }

  /** `ByteLen` counts the bytes of the encoding. */
  lemma {:induction false} ByteLenIsUtf8Len(s: string)
    ensures ByteLen(s) == |Utf8(s)|
  {
    if s != [] {
      ByteLenIsUtf8Len(s[1..]);
    }
  }

  lemma {:induction false} Utf8Append(a: string, b: string)
    ensures Utf8(a + b) == Utf8(a) + Utf8(b)
  {
    if a == [] {
      assert a + b == b;
    } else {
      assert (a + b)[1..] == a[1..] + b;
      Utf8Append(a[1..], b);
    }
  }

  lemma {:induction false} ByteLenAppend(a: string, b: string)
    ensures ByteLen(a + b) == ByteLen(a) + ByteLen(b)
  {
    if a == [] {
      assert a + b == b;
    } else {
      assert (a + b)[1..] == a[1..] + b;
      ByteLenAppend(a[1..], b);
    }
  }

  lemma ByteLenChar(c: char)
    ensures ByteLen([c]) == CharLen(c)
  {
    assert [c][1..] == [];
  }

  lemma ByteLenEmpty(s: string)
    ensures ByteLen(s) == 0 <==> s == []
  {
  }

  lemma SixBitDigits(n: nat)
    ensures n == n / 64 * 64 + n % 64
    ensures n == n / 4096 * 4096 + n / 64 % 64 * 64 + n % 64
    ensures n == n / 262144 * 262144 + n / 4096 % 64 * 4096 + n / 64 % 64 * 64 + n % 64
  {
    assert n / 64 / 64 == n / 4096;
    assert n / 4096 / 64 == n / 262144;
  }

  /** No encoding is a prefix of another: the first character can be read back. */
  lemma Utf8CharPrefixFree(c: char, x: seq<Byte>, d: char, y: seq<Byte>)
    requires Utf8Char(c) + x == Utf8Char(d) + y
    ensures c == d && x == y
  {
    var bs, m, n := Utf8Char(c) + x, c as int, d as int;
    assert bs[0] == Utf8Char(c)[0] == Utf8Char(d)[0];
    assert |Utf8Char(c)| == |Utf8Char(d)|;
    forall k | 0 <= k < |Utf8Char(c)| ensures Utf8Char(c)[k] == Utf8Char(d)[k] {
      assert bs[k] == Utf8Char(c)[k] == Utf8Char(d)[k];
    }
    SixBitDigits(m);
    SixBitDigits(n);
    var k := |Utf8Char(c)|;
    assert k > 1 ==> Utf8Char(c)[1] == Utf8Char(d)[1];
    assert k > 2 ==> Utf8Char(c)[2] == Utf8Char(d)[2];
    assert k > 3 ==> Utf8Char(c)[3] == Utf8Char(d)[3];
    assert m == n;
    assert x == bs[|Utf8Char(c)|..] == y;
  }

  lemma {:induction false} Utf8Injective(a: string, b: string)
    requires Utf8(a) == Utf8(b)
    ensures a == b
  {
    if a != [] && b != [] {
      Utf8CharPrefixFree(a[0], Utf8(a[1..]), b[0], Utf8(b[1..]));
      Utf8Injective(a[1..], b[1..]);
      assert a == [a[0]] + a[1..] && b == [b[0]] + b[1..];
    }
  }

  lemma Assoc(a: string, b: string, c: string)
    ensures a + (b + c) == a + b + c
  {
  }

  /** `pieces` joined with `sep` between them. */
  function Join(pieces: seq<string>, sep: string): string {
    if |pieces| == 0 then ""
    else if |pieces| == 1 then pieces[0]
    else pieces[0] + sep + Join(pieces[1..], sep)
  }

  lemma {:induction false} JoinSnoc(pieces: seq<string>, last: string, sep: string)
    ensures Join(pieces + [last], sep) ==
            if pieces == [] then last else Join(pieces, sep) + sep + last
  {
    if |pieces| == 0 {
      assert pieces + [last] == [last];
    } else {
      assert (pieces + [last])[1..] == pieces[1..] + [last];
      JoinSnoc(pieces[1..], last, sep);
      if |pieces| == 1 {
        assert pieces[1..] == [];
      }
    }
  }

  /** `str::find(c)`: the first index of a character `stop` accepts, or the length. */
  function FindFrom(s: string, stop: char -> bool): (i: nat)
    ensures i <= |s|
    ensures forall k :: 0 <= k < i ==> !stop(s[k])
    ensures i < |s| ==> stop(s[i])
  {
    if s == [] || stop(s[0]) then 0 else 1 + FindFrom(s[1..], stop)
  }

  /** A text cut at the first occurrence of a character, which is left out. */
  datatype Split = Absent | Split(before: string, after: string)

  /** `str::split_once(c)`: what `find(c)` and the slices around it give. */
  function SplitAt(s: string, c: char): (r: Split)
    ensures r.Split? ==> |r.before| + 1 + |r.after| == |s|
  {
    if s == [] then Absent
    else if s[0] == c then Split([], s[1..])
    else
      match SplitAt(s[1..], c)
      case Absent => Absent
      case Split(before, after) => Split([s[0]] + before, after)
  }

  lemma {:induction false} SplitAbsent(s: string, c: char)
    ensures SplitAt(s, c).Absent? <==> c !in s
  {
    if s != [] {
      SplitAbsent(s[1..], c);
      assert s == [s[0]] + s[1..];
    }
  }

  /** The pieces and the character put back together. */
  lemma {:induction false} SplitText(s: string, c: char)
    requires SplitAt(s, c).Split?
    ensures s == SplitAt(s, c).before + ([c] + SplitAt(s, c).after)
    ensures c !in SplitAt(s, c).before
  {
    if s[0] != c {
      SplitText(s[1..], c);
    }
  }

  lemma {:induction false} SplitFirst(x: string, c: char, y: string)
    requires c !in x
    ensures SplitAt(x + ([c] + y), c) == Split(x, y)
  {
    var s := x + ([c] + y);
    if x != [] {
      assert s[1..] == x[1..] + ([c] + y);
      SplitFirst(x[1..], c, y);
    }
  }

  /** A cut inside a prefix is the cut of the whole. */
  lemma {:induction false} SplitPrefix(x: string, c: char, z: string)
    requires SplitAt(x, c).Split?
    ensures SplitAt(x + z, c) == Split(SplitAt(x, c).before, SplitAt(x, c).after + z)
  {
    assert (x + z)[1..] == x[1..] + z;
    if x[0] != c {
      SplitPrefix(x[1..], c, z);
    }
  }

  /** `haystack` with every `c` replaced  (`str::replace` of one character). */
  function ReplaceChar(haystack: string, c: char, with: string): string {
    if haystack == [] then []
    else (if haystack[0] == c then with else [haystack[0]]) + ReplaceChar(haystack[1..], c, with)
  }

  lemma {:induction false} ReplaceCharAppend(a: string, b: string, c: char, with: string)
    ensures ReplaceChar(a + b, c, with) == ReplaceChar(a, c, with) + ReplaceChar(b, c, with)
  {
    if a == [] {
      assert a + b == b;
    } else {
      assert (a + b)[1..] == a[1..] + b;
      ReplaceCharAppend(a[1..], b, c, with);
    }
  }

  /** Decimal digits of `n`, as `{n}` formats it. */
  function NatText(n: nat): (s: string)
    ensures |s| > 0 && forall k :: 0 <= k < |s| ==> '0' <= s[k] <= '9'
  {
    if n < 10 then [('0' as int + n) as char]
    else NatText(n / 10) + [('0' as int + n % 10) as char]
  }

  function IntText(n: int): string {
    if n < 0 then "-" + NatText(-n) else NatText(n)
  }

  // ---- the character classes, listed ----------------------------------------------------------

  const DIGITS: string := "0123456789"
  const UPPER: string := "ABCDEFGHIJKLMNOPQRSTUVWXYZ"
  const LOWER: string := "abcdefghijklmnopqrstuvwxyz"

  lemma LetterAt(k: nat)
    requires k < 26
    ensures UPPER[k] as int == 'A' as int + k && LOWER[k] as int == 'a' as int + k
  {
  }

  lemma DigitAt(k: nat)
    requires k < 10
    ensures DIGITS[k] as int == '0' as int + k
  {
  }

  lemma UpperListed(c: char)
    ensures c in UPPER <==> 'A' <= c <= 'Z'
  {
    if k :| 0 <= k < |UPPER| && UPPER[k] == c {
      LetterAt(k);
    } else if 'A' <= c <= 'Z' {
      LetterAt(c as int - 'A' as int);
    }
  }

  lemma LowerListed(c: char)
    ensures c in LOWER <==> 'a' <= c <= 'z'
  {
    if k :| 0 <= k < |LOWER| && LOWER[k] == c {
      LetterAt(k);
    } else if 'a' <= c <= 'z' {
      LetterAt(c as int - 'a' as int);
    }
  }

  lemma DigitsListed(c: char)
    ensures c in DIGITS <==> '0' <= c <= '9'
  {
    if k :| 0 <= k < |DIGITS| && DIGITS[k] == c {
      DigitAt(k);
    } else if '0' <= c <= '9' {
      DigitAt(c as int - '0' as int);
    }
  }

  lemma ClassesListed(c: char)
    ensures IsAsciiAlphabetic(c) <==> c in UPPER || c in LOWER
    ensures IsAsciiAlphanumeric(c) <==> c in UPPER || c in LOWER || c in DIGITS
  {
    UpperListed(c);
    LowerListed(c);
    DigitsListed(c);
  }

  /** The 25 code points of Unicode that have the property White_Space. */
  const WHITE_SPACE: seq<int> :=
    [0x9, 0xA, 0xB, 0xC, 0xD, 0x20, 0x85, 0xA0, 0x1680,
     0x2000, 0x2001, 0x2002, 0x2003, 0x2004, 0x2005, 0x2006, 0x2007, 0x2008, 0x2009, 0x200A,
     0x2028, 0x2029, 0x202F, 0x205F, 0x3000]

  lemma WhitespaceListed(c: char)
    ensures IsWhitespace(c) <==> c as int in WHITE_SPACE
  {
    var n := c as int;
    if 0x9 <= n <= 0xD {
      assert WHITE_SPACE[n - 0x9] == n;
    } else if 0x2000 <= n <= 0x200A {
      assert WHITE_SPACE[n - 0x2000 + 9] == n;
    } else {
      assert WHITE_SPACE[5] == 0x20 && WHITE_SPACE[6] == 0x85 && WHITE_SPACE[7] == 0xA0 && WHITE_SPACE[8] == 0x1680;
      assert WHITE_SPACE[20] == 0x2028 && WHITE_SPACE[21] == 0x2029 && WHITE_SPACE[22] == 0x202F;
      assert WHITE_SPACE[23] == 0x205F && WHITE_SPACE[24] == 0x3000;
    }
  }

  /** The number a string of digits spells. */
  function Spelled(s: string): int {
    if s == [] then 0 else Spelled(s[..|s| - 1]) * 10 + (s[|s| - 1] as int - '0' as int)
  }

  lemma {:induction false} NatTextSpells(n: nat)
    ensures Spelled(NatText(n)) == n && (n > 0 ==> NatText(n)[0] != '0')
  {
    var s := NatText(n);
    if n < 10 {
      assert s[..|s| - 1] == [];
    } else {
      NatTextSpells(n / 10);
      assert s[..|s| - 1] == NatText(n / 10);
    }
  }

  lemma IntTextSpells(n: int)
    ensures n >= 0 ==> Spelled(IntText(n)) == n
    ensures n < 0 ==> IntText(n)[0] == '-' && Spelled(IntText(n)[1..]) == -n
  {
    NatTextSpells(if n < 0 then -n else n);
    assert n < 0 ==> IntText(n)[1..] == NatText(-n);
  }

  /** The code point that one to four bytes stand for: the lead byte's own bits, and six of each of the others. */
  function CodePoint(b: seq<int>): int
    requires 1 <= |b| <= 4
  {
    if |b| == 1 then b[0]
    else if |b| == 2 then (b[0] - 0xC0) * 64 + (b[1] - 0x80)
    else if |b| == 3 then (b[0] - 0xE0) * 4096 + (b[1] - 0x80) * 64 + (b[2] - 0x80)
    else (b[0] - 0xF0) * 262144 + (b[1] - 0x80) * 4096 + (b[2] - 0x80) * 64 + (b[3] - 0x80)
  }

  /** The bytes of a character give it back, and as many are used as its code point needs. */
  lemma Utf8CharDecodes(c: char)
    ensures CodePoint(Utf8Char(c)) == c as int
    ensures forall k :: 1 <= k < |Utf8Char(c)| ==> 128 <= Utf8Char(c)[k] < 192
    ensures var n := c as int;
      |Utf8Char(c)| == if n < 128 then 1 else if n < 2048 then 2 else if n < 65536 then 3 else 4
    ensures NUL as int == 0
  {
    SixBitDigits(c as int);
  }
}

/** JSON texts as sections 2 to 7 of RFC 8259 spell them, and parsed JSON values. */
module Json {
  import opened Wrappers

  /** A parsed value. */
  datatype Value =
    | Null
    | Bool(b: bool)
    | Number(n: real)
    | Str(s: string)
    | Array(items: seq<Value>)
    | Object(members: map<string, Value>)
  {
    /** `value[key]`: `null` where there is no such member. */
    function At(key: string): Value {
      if Object? && key in members then members[key] else Null
    }

    function AsStr(): Option<string> {
      if Str? then Some(s) else None
    }

    function AsNumber(): Option<real> {
      if Number? then Some(n) else None
    }
  }

  /** One character of a string as it is written. */
  datatype Piece = Raw(c: char) | Escape(c: char) | Unicode(h1: char, h2: char, h3: char, h4: char)

  /** A text: every choice of white space, escapes and number spelling is kept. */
  datatype Text =
    | Word(word: string)
    | Quoted(pieces: seq<Piece>)
    | List(open: string, items: Items)
    | Braces(open: string, members: Members)

  datatype Items = NoItems | Item(value: Text, after: string, next: string, rest: Items)

  datatype Members =
    | NoMembers
    | Member(key: seq<Piece>, mid: string, colon: string, value: Text, after: string, next: string, rest: Members)

  predicate IsSpace(s: string) {
    forall k :: 0 <= k < |s| ==> s[k] == ' ' || s[k] == '\t' || s[k] == '\n' || s[k] == '\r'
  }

  predicate IsHex(c: char) {
    '0' <= c <= '9' || 'a' <= c <= 'f' || 'A' <= c <= 'F'
  }

  predicate ValidPiece(p: Piece) {
    match p
    case Raw(c) => c as int >= 0x20 && c != '"' && c != '\\'
    case Escape(c) => c == '"' || c == '\\' || c == '/' || c == 'b' || c == 'f' || c == 'n' || c == 'r' || c == 't'
    case Unicode(a, b, c, d) => IsHex(a) && IsHex(b) && IsHex(c) && IsHex(d)
  }

  predicate ValidString(ps: seq<Piece>) {
    forall k :: 0 <= k < |ps| ==> ValidPiece(ps[k])
  }

  /** The literals and the numbers: over-approximated by the characters they are written with. */
  predicate ValidWord(w: string) {
    && w != []
    && forall k :: 0 <= k < |w| ==> 'a' <= w[k] <= 'z' || '0' <= w[k] <= '9'
                                    || w[k] == '-' || w[k] == '+' || w[k] == '.' || w[k] == 'E'
  }

  predicate Valid(t: Text) {
    match t
    case Word(w) => ValidWord(w)
    case Quoted(ps) => ValidString(ps)
    case List(open, items) => IsSpace(open) && ValidItems(items)
    case Braces(open, members) => IsSpace(open) && ValidMembers(members)
  }

  predicate ValidItems(xs: Items) {
    xs.Item? ==> Valid(xs.value) && IsSpace(xs.after) && IsSpace(xs.next) && ValidItems(xs.rest)
  }

  predicate ValidMembers(ms: Members) {
    ms.Member? ==>
      && ValidString(ms.key) && IsSpace(ms.mid) && IsSpace(ms.colon) && Valid(ms.value)
      && IsSpace(ms.after) && IsSpace(ms.next) && ValidMembers(ms.rest)
  }

  function PrintPiece(p: Piece): string {
    match p
    case Raw(c) => [c]
    case Escape(c) => ['\\', c]
    case Unicode(a, b, c, d) => ['\\', 'u', a, b, c, d]
  }

  function PrintPieces(ps: seq<Piece>): string {
    if |ps| == 0 then [] else PrintPiece(ps[0]) + PrintPieces(ps[1..])
  }

  function PrintString(ps: seq<Piece>): string {
    ['"'] + (PrintPieces(ps) + ['"'])
  }

  function Print(t: Text): string {
    match t
    case Word(w) => w
    case Quoted(ps) => PrintString(ps)
    case List(open, items) => ['['] + (open + PrintItems(items)) + [']']
    case Braces(open, members) => ['{'] + (open + PrintMembers(members)) + ['}']
  }

  /** White space may follow a value, and the comma before the next one. */
  function PrintItems(xs: Items): string {
    match xs
    case NoItems => []
    case Item(value, after, next, rest) =>
      Print(value) + (after + ((if rest.Item? then [','] + next else []) + PrintItems(rest)))
  }

  function PrintMembers(ms: Members): string {
    match ms
    case NoMembers => []
    case Member(key, mid, colon, value, after, next, rest) =>
      PrintString(key) + (mid + ([':'] + (colon + (Print(value) + (after
      + ((if rest.Member? then [','] + next else []) + PrintMembers(rest)))))))
  }
}

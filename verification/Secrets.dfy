/** References to externally held secrets, and what resolving one reaches. */
module Secrets {
  import opened Wrappers
  import opened Text

  datatype SecretRef =
    | Keychain(service: string, account: string)
    | OnePassword(uri: string)
    | Command(command: string)
    | Bitwarden(item: string, field: string)
    | Supplied(name: string)

  /** `NoScheme` is a plain or `${ENV}` text; `Malformed` carries a known prefix and a bad body. */
  datatype Parsed = NoScheme | Malformed | Ref(ref: SecretRef)

  const KEYCHAIN := "keychain:"
  const ONEPASSWORD := "op://"
  const COMMAND := "cmd:"
  const BITWARDEN := "bw:"
  const SUPPLIED := "secret:"

  /** `str::strip_prefix`. */
  function StripPrefix(s: string, prefix: string): (r: Option<string>)
    ensures r.Some? <==> prefix <= s
    ensures r.Some? ==> s == prefix + r.value
    ensures prefix != "" && s != "" && s[0] != prefix[0] ==> r.None?
  {
    if prefix <= s then Some(s[|prefix|..]) else None
  }

  lemma StripOwnPrefix(prefix: string, body: string)
    ensures StripPrefix(prefix + body, prefix) == Some(body)
  {
    assert prefix <= prefix + body;
    assert (prefix + body)[|prefix|..] == body;
  }

  /** `str::rsplit_once(c)`: cut at the last occurrence. */
  function RSplitAt(s: string, c: char): Split {
    if s == [] then Absent
    else if s[|s| - 1] == c then Split(s[..|s| - 1], [])
    else
      match RSplitAt(s[..|s| - 1], c)
      case Absent => Absent
      case Split(before, after) => Split(before, after + [s[|s| - 1]])
  }

  lemma {:induction false} RSplitText(s: string, c: char)
    requires RSplitAt(s, c).Split?
    ensures s == RSplitAt(s, c).before + [c] + RSplitAt(s, c).after
    ensures c !in RSplitAt(s, c).after
  {
    if s[|s| - 1] != c {
      var init := s[..|s| - 1];
      RSplitText(init, c);
      assert s == init + [s[|s| - 1]];
    }
  }

  lemma {:induction false} RSplitLast(x: string, c: char, y: string)
    requires c !in y
    ensures RSplitAt(x + [c] + y, c) == Split(x, y)
  {
    var s := x + [c] + y;
    if y == [] {
      assert s == x + [c] && s[..|s| - 1] == x;
    } else {
      var init := y[..|y| - 1];
      assert s[..|s| - 1] == x + [c] + init && s[|s| - 1] == y[|y| - 1];
      RSplitLast(x, c, init);
      assert init + [y[|y| - 1]] == y;
    }
  }

  /** `str::split(c)`. */
  function Segments(s: string, c: char): (r: seq<string>)
    ensures |r| > 0
    decreases |s|
  {
    match SplitAt(s, c)
    case Absent => [s]
    case Split(before, after) => [before] + Segments(after, c)
  }

  /** What a reference that parses looks like, scheme by scheme. */
  ghost predicate WellFormed(r: SecretRef) {
    match r
    case Keychain(service, account) => service != "" && account != "" && '/' !in service
    case OnePassword(uri) => exists body :: uri == ONEPASSWORD + body && NamesField(body)
    case Command(command) => !Blank(command)
    case Bitwarden(item, field) => item != "" && item[0] != '/' && field != "" && '/' !in field
    case Supplied(name) => IsSuppliedName(name)
  }

  /** `vault/item/field…`: a non-empty vault and item, and a field that does not start with a slash. */
  ghost predicate NamesField(body: string) {
    exists vault: string, item: string, field: string ::
      && body == vault + (['/'] + (item + (['/'] + field)))
      && vault != "" && '/' !in vault && item != "" && '/' !in item && field != "" && field[0] != '/'
  }

  lemma NamedField(vault: string, item: string, field: string)
    requires vault != "" && '/' !in vault && item != "" && '/' !in item && field != "" && field[0] != '/'
    ensures NamesField(vault + (['/'] + (item + (['/'] + field))))
  {
  }

  /** `trim().is_empty()`. */
  predicate Blank(s: string) {
    forall k :: 0 <= k < |s| ==> IsWhitespace(s[k])
  }

  predicate IsSuppliedName(name: string) {
    name != "" && forall k :: 0 <= k < |name| ==> IsAsciiAlphanumeric(name[k]) || name[k] in "_.-"
  }

  /** At least three segments, the first three not empty. */
  predicate HasThreeSegments(body: string) {
    var segments := Segments(body, '/');
    |segments| >= 3 && segments[0] != "" && segments[1] != "" && segments[2] != ""
  }

  function ParseKeychain(body: string): Parsed {
    match SplitAt(body, '/')
    case Absent => Malformed
    case Split(service, account) => if service == "" || account == "" then Malformed else Ref(Keychain(service, account))
  }

  function ParseBitwarden(body: string): Parsed {
    if body != "" && body[0] == '/' then Malformed
    else
      match RSplitAt(body, '/')
      case Absent => Malformed
      case Split(item, field) => if item == "" || field == "" then Malformed else Ref(Bitwarden(item, field))
  }

  function ParseScheme(s: string): Parsed {
    var keychain := StripPrefix(s, KEYCHAIN);
    if keychain.Some? then ParseKeychain(keychain.value) else
    var onepassword := StripPrefix(s, ONEPASSWORD);
    if onepassword.Some? then (if HasThreeSegments(onepassword.value) then Ref(OnePassword(s)) else Malformed) else
    var command := StripPrefix(s, COMMAND);
    if command.Some? then (if Blank(command.value) then Malformed else Ref(Command(command.value))) else
    var bitwarden := StripPrefix(s, BITWARDEN);
    if bitwarden.Some? then ParseBitwarden(bitwarden.value) else
    var supplied := StripPrefix(s, SUPPLIED);
    if supplied.Some? then (if IsSuppliedName(supplied.value) then Ref(Supplied(supplied.value)) else Malformed)
    else NoScheme
  }

  /** The textual form of a reference. */
  function Display(r: SecretRef): string {
    match r
    case Keychain(service, account) => KEYCHAIN + (service + (['/'] + account))
    case OnePassword(uri) => uri
    case Command(command) => COMMAND + command
    case Bitwarden(item, field) => BITWARDEN + (item + ['/'] + field)
    case Supplied(name) => SUPPLIED + name
  }

  // ---- the parser and the printer ------------------------------------------------------------

  lemma ThreeSegments(body: string)
    ensures HasThreeSegments(body) <==> NamesField(body)
  {
    if HasThreeSegments(body) {
      var one := SplitAt(body, '/');
      var two := SplitAt(one.after, '/');
      assert Segments(body, '/') == [one.before] + Segments(one.after, '/');
      SplitText(body, '/');
      SplitText(one.after, '/');
      assert Segments(two.after, '/')[0] != "";
      FirstSegment(two.after);
      assert body == one.before + (['/'] + (two.before + (['/'] + two.after)));
    }
    if NamesField(body) {
      var vault: string, item: string, field: string :|
        && body == vault + (['/'] + (item + (['/'] + field)))
        && vault != "" && '/' !in vault && item != "" && '/' !in item && field != "" && field[0] != '/';
      SplitFirst(vault, '/', item + (['/'] + field));
      SplitFirst(item, '/', field);
      FirstSegment(field);
      var after := item + (['/'] + field);
      assert Segments(after, '/') == [item] + Segments(field, '/');
      assert Segments(body, '/') == [vault] + Segments(after, '/');
    }
  }

  lemma FirstSegment(s: string)
    ensures Segments(s, '/')[0] != "" <==> s != "" && s[0] != '/'
  {
  }

  lemma BitwardenParts(body: string)
    requires ParseBitwarden(body).Ref?
    ensures var r := ParseBitwarden(body).ref;
      r.Bitwarden? && WellFormed(r) && body == r.item + ['/'] + r.field
  {
    RSplitText(body, '/');
    var r := ParseBitwarden(body).ref;
    assert body[0] == r.item[0];
  }

  /** A parsed reference prints as it was written, and keeps its scheme's shape. */
  lemma ParsedPrintsBack(s: string)
    requires ParseScheme(s).Ref?
    ensures Display(ParseScheme(s).ref) == s && WellFormed(ParseScheme(s).ref)
  {
    if KEYCHAIN <= s {
      SplitText(StripPrefix(s, KEYCHAIN).value, '/');
    } else if ONEPASSWORD <= s {
      ThreeSegments(StripPrefix(s, ONEPASSWORD).value);
    } else if COMMAND <= s {
    } else if BITWARDEN <= s {
      BitwardenParts(StripPrefix(s, BITWARDEN).value);
    }
  }

  /** No prefix is mistaken for another: their first letters differ. */
  lemma Dispatch(body: string)
    ensures ParseScheme(KEYCHAIN + body) == ParseKeychain(body)
    ensures ParseScheme(BITWARDEN + body) == ParseBitwarden(body)
    ensures ParseScheme(COMMAND + body) == if Blank(body) then Malformed else Ref(Command(body))
  {
    StripOwnPrefix(KEYCHAIN, body);
    StripOwnPrefix(BITWARDEN, body);
    StripOwnPrefix(COMMAND, body);
  }

  lemma DispatchRest(body: string)
    ensures ParseScheme(ONEPASSWORD + body) == if HasThreeSegments(body) then Ref(OnePassword(ONEPASSWORD + body)) else Malformed
    ensures ParseScheme(SUPPLIED + body) == if IsSuppliedName(body) then Ref(Supplied(body)) else Malformed
  {
    StripOwnPrefix(ONEPASSWORD, body);
    StripOwnPrefix(SUPPLIED, body);
  }

  lemma WellFormedParses(r: SecretRef)
    requires WellFormed(r)
    ensures ParseScheme(Display(r)) == Ref(r)
  {
    match r {
      case Keychain(service, account) =>
        Dispatch(service + (['/'] + account));
        SplitFirst(service, '/', account);
      case OnePassword(uri) =>
        var body :| uri == ONEPASSWORD + body && NamesField(body);
        ThreeSegments(body);
        DispatchRest(body);
      case Command(command) => Dispatch(command);
      case Bitwarden(item, field) =>
        var body := item + ['/'] + field;
        Dispatch(body);
        assert body[0] == item[0];
        RSplitLast(item, '/', field);
      case Supplied(name) => DispatchRest(name);
    }
  }

  /** A printed reference parses to itself exactly when it has its scheme's shape. */
  lemma PrintedParsesBack(r: SecretRef)
    ensures ParseScheme(Display(r)) == Ref(r) <==> WellFormed(r)
  {
    if WellFormed(r) {
      WellFormedParses(r);
    } else if ParseScheme(Display(r)) == Ref(r) {
      ParsedPrintsBack(Display(r));
    }
  }

  // ---- resolving ---------------------------------------------------------------------------------

  /** What a resolution reaches outside the process. */
  datatype Backend = KeychainStore | OpCli | Shell | BwCli

  /** `PlatformSecretStore::get`: with supplied values no store is reached. */
  function StoreReached(r: SecretRef, supplied: bool): Option<Backend> {
    if supplied then None
    else
      match r
      case Keychain(_, _) => Some(KeychainStore)
      case OnePassword(_) => Some(OpCli)
      case Command(_) => Some(Shell)
      case Bitwarden(_, _) => Some(BwCli)
      case Supplied(_) => None
  }

  /** `SecretResolver::resolve`: a malformed reference is an error, anything else without a scheme is expanded in place. */
  function Reached(value: string, supplied: bool): Option<Backend> {
    match ParseScheme(value)
    case Ref(r) => StoreReached(r, supplied)
    case _ => None
  }

  // ---- the five schemes as they are written --------------------------------------------------

  /** Each scheme by its own letters, for every body. */
  lemma WrittenSchemes(a: string, b: string, c: string)
    ensures a != "" && '/' !in a && b != "" ==> ParseScheme("keychain:" + (a + (['/'] + b))) == Ref(Keychain(a, b))
    ensures a != "" && '/' !in a && b != "" && '/' !in b && c != "" && c[0] != '/' ==>
              var uri := "op://" + (a + (['/'] + (b + (['/'] + c))));
              ParseScheme(uri) == Ref(OnePassword(uri))
    ensures !Blank(a) ==> ParseScheme("cmd:" + a) == Ref(Command(a))
    ensures a != "" && a[0] != '/' && b != "" && '/' !in b ==> ParseScheme("bw:" + (a + ['/'] + b)) == Ref(Bitwarden(a, b))
    ensures IsSuppliedName(a) ==> ParseScheme("secret:" + a) == Ref(Supplied(a))
  {
    WrittenKeychain(a, b);
    WrittenOnePassword(a, b, c);
    WrittenRest(a, b);
  }

  lemma WrittenKeychain(a: string, b: string)
    ensures a != "" && '/' !in a && b != "" ==> ParseScheme("keychain:" + (a + (['/'] + b))) == Ref(Keychain(a, b))
  {
    if a != "" && '/' !in a && b != "" {
      assert Display(Keychain(a, b)) == "keychain:" + (a + (['/'] + b));
      WellFormedParses(Keychain(a, b));
    }
  }

  lemma WrittenOnePassword(a: string, b: string, c: string)
    ensures a != "" && '/' !in a && b != "" && '/' !in b && c != "" && c[0] != '/' ==>
              var uri := "op://" + (a + (['/'] + (b + (['/'] + c))));
              ParseScheme(uri) == Ref(OnePassword(uri))
  {
    if a != "" && '/' !in a && b != "" && '/' !in b && c != "" && c[0] != '/' {
      NamedField(a, b, c);
      WellFormedParses(OnePassword("op://" + (a + (['/'] + (b + (['/'] + c))))));
    }
  }

  lemma WrittenRest(a: string, b: string)
    ensures !Blank(a) ==> ParseScheme("cmd:" + a) == Ref(Command(a))
    ensures a != "" && a[0] != '/' && b != "" && '/' !in b ==> ParseScheme("bw:" + (a + ['/'] + b)) == Ref(Bitwarden(a, b))
    ensures IsSuppliedName(a) ==> ParseScheme("secret:" + a) == Ref(Supplied(a))
  {
    if !Blank(a) {
      WellFormedParses(Command(a));
    }
    if a != "" && a[0] != '/' && b != "" && '/' !in b {
      WellFormedParses(Bitwarden(a, b));
    }
    if IsSuppliedName(a) {
      WellFormedParses(Supplied(a));
    }
  }

  /** A text that starts with none of the five is no reference. */
  lemma NoOtherScheme(s: string)
    ensures ParseScheme(s).NoScheme? <==>
            !("keychain:" <= s) && !("op://" <= s) && !("cmd:" <= s) && !("bw:" <= s) && !("secret:" <= s)
  {
  }

  /** The two character rules, one character at a time. */
  lemma BodiesGrow(s: string, c: char)
    ensures Blank([]) && (Blank(s + [c]) <==> Blank(s) && c as int in WHITE_SPACE)
    ensures !IsSuppliedName([])
    ensures IsSuppliedName(s + [c]) <==>
            (s == [] || IsSuppliedName(s)) && (c in UPPER || c in LOWER || c in DIGITS || c == '_' || c == '.' || c == '-')
  {
    WhitespaceListed(c);
    ClassesListed(c);
    var t := s + [c];
    assert t[|s|] == c && forall k :: 0 <= k < |s| ==> t[k] == s[k];
    assert c in "_.-" <==> c == '_' || c == '.' || c == '-' by {
      assert "_.-"[0] == '_' && "_.-"[1] == '.' && "_.-"[2] == '-';
    }
  }
}

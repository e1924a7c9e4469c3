/** Which parts of the URLs in a message are kept out of logs. */
module Scrub {
  import opened Wrappers
  import opened Text

  predicate AtScheme(s: string) {
    |s| >= 3 && s[0] == ':' && s[1] == '/' && s[2] == '/'
  }

  /** The text cut at the first `://`, which stays out of both pieces. */
  function SplitScheme(s: string): (r: Split)
    ensures r.Split? ==> |r.before| + 3 + |r.after| == |s|
  {
    if |s| < 3 then Absent
    else if AtScheme(s) then Split([], s[3..])
    else
      match SplitScheme(s[1..])
      case Absent => Absent
      case Split(before, after) => Split([s[0]] + before, after)
  }

  const SCHEME: string := [':', '/', '/']

  /** An occurrence of `://` is found, and none before the one that is: text without it is `Absent`. */
  lemma {:induction false} SchemeIsFirst(x: string, y: string)
    ensures SplitScheme(x + (SCHEME + y)).Split? && |SplitScheme(x + (SCHEME + y)).before| <= |x|
  {
    var s := x + (SCHEME + y);
    if !AtScheme(s) {
      assert x == [] ==> s == SCHEME + y;
      assert s[1..] == x[1..] + (SCHEME + y);
      SchemeIsFirst(x[1..], y);
    }
  }

  /** Text without a URL is left alone. */
  lemma NoUrlNoChange(msg: string)
    requires forall x: string, y: string :: msg != x + (SCHEME + y)
    ensures Scrubbed(msg) == msg
  {
    if SplitScheme(msg).Split? {
      SchemeText(msg);
      Assoc(SplitScheme(msg).before, SCHEME, SplitScheme(msg).after);
    }
  }

  /** What a URL stops at. */
  predicate EndsUrl(c: char) {
    IsWhitespace(c) || c == ')' || c == ']' || c == '}' || c == '>'
  }

  function UrlRun(s: string): (url: string)
    ensures |url| <= |s|
  {
    if s == [] || EndsUrl(s[0]) then [] else [s[0]] + UrlRun(s[1..])
  }

  function AfterRun(s: string): (rest: string)
    ensures |rest| <= |s|
  {
    if s == [] || EndsUrl(s[0]) then s else AfterRun(s[1..])
  }

  /** What follows the last `@`, or everything: `rfind('@')` and the slice after it. */
  function AfterLastAt(s: string): string
    decreases |s|
  {
    if '@' !in s then s else AfterLastAt(SplitAfterAt(s))
  }

  function SplitAfterAt(s: string): (r: string)
    requires '@' in s
    ensures |r| < |s|
  {
    if s[0] == '@' then s[1..] else SplitAfterAt(s[1..])
  }

  function Authority(url: string): string {
    if url == [] || url[0] == '/' then [] else [url[0]] + Authority(url[1..])
  }

  function FromSlash(url: string): string {
    if url == [] || url[0] == '/' then url else FromSlash(url[1..])
  }

  function DropUserinfo(url: string): string {
    AfterLastAt(Authority(url)) + FromSlash(url)
  }

  function BeforeQuery(url: string): string {
    if url == [] || url[0] == '?' || url[0] == '#' then [] else [url[0]] + BeforeQuery(url[1..])
  }

  function ScrubUrl(url: string): string {
    BeforeQuery(DropUserinfo(url))
  }

  /** Text up to each URL as it is, each URL scrubbed. */
  function Scrubbed(msg: string): string
    decreases |msg|
  {
    match SplitScheme(msg)
    case Absent => msg
    case Split(before, tail) => before + (SCHEME + (ScrubUrl(UrlRun(tail)) + Scrubbed(AfterRun(tail))))
  }

  method ScrubUrls(msg: string) returns (out: string)
    ensures out == Scrubbed(msg)
  {
    out := "";
    var rest := msg;
    while SplitScheme(rest).Split?
      invariant Scrubbed(msg) == out + Scrubbed(rest)
      decreases |rest|
    {
      var cut := SplitScheme(rest);
      var url, after := UrlRun(cut.after), AfterRun(cut.after);
      var head := cut.before + SCHEME;
      Assoc(cut.before, SCHEME, ScrubUrl(url) + Scrubbed(after));
      Assoc(out, head, ScrubUrl(url) + Scrubbed(after));
      Assoc(out + head, ScrubUrl(url), Scrubbed(after));
      out := out + head;
      out := out + ScrubUrl(url);
      rest := after;
    }
    out := out + rest;
  }

  // ---- what scrubbing means ------------------------------------------------------

  /** Nothing left to strip from one URL: no query, no fragment, no `@` before the first `/`. */
  predicate CleanUrl(url: string) {
    '?' !in url && '#' !in url && '@' !in Authority(url)
  }

  /** Every URL the scan finds is clean. */
  predicate Clean(msg: string)
    decreases |msg|
  {
    match SplitScheme(msg)
    case Absent => true
    case Split(_, tail) => CleanUrl(UrlRun(tail)) && Clean(AfterRun(tail))
  }

  predicate NoEnd(s: string) {
    forall k :: 0 <= k < |s| ==> !EndsUrl(s[k])
  }

  lemma {:induction false} RunText(s: string)
    ensures s == UrlRun(s) + AfterRun(s) && NoEnd(UrlRun(s))
    ensures AfterRun(s) != [] ==> EndsUrl(AfterRun(s)[0])
  {
    if s != [] && !EndsUrl(s[0]) {
      RunText(s[1..]);
    }
  }

  lemma {:induction false} RunOfRun(u: string, rest: string)
    requires NoEnd(u) && (rest != [] ==> EndsUrl(rest[0]))
    ensures UrlRun(u + rest) == u && AfterRun(u + rest) == rest
  {
    if u == [] {
      assert u + rest == rest;
    } else {
      assert (u + rest)[1..] == u[1..] + rest;
      RunOfRun(u[1..], rest);
    }
  }

  lemma {:induction false} SchemeText(s: string)
    requires SplitScheme(s).Split?
    ensures s == SplitScheme(s).before + SCHEME + SplitScheme(s).after
  {
    if !AtScheme(s) {
      SchemeText(s[1..]);
    }
  }

  lemma {:induction false} SchemeStable(p: string, a: string, b: string)
    requires |p| >= 3 && SplitScheme(p + a).Split? && SplitScheme(p + a).after == a
    ensures SplitScheme(p + b) == Split(SplitScheme(p + a).before, b)
  {
    var s, t := p + a, p + b;
    assert s[0] == p[0] == t[0] && s[1] == p[1] == t[1] && s[2] == p[2] == t[2];
    if AtScheme(p) {
      assert |p| == 3;
      assert t[3..] == b;
    } else {
      assert s[1..] == p[1..] + a && t[1..] == p[1..] + b;
      SchemeStable(p[1..], a, b);
    }
  }

  /** The first `://` stays first whatever replaces the text after it. */
  lemma SchemeStays(s: string, tail: string)
    requires SplitScheme(s).Split?
    ensures var before := SplitScheme(s).before;
      && s == before + (SCHEME + SplitScheme(s).after)
      && SplitScheme(before + (SCHEME + tail)) == Split(before, tail)
  {
    var before, after := SplitScheme(s).before, SplitScheme(s).after;
    SchemeText(s);
    SchemeStable(before + SCHEME, after, tail);
    Assoc(before, SCHEME, after);
    Assoc(before, SCHEME, tail);
  }

  lemma {:induction false} AuthorityText(url: string)
    ensures url == Authority(url) + FromSlash(url) && '/' !in Authority(url)
    ensures FromSlash(url) != [] ==> FromSlash(url)[0] == '/'
  {
    if url != [] && url[0] != '/' {
      AuthorityText(url[1..]);
    }
  }

  lemma {:induction false} AuthorityOf(a: string, p: string)
    requires '/' !in a && (p != [] ==> p[0] == '/')
    ensures Authority(a + p) == a && FromSlash(a + p) == p
  {
    if a == [] {
      assert a + p == p;
    } else {
      assert (a + p)[1..] == a[1..] + p;
      AuthorityOf(a[1..], p);
    }
  }

  lemma {:induction false} AfterAtShape(s: string)
    requires '@' in s
    ensures exists u: string :: s == u + SplitAfterAt(s)
  {
    if s[0] == '@' {
      assert s == ['@'] + SplitAfterAt(s);
    } else {
      AfterAtShape(s[1..]);
      var u: string :| s[1..] == u + SplitAfterAt(s[1..]);
      assert s == ([s[0]] + u) + SplitAfterAt(s);
    }
  }

  lemma {:induction false} AfterLastAtShape(s: string)
    ensures '@' !in AfterLastAt(s)
    ensures exists u: string :: s == u + AfterLastAt(s)
    decreases |s|
  {
    if '@' in s {
      AfterAtShape(s);
      var u: string :| s == u + SplitAfterAt(s);
      AfterLastAtShape(SplitAfterAt(s));
      var v: string :| SplitAfterAt(s) == v + AfterLastAt(SplitAfterAt(s));
      Assoc(u, v, AfterLastAt(s));
      assert s == (u + v) + AfterLastAt(s);
    } else {
      assert s == [] + s;
    }
  }

  lemma {:induction false} BeforeQueryShape(s: string)
    ensures '?' !in BeforeQuery(s) && '#' !in BeforeQuery(s)
    ensures exists q: string :: s == BeforeQuery(s) + q
  {
    if s == [] || s[0] == '?' || s[0] == '#' {
      assert s == [] + s;
    } else {
      BeforeQueryShape(s[1..]);
      var q: string :| s[1..] == BeforeQuery(s[1..]) + q;
      assert s == BeforeQuery(s) + q;
    }
  }

  lemma {:induction false} CleanQuery(s: string)
    requires '?' !in s && '#' !in s
    ensures BeforeQuery(s) == s
  {
    if s != [] {
      CleanQuery(s[1..]);
    }
  }

  lemma {:induction false} AuthorityOfPrefix(s: string, q: string)
    ensures '@' in Authority(s) ==> '@' in Authority(s + q)
  {
    if s != [] && s[0] != '/' {
      assert (s + q)[1..] == s[1..] + q;
      AuthorityOfPrefix(s[1..], q);
    }
  }

  lemma ScrubbedUrlIsClean(url: string)
    ensures CleanUrl(ScrubUrl(url))
  {
    var d := DropUserinfo(url);
    AuthorityText(url);
    AfterLastAtShape(Authority(url));
    var u: string :| Authority(url) == u + AfterLastAt(Authority(url));
    AuthorityOf(AfterLastAt(Authority(url)), FromSlash(url));
    BeforeQueryShape(d);
    var q: string :| d == BeforeQuery(d) + q;
    AuthorityOfPrefix(BeforeQuery(d), q);
  }

  lemma CleanUrlStays(url: string)
    requires CleanUrl(url)
    ensures ScrubUrl(url) == url
  {
    AuthorityText(url);
    CleanQuery(url);
  }

  /** `small` is `big` with characters deleted. */
  predicate Subsequence(small: string, big: string) {
    || small == []
    || (big != [] && small[0] == big[0] && Subsequence(small[1..], big[1..]))
    || (big != [] && Subsequence(small, big[1..]))
  }

  lemma {:induction false} SubsequenceGrows(small: string, u: string, big: string)
    requires Subsequence(small, big)
    ensures Subsequence(small, u + big)
  {
    if u == [] {
      assert u + big == big;
    } else {
      assert (u + big)[1..] == u[1..] + big;
      SubsequenceGrows(small, u[1..], big);
    }
  }

  lemma {:induction false} SubsequenceAppend(a: string, b: string, c: string, d: string)
    requires Subsequence(a, b) && Subsequence(c, d)
    ensures Subsequence(a + c, b + d)
    decreases |b|
  {
    if a == [] {
      assert a + c == c;
      SubsequenceGrows(c, b, d);
    } else {
      assert (b + d)[1..] == b[1..] + d && (a + c)[1..] == a[1..] + c;
      if a[0] == b[0] && Subsequence(a[1..], b[1..]) {
        SubsequenceAppend(a[1..], b[1..], c, d);
      } else {
        SubsequenceAppend(a, b[1..], c, d);
      }
    }
  }

  lemma {:induction false} SubsequenceSelf(a: string)
    ensures Subsequence(a, a)
  {
    if a != [] {
      SubsequenceSelf(a[1..]);
    }
  }

  lemma ScrubUrlDeletes(url: string)
    ensures Subsequence(ScrubUrl(url), url) && (NoEnd(url) ==> NoEnd(ScrubUrl(url)))
  {
    var d := DropUserinfo(url);
    AuthorityText(url);
    AfterLastAtShape(Authority(url));
    var u: string :| Authority(url) == u + AfterLastAt(Authority(url));
    Assoc(u, AfterLastAt(Authority(url)), FromSlash(url));
    assert url == u + d;
    BeforeQueryShape(d);
    var q: string :| d == BeforeQuery(d) + q;
    SubsequenceSelf(BeforeQuery(d));
    SubsequenceAppend(BeforeQuery(d), BeforeQuery(d), [], q);
    assert BeforeQuery(d) + [] == BeforeQuery(d);
    SubsequenceGrows(BeforeQuery(d), u, d);
    assert forall k :: 0 <= k < |BeforeQuery(d)| ==> BeforeQuery(d)[k] == url[|u| + k];
  }

  /** Scrubbing only deletes. */
  lemma {:induction false} ScrubDeletes(msg: string)
    ensures Subsequence(Scrubbed(msg), msg)
    decreases |msg|
  {
    SubsequenceSelf(msg);
    if SplitScheme(msg).Split? {
      var before, tail := SplitScheme(msg).before, SplitScheme(msg).after;
      SchemeStays(msg, tail);
      RunText(tail);
      ScrubUrlDeletes(UrlRun(tail));
      ScrubDeletes(AfterRun(tail));
      SubsequenceAppend(ScrubUrl(UrlRun(tail)), UrlRun(tail), Scrubbed(AfterRun(tail)), AfterRun(tail));
      SubsequenceSelf(SCHEME);
      SubsequenceAppend(SCHEME, SCHEME, ScrubUrl(UrlRun(tail)) + Scrubbed(AfterRun(tail)), tail);
      SubsequenceSelf(before);
      SubsequenceAppend(before, before, SCHEME + (ScrubUrl(UrlRun(tail)) + Scrubbed(AfterRun(tail))), SCHEME + tail);
    }
  }

  lemma FirstStays(msg: string)
    ensures msg != [] ==> Scrubbed(msg) != [] && Scrubbed(msg)[0] == msg[0]
    ensures msg == [] ==> Scrubbed(msg) == []
  {
    if SplitScheme(msg).Split? {
      SchemeStays(msg, SplitScheme(msg).after);
    }
  }

  /** What the scan finds in scrubbed text: the same text before, the scrubbed URL, the scrubbed rest. */
  lemma ScrubbedScan(msg: string)
    requires SplitScheme(msg).Split?
    ensures var tail := SplitScheme(msg).after;
      var found := SplitScheme(Scrubbed(msg));
      && found.Split? && found.before == SplitScheme(msg).before
      && UrlRun(found.after) == ScrubUrl(UrlRun(tail))
      && AfterRun(found.after) == Scrubbed(AfterRun(tail))
  {
    var tail := SplitScheme(msg).after;
    var tail' := ScrubUrl(UrlRun(tail)) + Scrubbed(AfterRun(tail));
    SchemeStays(msg, tail');
    RunText(tail);
    ScrubUrlDeletes(UrlRun(tail));
    FirstStays(AfterRun(tail));
    RunOfRun(ScrubUrl(UrlRun(tail)), Scrubbed(AfterRun(tail)));
  }

  /** Scrubbed text holds nothing a scan would strip. */
  lemma {:induction false} ScrubbedIsClean(msg: string)
    ensures Clean(Scrubbed(msg))
    decreases |msg|
  {
    if SplitScheme(msg).Split? {
      ScrubbedScan(msg);
      ScrubbedUrlIsClean(UrlRun(SplitScheme(msg).after));
      ScrubbedIsClean(AfterRun(SplitScheme(msg).after));
    }
  }

  lemma {:induction false} CleanStays(msg: string)
    requires Clean(msg)
    ensures Scrubbed(msg) == msg
    decreases |msg|
  {
    if SplitScheme(msg).Split? {
      var tail := SplitScheme(msg).after;
      SchemeStays(msg, tail);
      RunText(tail);
      CleanUrlStays(UrlRun(tail));
      CleanStays(AfterRun(tail));
    }
  }

  /** The texts scrubbing leaves alone are exactly the clean ones; so scrubbing twice is scrubbing once. */
  lemma FixedPoints(msg: string)
    ensures Scrubbed(msg) == msg <==> Clean(msg)
    ensures Scrubbed(Scrubbed(msg)) == Scrubbed(msg)
  {
    ScrubbedIsClean(msg);
    CleanStays(Scrubbed(msg));
    if Clean(msg) {
      CleanStays(msg);
    }
  }

  // ---- which parts of a URL survive ------------------------------------------------

  lemma {:induction false} QueryCut(s: string, q: string)
    requires '?' !in s && '#' !in s && (q != [] ==> q[0] == '?' || q[0] == '#')
    ensures BeforeQuery(s + q) == s
  {
    if s == [] {
      assert s + q == q;
    } else {
      assert (s + q)[1..] == s[1..] + q;
      QueryCut(s[1..], q);
    }
  }

  lemma {:induction false} LastAtOf(u: string, s: string)
    requires '@' !in s
    ensures AfterLastAt(u + (['@'] + s)) == s
    decreases |u|
  {
    var t := u + (['@'] + s);
    assert t[|u|] == '@';
    AfterAtSkips(u, s);
    if '@' in u {
      LastAtOf(SplitAfterAt(u), s);
    }
  }

  lemma {:induction false} AfterAtSkips(u: string, s: string)
    ensures '@' in u + (['@'] + s)
    ensures SplitAfterAt(u + (['@'] + s)) == if '@' in u then SplitAfterAt(u) + (['@'] + s) else s
  {
    var t := u + (['@'] + s);
    assert t[|u|] == '@';
    if u == [] {
      assert t[1..] == s;
    } else {
      assert t[1..] == u[1..] + (['@'] + s);
      AfterAtSkips(u[1..], s);
    }
  }

  /** A host, as far as the scan can tell it from what surrounds it. */
  predicate IsHost(host: string) {
    forall k :: 0 <= k < |host| ==> host[k] != '/' && host[k] != '@' && host[k] != '?' && host[k] != '#'
  }

  /** What follows the host: empty, or a query or fragment from its mark on. */
  predicate IsQuery(q: string) {
    q != [] ==> q[0] == '?' || q[0] == '#'
  }

  predicate IsPath(path: string) {
    (path != [] ==> path[0] == '/') && '?' !in path && '#' !in path
  }

  lemma {:induction false} AuthorityPast(a: string, s: string)
    requires '/' !in a
    ensures Authority(a + s) == a + Authority(s) && FromSlash(a + s) == FromSlash(s)
  {
    if a == [] {
      assert a + s == s;
    } else {
      assert (a + s)[1..] == a[1..] + s;
      AuthorityPast(a[1..], s);
      assert a == [a[0]] + a[1..];
    }
  }

  lemma {:induction false} AuthorityWithin(a: string, s: string)
    requires '/' in a
    ensures Authority(a + s) == Authority(a) && FromSlash(a + s) == FromSlash(a) + s
  {
    if a[0] != '/' {
      assert (a + s)[1..] == a[1..] + s;
      AuthorityWithin(a[1..], s);
    }
  }

  /** Credentials without a slash go entirely, whatever they and the rest of the URL hold. */
  lemma CredentialsGo(user: string, rest: string)
    requires '/' !in user
    ensures ScrubUrl(user + (['@'] + rest)) == ScrubUrl(rest)
  {
    var creds := user + ['@'];
    assert user + (['@'] + rest) == creds + rest;
    AuthorityPast(creds, rest);
    HiddenBy(user, Authority(rest));
  }

  lemma HiddenBy(user: string, authority: string)
    ensures AfterLastAt(user + ['@'] + authority) == AfterLastAt(authority)
  {
    assert user + ['@'] + authority == user + (['@'] + authority);
    if '@' in authority {
      DropsTo(user + ['@'], authority);
    } else {
      LastAtOf(user, authority);
    }
  }

  /** A slash in the credentials ends the authority there: what follows it stays, up to the first `?` or `#`. */
  lemma SlashEndsAuthority(user: string, rest: string)
    requires '/' in user
    ensures ScrubUrl(user + rest) == BeforeQuery(AfterLastAt(Authority(user)) + (FromSlash(user) + rest))
  {
    AuthorityWithin(user, rest);
    Assoc(AfterLastAt(Authority(user)), FromSlash(user), rest);
  }

  /** An `@` further on hides every earlier one. */
  lemma {:induction false} DropsTo(a: string, s: string)
    requires '@' in s
    ensures AfterLastAt(a + s) == AfterLastAt(s)
    decreases |a|
  {
    if '@' in a {
      AfterAtOver(a, s);
      DropsTo(SplitAfterAt(a), s);
    } else {
      AfterAtIn(a, s);
    }
  }

  lemma {:induction false} AfterAtOver(a: string, s: string)
    requires '@' in a
    ensures '@' in a + s && SplitAfterAt(a + s) == SplitAfterAt(a) + s
  {
    assert (a + s)[1..] == a[1..] + s;
    if a[0] != '@' {
      AfterAtOver(a[1..], s);
      assert a + s == [a[0]] + (a[1..] + s);
    }
  }

  /** Without a path: what follows the host counts as authority up to its first slash, and an `@` there hides the host. */
  lemma QueryOnHost(host: string, q: string)
    requires IsHost(host) && IsQuery(q)
    ensures ScrubUrl(host + q) == if '@' in Authority(q) then BeforeQuery(AfterLastAt(Authority(q)) + FromSlash(q)) else host
  {
    AuthorityPast(host, q);
    var authority := Authority(q);
    if '@' in authority {
      AfterAtIn(host, authority);
    } else {
      AuthorityText(q);
      Assoc(host, authority, FromSlash(q));
      QueryCut(host, q);
    }
  }

  /** With a path, exactly the host and the path survive, whatever the query is. */
  lemma HostAndPathSurvive(host: string, path: string, query: string)
    requires IsHost(host) && IsPath(path) && path != [] && IsQuery(query)
    ensures ScrubUrl(host + (path + query)) == host + path
  {
    AuthorityOf(host, path + query);
    Assoc(host, path, query);
    QueryCut(host + path, query);
  }

  /** The URL as an operator writes it: credentials if any, host, path, query. */
  function Written(creds: Option<string>, host: string, path: string, query: string): string {
    var rest := host + (path + query);
    if creds.Some? then creds.value + (['@'] + rest) else rest
  }

  /** A host that does not end the URL either. */
  predicate IsGateway(host: string) {
    IsHost(host) && NoEnd(host)
  }

  /** The promise, for the URL once it is cut out: of every gateway the host and the path survive and nothing else. */
  ghost predicate RunNamesTheGateway(creds: Option<string>, path: string, query: string) {
    forall host: string :: IsGateway(host) ==> ScrubUrl(Written(creds, host, path, query)) == host + path
  }

  lemma RunPromiseKept(creds: Option<string>, path: string, query: string)
    requires IsPath(path) && IsQuery(query)
    ensures RunNamesTheGateway(creds, path, query) <==>
            && (creds.Some? ==> '/' !in creds.value)
            && (path != [] || '@' !in Authority(query))
  {
    if creds.Some? && '/' in creds.value {
      SlashBreaks(creds.value, path, query);
    } else {
      forall host: string | IsGateway(host)
        ensures ScrubUrl(Written(creds, host, path, query)) == ScrubUrl(host + (path + query))
      {
        if creds.Some? {
          CredentialsGo(creds.value, host + (path + query));
        }
      }
      WithoutCredentials(creds, path, query);
    }
  }

  // ---- the promise over messages -------------------------------------------------------

  lemma SchemeFirst(tail: string)
    ensures SplitScheme(SCHEME + tail) == Split([], tail)
  {
    assert (SCHEME + tail)[3..] == tail;
  }

  /** A URL runs up to the first mark that ends one, whatever part of it the mark stands in. */
  lemma CutAtMark(u: string, rest: string)
    requires NoEnd(u) && (rest != [] ==> EndsUrl(rest[0]))
    ensures Scrubbed(SCHEME + (u + rest)) == SCHEME + (ScrubUrl(u) + Scrubbed(rest))
  {
    SchemeFirst(u + rest);
    RunOfRun(u, rest);
    var out := SCHEME + (ScrubUrl(u) + Scrubbed(rest));
    assert [] + out == out;
  }

  /** Wherever the URL stands in a message, it is scrubbed as if it stood alone. */
  lemma UrlInMessage(before: string, u: string, rest: string)
    requires SplitScheme(before).Absent? && NoEnd(u) && (rest != [] ==> EndsUrl(rest[0]))
    ensures Scrubbed(before + (SCHEME + (u + rest))) == before + (SCHEME + (ScrubUrl(u) + Scrubbed(rest)))
  {
    FirstScheme(before, u + rest);
    RunOfRun(u, rest);
  }

  lemma {:induction false} FirstScheme(before: string, tail: string)
    requires SplitScheme(before).Absent?
    ensures SplitScheme(before + (SCHEME + tail)) == Split(before, tail)
  {
    var s := before + (SCHEME + tail);
    if before == [] {
      assert s == SCHEME + tail;
      SchemeFirst(tail);
    } else {
      assert s[1..] == before[1..] + (SCHEME + tail);
      assert AtScheme(s) ==> AtScheme(before) by {
        assert |before| < 3 ==> s[|before|] == ':';
      }
      FirstScheme(before[1..], tail);
    }
  }

  lemma WholeUrl(u: string)
    requires NoEnd(u)
    ensures Scrubbed(SCHEME + u) == SCHEME + ScrubUrl(u)
  {
    CutAtMark(u, []);
    assert u + [] == u && ScrubUrl(u) + [] == ScrubUrl(u);
  }

  lemma WholeUrlIs(u: string, clean: string)
    requires NoEnd(u)
    ensures Scrubbed(SCHEME + u) == SCHEME + clean <==> ScrubUrl(u) == clean
  {
    WholeUrl(u);
    assert (SCHEME + ScrubUrl(u))[3..] == ScrubUrl(u) && (SCHEME + clean)[3..] == clean;
  }

  /** What a mark cuts off stays: at least the mark itself. */
  lemma MarkIsLeft(u: string, clean: string)
    requires !NoEnd(u) && NoEnd(clean)
    ensures Scrubbed(SCHEME + u) != SCHEME + clean
  {
    var run, rest := UrlRun(u), AfterRun(u);
    RunText(u);
    assert rest != [] by { assert rest == [] ==> u == run; }
    CutAtMark(run, rest);
    FirstStays(rest);
    var kept := ScrubUrl(run);
    var out := kept + Scrubbed(rest);
    assert out[|kept|] == rest[0];
    assert out != clean by { assert EndsUrl(out[|kept|]); }
    assert (SCHEME + out)[3..] == out && (SCHEME + clean)[3..] == clean;
  }

  lemma NoEndAppend(a: string, b: string)
    ensures NoEnd(a + b) <==> NoEnd(a) && NoEnd(b)
  {
    assert forall k :: 0 <= k < |a| ==> (a + b)[k] == a[k];
    assert forall k :: 0 <= k < |b| ==> (a + b)[|a| + k] == b[k];
  }

  lemma WrittenNoEnd(creds: Option<string>, host: string, path: string, query: string)
    ensures NoEnd(Written(creds, host, path, query)) <==>
            (creds.Some? ==> NoEnd(creds.value)) && NoEnd(host) && NoEnd(path) && NoEnd(query)
  {
    var rest := host + (path + query);
    NoEndAppend(path, query);
    NoEndAppend(host, path + query);
    if creds.Some? {
      NoEndAppend(['@'], rest);
      NoEndAppend(creds.value, ['@'] + rest);
    }
  }

  /** The promise of `scrub_urls`: of every gateway in a message the host and the path survive and nothing else. */
  ghost predicate NamesTheGateway(creds: Option<string>, path: string, query: string) {
    forall host: string :: IsGateway(host) ==>
      Scrubbed(SCHEME + Written(creds, host, path, query)) == SCHEME + (host + path)
  }

  /**
   * The promise is kept exactly when neither the credentials nor the query hold a mark that ends the URL, the
   * credentials hold no slash, and either there is a path or the query holds no `@` before its first slash.
   */
  lemma PromiseKept(creds: Option<string>, path: string, query: string)
    requires IsPath(path) && NoEnd(path) && IsQuery(query)
    ensures NamesTheGateway(creds, path, query) <==>
            && (creds.Some? ==> NoEnd(creds.value) && '/' !in creds.value)
            && NoEnd(query)
            && (path != [] || '@' !in Authority(query))
  {
    RunPromiseKept(creds, path, query);
    if (creds.Some? ==> NoEnd(creds.value)) && NoEnd(query) {
      UnmarkedPromise(creds, path, query);
    } else {
      MarkBreaks(creds, path, query);
    }
  }

  lemma UnmarkedPromise(creds: Option<string>, path: string, query: string)
    requires (creds.Some? ==> NoEnd(creds.value)) && NoEnd(path) && NoEnd(query)
    ensures NamesTheGateway(creds, path, query) <==> RunNamesTheGateway(creds, path, query)
  {
    forall host: string | IsGateway(host)
      ensures Scrubbed(SCHEME + Written(creds, host, path, query)) == SCHEME + (host + path) <==>
              ScrubUrl(Written(creds, host, path, query)) == host + path
    {
      WrittenNoEnd(creds, host, path, query);
      WholeUrlIs(Written(creds, host, path, query), host + path);
    }
  }

  lemma MarkBreaks(creds: Option<string>, path: string, query: string)
    requires NoEnd(path) && !((creds.Some? ==> NoEnd(creds.value)) && NoEnd(query))
    ensures !NamesTheGateway(creds, path, query)
  {
    var host := "a";
    WrittenNoEnd(creds, host, path, query);
    NoEndAppend(host, path);
    MarkIsLeft(Written(creds, host, path, query), host + path);
    assert IsGateway(host);
  }

  // ---- what stays where the promise is broken --------------------------------------------

  /**
   * A mark in the host or the path: credentials before it go, and everything from it on stays, the query
   * included. So the promise is kept only where there is no query.
   */
  lemma MarkedGateway(user: string, u: string, rest: string, query: string)
    requires NoEnd(user) && '/' !in user && NoEnd(u) && CleanUrl(u)
    requires rest != [] && EndsUrl(rest[0]) && SplitScheme(rest + query).Absent?
    ensures Scrubbed(SCHEME + (user + (['@'] + u) + (rest + query))) == SCHEME + (u + (rest + query))
    ensures Scrubbed(SCHEME + (user + (['@'] + u) + (rest + query))) == SCHEME + (u + rest) <==> query == []
  {
    NoEndAppend(['@'], u);
    NoEndAppend(user, ['@'] + u);
    CutAtMark(user + (['@'] + u), rest + query);
    CredentialsGo(user, u);
    CleanUrlStays(u);
    assert rest + [] == rest;
    assert |SCHEME + (u + (rest + query))| == |SCHEME + (u + rest)| + |query|;
  }

  /** A mark in the credentials: they stay in full, and so does all that follows. */
  lemma MarkedCredentialsStay(user: string, rest: string)
    requires NoEnd(user) && CleanUrl(user)
    requires rest != [] && EndsUrl(rest[0]) && SplitScheme(rest).Absent?
    ensures Scrubbed(SCHEME + (user + rest)) == SCHEME + (user + rest)
  {
    CutAtMark(user, rest);
    CleanUrlStays(user);
  }

  /** A mark in the query: what follows it stays. */
  lemma MarkedQueryStays(host: string, path: string, query: string, rest: string)
    requires IsGateway(host) && IsPath(path) && NoEnd(path) && path != [] && IsQuery(query) && NoEnd(query)
    requires rest != [] && EndsUrl(rest[0]) && SplitScheme(rest).Absent?
    ensures Scrubbed(SCHEME + (host + (path + query) + rest)) == SCHEME + (host + path + rest)
  {
    NoEndAppend(path, query);
    NoEndAppend(host, path + query);
    CutAtMark(host + (path + query), rest);
    HostAndPathSurvive(host, path, query);
  }

  lemma WithoutCredentials(creds: Option<string>, path: string, query: string)
    requires IsPath(path) && IsQuery(query)
    requires forall host: string :: IsGateway(host) ==>
               ScrubUrl(Written(creds, host, path, query)) == ScrubUrl(host + (path + query))
    ensures RunNamesTheGateway(creds, path, query) <==> path != [] || '@' !in Authority(query)
  {
    if path != [] {
      forall host: string | IsGateway(host) ensures ScrubUrl(Written(creds, host, path, query)) == host + path {
        HostAndPathSurvive(host, path, query);
      }
    } else {
      assert [] + query == query;
      forall host: string | IsGateway(host)
        ensures ScrubUrl(host + (path + query)) ==
                if '@' in Authority(query) then BeforeQuery(AfterLastAt(Authority(query)) + FromSlash(query)) else host
      {
        QueryOnHost(host, query);
        assert path + query == query;
      }
      if '@' in Authority(query) {
        var host := OtherHost(BeforeQuery(AfterLastAt(Authority(query)) + FromSlash(query)));
        assert host + path == host;
        assert ScrubUrl(Written(creds, host, path, query)) != host + path;
      } else {
        forall host: string | IsGateway(host) ensures ScrubUrl(Written(creds, host, path, query)) == host + path {
          assert host + path == host;
        }
      }
    }
  }

  /** A host that a given text is not. */
  function OtherHost(text: string): (host: string)
    ensures IsGateway(host) && host != text
  {
    if text == "a" then "b" else "a"
  }

  lemma SlashBreaks(user: string, path: string, query: string)
    requires '/' in user && IsPath(path)
    ensures !RunNamesTheGateway(Some(user), path, query)
  {
    var kept := AfterLastAt(Authority(user)) + FromSlash(user);
    var host := if HasQuery(kept) then OtherHostThan(BeforeQuery(kept), path) else "a";
    var rest := ['@'] + (host + (path + query));
    SlashEndsAuthority(user, rest);
    Assoc(AfterLastAt(Authority(user)), FromSlash(user), rest);
    if HasQuery(kept) {
      QueryWithin(kept, rest);
    } else {
      QueryPast(kept, rest);
      NoSlashBefore(user);
      KeptIsLonger(kept, host, path, query);
    }
    assert IsGateway(host) && ScrubUrl(Written(Some(user), host, path, query)) != host + path;
  }

  function OtherHostThan(text: string, path: string): (host: string)
    ensures IsGateway(host) && host + path != text
  {
    assert ("a" + path)[0] == 'a' && ("b" + path)[0] == 'b';
    if text == "a" + path then "b" else "a"
  }

  lemma NoSlashBefore(user: string)
    requires '/' in user
    ensures FromSlash(user) != []
  {
    AuthorityText(user);
    assert FromSlash(user) == [] ==> user == Authority(user);
  }

  predicate HasQuery(s: string) {
    '?' in s || '#' in s
  }

  lemma {:induction false} QueryPast(s: string, t: string)
    requires !HasQuery(s)
    ensures BeforeQuery(s + t) == s + BeforeQuery(t)
  {
    if s == [] {
      assert s + t == t;
    } else {
      assert (s + t)[1..] == s[1..] + t;
      QueryPast(s[1..], t);
    }
  }

  lemma {:induction false} QueryWithin(s: string, t: string)
    requires HasQuery(s)
    ensures BeforeQuery(s + t) == BeforeQuery(s)
  {
    if s[0] != '?' && s[0] != '#' {
      assert (s + t)[1..] == s[1..] + t;
      QueryWithin(s[1..], t);
    }
  }

  /** The kept credentials' mark, host and path alone are longer than what should be left. */
  lemma KeptIsLonger(kept: string, host: string, path: string, query: string)
    requires kept != [] && IsHost(host) && '?' !in path && '#' !in path
    ensures |kept + BeforeQuery(['@'] + (host + (path + query)))| > |host + path|
  {
    var clean := ['@'] + (host + path);
    assert ['@'] + (host + (path + query)) == clean + query;
    QueryPast(clean, query);
    CleanQuery(clean);
  }

  /** An `@` in a query without a path before it: the host is gone and the query's tail is left, slashes and all. */
  lemma QueryTailSurvives(host: string, key: string, tail: string, path: string)
    requires IsHost(host) && '/' !in key && IsHost(tail) && IsPath(path)
    ensures ScrubUrl(host + (['?'] + key) + (['@'] + (tail + path))) == tail + path
  {
    CredentialsGo(host + (['?'] + key), tail + path);
    assert tail + (path + []) == tail + path;
    if path == [] {
      assert tail + path == tail + [];
      QueryOnHost(tail, []);
    } else {
      HostAndPathSurvive(tail, path, []);
    }
  }

  /** A slash in a password: the whole credential is left. */
  lemma SlashedPasswordSurvives(user: string, secret: string)
    requires IsHost(user) && '?' !in secret && '#' !in secret
    ensures ScrubUrl(user + (['/'] + secret)) == user + (['/'] + secret)
  {
    AuthorityOf(user, ['/'] + secret);
    CleanQuery(user + (['/'] + secret));
  }

  // ---- one message of each family --------------------------------------------------------

  function Message(scheme: string, u: string, rest: string): string {
    scheme + (SCHEME + (u + rest))
  }

  lemma MessageScrubbed(scheme: string, u: string, rest: string)
    requires ':' !in scheme && ':' !in rest && NoEnd(u) && (rest != [] ==> EndsUrl(rest[0]))
    ensures Scrubbed(Message(scheme, u, rest)) == Message(scheme, ScrubUrl(u), rest)
  {
    NoScheme(scheme);
    NoScheme(rest);
    UrlInMessage(scheme, u, rest);
  }

  /** `https://gw?key=a@b` becomes `https://b`. */
  lemma LeakByQuery(scheme: string, host: string, key: string, tail: string)
    requires scheme == "https" && host == "gw" && key == "key=a" && tail == "b"
    ensures Scrubbed(Message(scheme, host + (['?'] + key) + (['@'] + tail), [])) == Message(scheme, tail, [])
  {
    QueryTailSurvives(host, key, tail, []);
    assert tail + [] == tail;
    MessageScrubbed(scheme, host + (['?'] + key) + (['@'] + tail), []);
  }

  /** `https://u:p/q@h/v1` stays as it is. */
  lemma LeakBySlash(scheme: string, user: string, secret: string)
    requires scheme == "https" && user == "u:p" && secret == "q@h/v1"
    ensures Scrubbed(Message(scheme, user + (['/'] + secret), [])) == Message(scheme, user + (['/'] + secret), [])
  {
    SlashedPasswordSurvives(user, secret);
    MessageScrubbed(scheme, user + (['/'] + secret), []);
  }

  /** `https://me:s3)cret@gw/v1` stays as it is. */
  lemma LeakByMark(scheme: string, user: string, rest: string)
    requires scheme == "https" && user == "me:s3" && rest == ")cret@gw/v1"
    ensures Scrubbed(Message(scheme, user, rest)) == Message(scheme, user, rest)
  {
    CleanPiece(user);
    MessageScrubbed(scheme, user, rest);
  }

  /** `https://gw/v1?key=ab)cd` becomes `https://gw/v1)cd`. */
  lemma LeakByMarkedQuery(scheme: string, host: string, path: string, query: string, rest: string)
    requires scheme == "https" && host == "gw" && path == "/v1" && query == "?key=ab" && rest == ")cd"
    ensures Scrubbed(Message(scheme, host + (path + query), rest)) == Message(scheme, host + path, rest)
  {
    HostAndPathSurvive(host, path, query);
    MessageScrubbed(scheme, host + (path + query), rest);
  }

  /** `https://me:pw@[::1]/v1?key=x` becomes `https://[::1]/v1?key=x`: an IPv6 host holds a mark of its own. */
  lemma LeakByIpv6(scheme: string, user: string, host: string, rest: string)
    requires scheme == "https" && user == "me:pw" && host == "[::1" && rest == "]/v1?key=x"
    ensures Scrubbed(Message(scheme, user + (['@'] + host), rest)) == Message(scheme, host, rest)
  {
    CredentialsGo(user, host);
    CleanPiece(host);
    MessageScrubbed(scheme, user + (['@'] + host), rest);
  }

  lemma CleanPiece(u: string)
    requires IsHost(u)
    ensures ScrubUrl(u) == u
  {
    assert u + [] == u;
    AuthorityOf(u, []);
    CleanUrlStays(u);
  }

  lemma {:induction false} NoScheme(s: string)
    requires ':' !in s
    ensures SplitScheme(s).Absent?
  {
    if s != [] {
      NoScheme(s[1..]);
    }
  }

  lemma {:induction false} AfterAtIn(a: string, s: string)
    requires '@' !in a && '@' in s
    ensures AfterLastAt(a + s) == AfterLastAt(s)
  {
    AfterAtPast(a, s);
  }

  lemma {:induction false} AfterAtPast(a: string, s: string)
    requires '@' !in a && '@' in s
    ensures '@' in a + s && SplitAfterAt(a + s) == SplitAfterAt(s)
  {
    if a == [] {
      assert a + s == s;
    } else {
      assert (a + s)[1..] == a[1..] + s;
      AfterAtPast(a[1..], s);
      assert a + s == [a[0]] + (a[1..] + s);
    }
  }

  // ---- a URL and what follows it, by the letters ------------------------------------------------

  /** Printable ASCII without the brackets that end a URL and the four marks its parts are cut at. */
  predicate PlainPart(s: string) {
    forall k :: 0 <= k < |s| ==> '!' <= s[k] <= '~' && s[k] !in ")]}>/@?#"
  }

  /** What a message goes on with: a blank or a closing bracket, and then no further URL. */
  predicate Follows(rest: string) {
    && ':' !in rest
    && (rest != [] ==> rest[0] == ' ' || rest[0] == '\t' || rest[0] == '\n' || rest[0] in ")]}>")
  }

  lemma PlainHasNoEnd(s: string)
    requires PlainPart(s)
    ensures NoEnd(s) && IsHost(s)
  {
  }

  lemma FollowersEnd(rest: string)
    requires Follows(rest)
    ensures rest != [] ==> EndsUrl(rest[0])
  {
  }

  lemma MarksAreNoEnd()
    ensures NoEnd("/") && NoEnd("@") && NoEnd("?") && NoEnd("#")
  {
  }

  /**
   * `scheme://user@host/path?query` and what follows, part by part: the scheme, the host, the path and all of what
   * follows are left, the user and the query are not; whether the query is one or a fragment makes no difference.
   */
  lemma UrlByLetters(scheme: string, user: string, host: string, path: string, mark: string, query: string, rest: string)
    requires ':' !in scheme && PlainPart(user) && PlainPart(host) && PlainPart(path) && PlainPart(query) && Follows(rest)
    requires mark == "?" || mark == "#"
    ensures Scrubbed(scheme + ("://" + (user + ("@" + (host + ("/" + path + (mark + query)))) + rest)))
         == scheme + ("://" + (host + ("/" + path) + rest))
  {
    PlainHasNoEnd(user);
    PlainHasNoEnd(host);
    PlainHasNoEnd(path);
    PlainHasNoEnd(query);
    MarksAreNoEnd();
    FollowersEnd(rest);
    NoEndAppend("/", path);
    NoEndAppend(mark, query);
    var full, q := "/" + path, mark + query;
    NoEndAppend(full, q);
    NoEndAppend(host, full + q);
    NoEndAppend("@", host + (full + q));
    NoEndAppend(user, "@" + (host + (full + q)));
    PathByLetters(path);
    CredentialsGo(user, host + (full + q));
    HostAndPathSurvive(host, full, q);
    MessageScrubbed(scheme, user + ("@" + (host + (full + q))), rest);
  }

  lemma PathByLetters(path: string)
    requires PlainPart(path)
    ensures IsPath("/" + path)
  {
  }
}

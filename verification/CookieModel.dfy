/** The cookie jar of cwmpd_cookie.c as an ordered list of name/value pairs. */
module CookieModel {
  import opened Common
  import opened CString

  datatype Cookie = Cookie(name: string, value: string)

  // ----- One token of a Set-Cookie header -----

  /** Where the first `c` is, or the length. */
  function IndexOf(s: string, c: char): (n: nat)
    ensures n <= |s| && (n < |s| ==> s[n] == c)
    ensures c !in s[..n]
  {
    TokenLength(s, c)
  }

  function SkipSpaces(s: string): (n: nat)
    ensures n <= |s|
    ensures forall k :: 0 <= k < n ==> s[k] == ' '
    ensures n < |s| ==> s[n] != ' '
  {
    if s != "" && s[0] == ' ' then 1 + SkipSpaces(s[1..]) else 0
  }

  function Lower(c: char): (r: char) {
    if 'A' <= c <= 'Z' then (c as int + 32) as char else c
  }

  /** strncasecmp(name, word, |name|) == 0 for a `name` without NUL. */
  predicate PrefixIgnoringCase(name: string, word: string) {
    |name| <= |word| && forall k :: 0 <= k < |name| ==> Lower(name[k]) == Lower(word[k])
  }

  /** The attribute names the parser means to skip; it also skips everything that abbreviates one. */
  predicate Filtered(name: string) {
    || PrefixIgnoringCase(name, "Path")
    || PrefixIgnoringCase(name, "Max-Age")
    || PrefixIgnoringCase(name, "Expires")
    || PrefixIgnoringCase(name, "SameSite")
    || PrefixIgnoringCase(name, "Domain")
  }

  /** The cookie of that name, unless the name is one to skip. */
  function Unfiltered(name: string, value: string): (r: Option<Cookie>) {
    if Filtered(name) then None else Some(Cookie(name, value))
  }

  /** The cookie of a token whose name lies in [start, p). */
  function CutToken(token: string, start: nat, p: nat): (r: Option<Cookie>)
    requires p <= |token|
  {
    if p == |token| || start >= p then None else Unfiltered(token[start..p], token[p + 1..])
  }

  function ParseToken(token: string): (r: Option<Cookie>) {
    CutToken(token, SkipSpaces(token), IndexOf(token, '='))
  }

  /** The cookies set by the tokens, in order. */
  function Parsed(tokens: seq<string>): (r: seq<Cookie>) {
    if tokens == [] then []
    else (if ParseToken(tokens[0]).Some? then [ParseToken(tokens[0]).value] else []) + Parsed(tokens[1..])
  }

  lemma {:induction false} ParsedConcat(a: seq<string>, b: seq<string>)
    ensures Parsed(a + b) == Parsed(a) + Parsed(b)
  {
    if a == [] {
      assert a + b == b;
    } else {
      assert (a + b)[0] == a[0] && (a + b)[1..] == a[1..] + b;
      ParsedConcat(a[1..], b);
      var first := if ParseToken(a[0]).Some? then [ParseToken(a[0]).value] else [];
      assert first + (Parsed(a[1..]) + Parsed(b)) == (first + Parsed(a[1..])) + Parsed(b);
    }
  }

  // ----- The jar -----

  function Names(cookies: seq<Cookie>): (r: seq<string>)
    ensures |r| == |cookies|
    ensures forall k :: 0 <= k < |r| ==> r[k] == cookies[k].name
  {
    if cookies == [] then [] else [cookies[0].name] + Names(cookies[1..])
  }

  /** The position of the first cookie of that name, or the size of the jar. */
  function Find(jar: seq<Cookie>, name: string): (n: nat)
    ensures n <= |jar| && (n < |jar| ==> jar[n].name == name)
    ensures forall k :: 0 <= k < n ==> jar[k].name != name
  {
    Position(Names(jar), name)
  }

  /** Replace the value of a known name in place, append a new one. */
  function Put(jar: seq<Cookie>, c: Cookie): (r: seq<Cookie>) {
    var n := Find(jar, c.name);
    if n < |jar| then jar[n := c] else jar + [c]
  }

  function PutAll(jar: seq<Cookie>, cookies: seq<Cookie>): (r: seq<Cookie>)
    decreases |cookies|
  {
    if cookies == [] then jar else PutAll(Put(jar, cookies[0]), cookies[1..])
  }

  lemma {:induction false} PutAllConcat(jar: seq<Cookie>, a: seq<Cookie>, b: seq<Cookie>)
    ensures PutAll(jar, a + b) == PutAll(PutAll(jar, a), b)
    decreases |a|
  {
    if a == [] {
      assert a + b == b;
    } else {
      assert (a + b)[1..] == a[1..] + b;
      PutAllConcat(Put(jar, a[0]), a[1..], b);
    }
  }

  lemma OneParsed(jar: seq<Cookie>, token: string)
    ensures PutAll(jar, Parsed([token])) ==
            match ParseToken(token)
            case Some(c) => Put(jar, c)
            case None => jar
  {
    var none: seq<string> := [];
    assert [token][1..] == none;
    if ParseToken(token).Some? {
      var cookies := [ParseToken(token).value];
      assert Parsed([token]) == cookies && cookies[1..] == [];
      assert PutAll(jar, cookies) == PutAll(Put(jar, cookies[0]), []);
    }
  }

  /** The jar after a Set-Cookie header. */
  function Build(jar: seq<Cookie>, header: string): (r: seq<Cookie>) {
    PutAll(jar, Parsed(Tokens(header, ';')))
  }

  /** Two headers one after the other do what they do when joined by a semicolon. */
  lemma BuildIsHomomorphic(jar: seq<Cookie>, h1: string, h2: string)
    ensures Build(jar, h1 + ";" + h2) == Build(Build(jar, h1), h2)
  {
    TokensConcat(h1, h2, ';');
    ParsedConcat(Tokens(h1, ';'), Tokens(h2, ';'));
    PutAllConcat(jar, Parsed(Tokens(h1, ';')), Parsed(Tokens(h2, ';')));
  }

  // ----- Last writer wins, first come first listed -----

  /** The value a list of writes leaves for a name: that of the last one, else the old one. */
  function LastValue(cookies: seq<Cookie>, name: string, old_: Option<string>): (r: Option<string>) {
    if cookies == [] then old_
    else LastValue(cookies[1..], name, if cookies[0].name == name then Some(cookies[0].value) else old_)
  }

  function Lookup(jar: seq<Cookie>, name: string): (r: Option<string>) {
    var n := Find(jar, name);
    if n < |jar| then Some(jar[n].value) else None
  }

  /** A list of names without its repetitions, each kept where it first occurred, after those in `seen`. */
  function FirstOccurrences(seen: seq<string>, names: seq<string>): (r: seq<string>)
    decreases |names|
  {
    if names == [] then seen
    else FirstOccurrences(if names[0] in seen then seen else seen + [names[0]], names[1..])
  }

  lemma FindUnique(jar: seq<Cookie>, name: string, n: nat)
    requires n <= |jar| && (n < |jar| ==> jar[n].name == name) && forall k :: 0 <= k < n ==> jar[k].name != name
    ensures Find(jar, name) == n
  {
    PositionUnique(Names(jar), name, n);
  }

  lemma PutLookup(jar: seq<Cookie>, c: Cookie, name: string)
    ensures Lookup(Put(jar, c), name) == if name == c.name then Some(c.value) else Lookup(jar, name)
  {
    var n, m := Find(jar, c.name), Find(jar, name);
    FindUnique(Put(jar, c), name, if name == c.name || m < |jar| then m else |Put(jar, c)|);
  }

  lemma PutNames(jar: seq<Cookie>, c: Cookie)
    ensures Names(Put(jar, c)) == if c.name in Names(jar) then Names(jar) else Names(jar) + [c.name]
  {
    var n := Find(jar, c.name);
    assert n < |jar| ==> Names(jar)[n] == c.name;
    if c.name in Names(jar) {
      var k :| 0 <= k < |jar| && Names(jar)[k] == c.name;
      assert n <= k;
      assert Names(Put(jar, c)) == Names(jar);
    } else {
      assert Names(Put(jar, c)) == Names(jar) + [c.name];
    }
  }

  /** The jar is an ordered map: the last value written for each name, the names in order of first appearance. */
  lemma {:induction false} JarIsOrderedMap(jar: seq<Cookie>, cookies: seq<Cookie>, name: string)
    ensures Lookup(PutAll(jar, cookies), name) == LastValue(cookies, name, Lookup(jar, name))
    ensures Names(PutAll(jar, cookies)) == FirstOccurrences(Names(jar), Names(cookies))
    decreases |cookies|
  {
    if cookies != [] {
      PutLookup(jar, cookies[0], name);
      PutNames(jar, cookies[0]);
      assert Names(cookies)[1..] == Names(cookies[1..]);
      JarIsOrderedMap(Put(jar, cookies[0]), cookies[1..], name);
    }
  }

  // ----- Every jar that headers can produce -----

  ghost predicate GoodCookie(c: Cookie) {
    && c.name != "" && c.name[0] != ' ' && '=' !in c.name && ';' !in c.name && !Filtered(c.name)
    && ';' !in c.value
  }

  ghost predicate GoodJar(jar: seq<Cookie>) {
    && (forall k :: 0 <= k < |jar| ==> GoodCookie(jar[k]))
    && (forall i, j :: 0 <= i < j < |jar| ==> jar[i].name != jar[j].name)
  }

  lemma ParsedTokenGood(token: string)
    requires ';' !in token
    ensures ParseToken(token).Some? ==> GoodCookie(ParseToken(token).value)
  {
    if ParseToken(token).Some? {
      var p, start := IndexOf(token, '='), SkipSpaces(token);
      var name := token[start..p];
      assert forall k :: 0 <= k < |name| ==> name[k] == token[..p][start + k];
    }
  }

  lemma {:induction false} ParsedGood(tokens: seq<string>)
    requires forall k :: 0 <= k < |tokens| ==> ';' !in tokens[k]
    ensures forall k :: 0 <= k < |Parsed(tokens)| ==> GoodCookie(Parsed(tokens)[k])
  {
    if tokens != [] {
      ParsedTokenGood(tokens[0]);
      ParsedGood(tokens[1..]);
    }
  }

  lemma {:induction false} PutAllGood(jar: seq<Cookie>, cookies: seq<Cookie>)
    requires GoodJar(jar) && forall k :: 0 <= k < |cookies| ==> GoodCookie(cookies[k])
    ensures GoodJar(PutAll(jar, cookies))
    decreases |cookies|
  {
    if cookies != [] {
      PutAllGood(Put(jar, cookies[0]), cookies[1..]);
    }
  }

  lemma BuildKeepsGood(jar: seq<Cookie>, header: string)
    requires GoodJar(jar)
    ensures GoodJar(Build(jar, header))
  {
    TokensAreTokens(header, ';');
    ParsedGood(Tokens(header, ';'));
    PutAllGood(jar, Parsed(Tokens(header, ';')));
  }

  function BuildMany(headers: seq<string>): (r: seq<Cookie>) {
    if headers == [] then [] else Build(BuildMany(headers[..|headers| - 1]), headers[|headers| - 1])
  }

  lemma {:induction false} BuildManyGood(headers: seq<string>)
    ensures GoodJar(BuildMany(headers))
  {
    if headers != [] {
      BuildManyGood(headers[..|headers| - 1]);
      BuildKeepsGood(BuildMany(headers[..|headers| - 1]), headers[|headers| - 1]);
    }
  }

  // ----- Printing, and reading back what was printed -----

  function Printed(c: Cookie): (r: string) {
    c.name + "=" + c.value
  }

  /** The pairs joined by semicolons. */
  function ToString(jar: seq<Cookie>): (r: string) {
    if jar == [] then ""
    else if |jar| == 1 then Printed(jar[0])
    else ToString(jar[..|jar| - 1]) + ";" + Printed(jar[|jar| - 1])
  }

  function PrintedAll(jar: seq<Cookie>): (r: seq<string>) {
    if jar == [] then [] else PrintedAll(jar[..|jar| - 1]) + [Printed(jar[|jar| - 1])]
  }

  lemma PrintedIsOneToken(c: Cookie)
    requires GoodCookie(c)
    ensures Tokens(Printed(c), ';') == [Printed(c)]
  {
    assert Printed(c) + "" == Printed(c);
    TokensFirst(Printed(c), "", ';');
  }

  lemma {:induction false} PrintedTokens(jar: seq<Cookie>)
    requires GoodJar(jar)
    ensures Tokens(ToString(jar), ';') == PrintedAll(jar)
  {
    if jar != [] {
      var init, c := jar[..|jar| - 1], jar[|jar| - 1];
      PrintedIsOneToken(c);
      PrintedTokens(init);
      if |jar| == 1 {
        assert PrintedAll(init) == [];
      } else {
        TokensConcat(ToString(init), Printed(c), ';');
      }
    }
  }

  lemma ParsePrinted(c: Cookie)
    requires GoodCookie(c)
    ensures ParseToken(Printed(c)) == Some(c)
  {
    TokenLengthWhole(c.name, "=" + c.value, '=');
    assert Printed(c) == c.name + ("=" + c.value);
    assert Printed(c)[0] == c.name[0];
    assert SkipSpaces(Printed(c)) == 0;
    assert Printed(c)[..|c.name|] == c.name && Printed(c)[|c.name| + 1..] == c.value;
  }

  lemma {:induction false} ParsePrintedAll(jar: seq<Cookie>)
    requires GoodJar(jar)
    ensures Parsed(PrintedAll(jar)) == jar
  {
    if jar != [] {
      var init, c := jar[..|jar| - 1], jar[|jar| - 1];
      ParsePrintedAll(init);
      ParsePrinted(c);
      ParsedConcat(PrintedAll(init), [Printed(c)]);
      assert Parsed([Printed(c)]) == [c] by {
        assert [Printed(c)][1..] == [];
      }
    }
  }

  /** Cookies with names that differ are simply appended. */
  lemma {:induction false} PutAllFresh(jar: seq<Cookie>, cookies: seq<Cookie>)
    requires GoodJar(jar + cookies)
    ensures PutAll(jar, cookies) == jar + cookies
    decreases |cookies|
  {
    if cookies != [] {
      assert (jar + cookies)[|jar|] == cookies[0];
      assert forall k :: 0 <= k < |jar| ==> (jar + cookies)[k] == jar[k];
      FindUnique(jar, cookies[0].name, |jar|);
      assert jar + cookies == (jar + [cookies[0]]) + cookies[1..];
      PutAllFresh(jar + [cookies[0]], cookies[1..]);
    } else {
      assert jar + cookies == jar;
    }
  }

  /** Sending the jar back and parsing it gives the same jar, whatever headers built it. */
  lemma RoundTrip(headers: seq<string>)
    ensures Build([], ToString(BuildMany(headers))) == BuildMany(headers)
  {
    var jar := BuildMany(headers);
    BuildManyGood(headers);
    PrintedTokens(jar);
    ParsePrintedAll(jar);
    assert [] + jar == jar;
    PutAllFresh([], jar);
  }

  // ----- What the attribute filter costs -----

  /** A header that sets one cookie stores it exactly when its name does not abbreviate an attribute name. */
  lemma StoredIffNotFiltered(name: string, value: string)
    requires name != "" && name[0] != ' ' && '=' !in name && ';' !in name && ';' !in value
    ensures Build([], name + "=" + value) == if Filtered(name) then [] else [Cookie(name, value)]
  {
    var c := Cookie(name, value);
    assert GoodCookie(c) || Filtered(name);
    assert Printed(c) + "" == Printed(c);
    TokensFirst(Printed(c), "", ';');
    TokenLengthWhole(name, "=" + value, '=');
    assert Printed(c) == name + ("=" + value);
    assert Printed(c)[0] == name[0];
    assert SkipSpaces(Printed(c)) == 0;
    assert Printed(c)[..|name|] == name && Printed(c)[|name| + 1..] == value;
    assert ParseToken(Printed(c)) == if Filtered(name) then None else Some(c);
    var tokens := Tokens(Printed(c), ';');
    assert tokens == [Printed(c)] && tokens[1..] == [];
    assert Parsed(tokens) == if Filtered(name) then [] else [c];
    PutAllFresh([], Parsed(tokens));
    assert [] + Parsed(tokens) == Parsed(tokens);
  }

  /**
   * Spaces before the '=' are part of the name. As no attribute name has one, such a name is never
   * filtered, not even that of an attribute.
   */
  lemma SpaceBeforeEqualsStays(name: string, value: string)
    requires name != "" && name[0] != ' ' && '=' !in name && ';' !in name && ';' !in value
    ensures Build([], name + " =" + value) == [Cookie(name + " ", value)]
  {
    var spaced := name + " ";
    assert spaced[|name|] == ' ' && Lower(' ') == ' ';
    assert !Filtered(spaced) by {
      assert forall k :: 0 <= k < |"SameSite"| ==> "SameSite"[k] != ' ';
    }
    StoredIffNotFiltered(spaced, value);
    assert name + " =" + value == spaced + "=" + value;
  }

  /** Past the leading spaces of a token with an '=' there is still that '=', so the search for it cannot fail. */
  lemma EqualsIsFoundAgain(token: string)
    requires IndexOf(token, '=') < |token|
    ensures SkipSpaces(token) <= IndexOf(token, '=')
    ensures IndexOf(token[SkipSpaces(token)..], '=') == IndexOf(token, '=') - SkipSpaces(token) < |token[SkipSpaces(token)..]|
  {
    var start, p := SkipSpaces(token), IndexOf(token, '=');
    assert token[p] == '=' && start <= p;
    assert token[..p][start..] == token[start..p];
    assert token[start..] == token[start..p] + token[p..];
    TokenLengthWhole(token[start..p], token[p..], '=');
  }

  lemma ShortNameIsLost(name: string, header: string, value: string)
    requires name != "" && name[0] != ' ' && '=' !in name && ';' !in name && ';' !in value && Filtered(name)
    requires header == name + "=" + value
    ensures Build([], header) == []
  {
    StoredIffNotFiltered(name, value);
  }

  /** A session cookie named "P" or "exp" never reaches the jar. */
  lemma ShortNamesAreLost(value: string)
    requires ';' !in value
    ensures Build([], "P=" + value) == [] && Build([], "exp=" + value) == []
  {
    assert Filtered("P") by {
      assert PrefixIgnoringCase("P", "Path");
    }
    assert Filtered("exp") by {
      assert PrefixIgnoringCase("exp", "Expires");
    }
    ShortNameIsLost("P", "P=" + value, value);
    ShortNameIsLost("exp", "exp=" + value, value);
  }
}

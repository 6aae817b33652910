/** What one cookie of a header does to the jar, and what a jar is printed as, character by character. */
module CookieHeaders {
  import opened Common
  import opened CString
  import opened CookieModel

  /** `lower` and `upper` are one word in small and in capital letters; `name` is a beginning of it in any mixture. */
  predicate Abbreviates(name: string, lower: string, upper: string) {
    |name| <= |lower| == |upper| && forall k :: 0 <= k < |name| ==> name[k] == lower[k] || name[k] == upper[k]
  }

  /** The name of an attribute, or an abbreviation of one. */
  predicate NamesAttribute(name: string) {
    || Abbreviates(name, "path", "PATH")
    || Abbreviates(name, "max-age", "MAX-AGE")
    || Abbreviates(name, "expires", "EXPIRES")
    || Abbreviates(name, "samesite", "SAMESITE")
    || Abbreviates(name, "domain", "DOMAIN")
  }

  /** A word in its usual spelling, and in small and in capital letters. */
  predicate Spellings(word: string, lower: string, upper: string) {
    && |word| == |lower| == |upper|
    && forall k :: 0 <= k < |word| ==>
         && word[k] in {lower[k], upper[k]} && Lower(lower[k]) == Lower(upper[k]) == lower[k]
         && (if 'a' <= lower[k] <= 'z' then upper[k] as int + 32 == lower[k] as int else upper[k] == lower[k])
  }

  lemma AbbreviatesIff(name: string, word: string, lower: string, upper: string)
    requires Spellings(word, lower, upper)
    ensures PrefixIgnoringCase(name, word) <==> Abbreviates(name, lower, upper)
  {
    if |name| <= |word| {
      forall k | 0 <= k < |name|
        ensures Lower(name[k]) == Lower(word[k]) <==> name[k] == lower[k] || name[k] == upper[k]
      {
        assert word[k] in {lower[k], upper[k]};
      }
    }
  }

  lemma FilteredIff(name: string)
    ensures Filtered(name) <==> NamesAttribute(name)
  {
    AbbreviatesIff(name, "Path", "path", "PATH");
    AbbreviatesIff(name, "Max-Age", "max-age", "MAX-AGE");
    AbbreviatesIff(name, "Expires", "expires", "EXPIRES");
    AbbreviatesIff(name, "SameSite", "samesite", "SAMESITE");
    AbbreviatesIff(name, "Domain", "domain", "DOMAIN");
  }

  ghost predicate Blank(spaces: string) {
    forall k :: 0 <= k < |spaces| ==> spaces[k] == ' '
  }

  lemma {:induction false} SpacesAreSkipped(spaces: string, rest: string)
    requires Blank(spaces) && (rest == "" || rest[0] != ' ')
    ensures SkipSpaces(spaces + rest) == |spaces|
  {
    if spaces == "" {
      assert spaces + rest == rest;
    } else {
      assert (spaces + rest)[0] == ' ' && (spaces + rest)[1..] == spaces[1..] + rest;
      SpacesAreSkipped(spaces[1..], rest);
    }
  }

  lemma TokenIsCut(spaces: string, name: string, value: string)
    requires Blank(spaces) && '=' !in name && (name == "" || name[0] != ' ')
    ensures ParseToken(spaces + name + "=" + value) == if name == "" then None else Unfiltered(name, value)
  {
    var token := spaces + name + "=" + value;
    assert token == spaces + (name + "=" + value) && token == (spaces + name) + ("=" + value);
    SpacesAreSkipped(spaces, name + "=" + value);
    TokenLengthWhole(spaces + name, "=" + value, '=');
    assert token[|spaces|..|spaces + name|] == name && token[|spaces + name| + 1..] == value;
  }

  lemma OneToken(jar: seq<Cookie>, token: string)
    requires token != "" && ';' !in token
    ensures Build(jar, token) == match ParseToken(token) case Some(c) => Put(jar, c) case None => jar
  {
    assert token + "" == token;
    TokensFirst(token, "", ';');
    OneParsed(jar, token);
  }

  /**
   * A header with one cookie, whatever spaces stand before it: it is put into the jar unless its
   * name is empty, or is that of an attribute or an abbreviation of one.
   */
  lemma HeaderSetsOne(jar: seq<Cookie>, spaces: string, name: string, value: string)
    requires Blank(spaces) && '=' !in name && (name == "" || name[0] != ' ') && ';' !in name && ';' !in value
    ensures Build(jar, spaces + name + "=" + value) ==
            if name == "" || NamesAttribute(name) then jar else Put(jar, Cookie(name, value))
  {
    FilteredIff(name);
    TokenIsCut(spaces, name, value);
    OneToken(jar, spaces + name + "=" + value);
  }

  /** A header without an equals sign changes nothing. */
  lemma HeaderWithoutEquals(jar: seq<Cookie>, header: string)
    requires '=' !in header && ';' !in header
    ensures Build(jar, header) == jar
  {
    if header != "" {
      assert header + "" == header;
      TokenLengthWhole(header, "", '=');
      OneToken(jar, header);
    }
  }

  /** What is sent: name and value with an equals sign between them, and one semicolon, no space, between two cookies. */
  lemma {:induction false} PrintedForm(a: seq<Cookie>, b: seq<Cookie>, c: Cookie)
    ensures ToString([c]) == c.name + "=" + c.value
    ensures a != [] && b != [] ==> ToString(a + b) == ToString(a) + ";" + ToString(b)
    decreases |b|
  {
    if a != [] && b != [] {
      var n := |b| - 1;
      assert (a + b)[..|a + b| - 1] == a + b[..n] && (a + b)[|a + b| - 1] == b[n];
      if n == 0 {
        assert a + b[..0] == a;
      } else {
        PrintedForm(a, b[..n], c);
        assert ToString(a) + ";" + ToString(b[..n]) + ";" + Printed(b[n]) == ToString(a) + ";" + (ToString(b[..n]) + ";" + Printed(b[n]));
      }
    }
  }
}

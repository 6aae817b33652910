/** The cookie jar as it is written: a strtok loop over a mutable header, a list updated in place. */
module CookieJar {
  import opened Common
  import opened CString
  import opened CookieModel

  class Jar {
    var cookies: seq<Cookie>

    constructor ()
      ensures cookies == []
    {
      cookies := [];
    }

    method Search(name: string) returns (n: nat)
      ensures n == Find(cookies, name)
    {
      n := 0;
      while n < |cookies| && cookies[n].name != name
        invariant 0 <= n <= |cookies|
        invariant forall k :: 0 <= k < n ==> cookies[k].name != name
      {
        n := n + 1;
      }
      FindUnique(cookies, name, n);
    }

    method Store(name: string, value: string)
      modifies this
      ensures cookies == Put(old(cookies), Cookie(name, value))
    {
      var n := Search(name);
      if n < |cookies| {
        cookies := cookies[n := cookies[n].(value := value)];
      } else {
        cookies := cookies + [Cookie(name, value)];
      }
    }

    /** The first '=' of a token, or its end. */
    method StrChr(buffer: array<char>, tok: nat, end: nat) returns (p: nat)
      requires tok <= end < buffer.Length
      ensures tok <= p <= end && p - tok == IndexOf(buffer[tok..end], '=') && (p < end ==> buffer[p] == '=')
    {
      p := StrCSpn(buffer, end, tok, '=');
      assert buffer[tok..end] == buffer[tok..p] + buffer[p..end];
      TokenLengthWhole(buffer[tok..p], buffer[p..end], '=');
    }

    /** Skip the spaces at the start of a token, which has an '=' at `p`; spaces before the '=' are not skipped. */
    method SkipBlanks(buffer: array<char>, tok: nat, p: nat, end: nat) returns (start: nat)
      requires tok <= p < end <= buffer.Length && buffer[p] == '='
      ensures tok <= start <= p && start - tok == SkipSpaces(buffer[tok..end])
    {
      start := tok;
      assert buffer[p] != ' ';
      while buffer[start] == ' '
        invariant tok <= start <= p
        invariant forall k :: tok <= k < start ==> buffer[k] == ' '
        decreases p - start
      {
        start := start + 1;
      }
      ghost var token := buffer[tok..end];
      assert forall k :: 0 <= k < start - tok ==> token[k] == buffer[tok + k];
      SkipSpacesUnique(token, start - tok);
    }

    /** One token of the header, buffer[tok..end]; an accepted name is cut off with a NUL. */
    method BuildToken(buffer: array<char>, tok: nat, end: nat)
      requires tok < end < buffer.Length
      modifies this, buffer
      ensures cookies == PutAll(old(cookies), Parsed([old(buffer[tok..end])]))
      ensures forall k :: end <= k < buffer.Length ==> buffer[k] == old(buffer[k])
    {
      OneParsed(cookies, buffer[tok..end]);
      var p := StrChr(buffer, tok, end);
      if p < end {
        var start := SkipBlanks(buffer, tok, p, end);
        ParsedAt(buffer, tok, start, p, end);
        var name := buffer[start..p];
        if start < p && !Filtered(name) {
          ghost var value := buffer[p + 1..end];
          buffer[p] := '\0';
          assert buffer[p + 1..end] == value;
          Store(name, buffer[p + 1..end]);
        }
      }
    }

    /** Handle the k-th token of the header and fetch the next one. */
    method BuildNext(buffer: array<char>, length: nat, tok: nat, end: nat, next: nat, ghost tokens: seq<string>, ghost k: nat)
        returns (found: bool, tok': nat, end': nat, next': nat)
      requires tok < end <= next <= length < buffer.Length && k < |tokens|
      requires buffer[tok..end] == tokens[k] && Tokens(buffer[next..length], ';') == tokens[k + 1..]
      modifies this, buffer
      ensures cookies == PutAll(old(cookies), Parsed([tokens[k]]))
      ensures found <==> k + 1 < |tokens|
      ensures found ==> tok' < end' <= next' <= length
      ensures found ==> buffer[tok'..end'] == tokens[k + 1] && Tokens(buffer[next'..length], ';') == tokens[k + 2..]
    {
      ghost var left := buffer[next..length];
      BuildToken(buffer, tok, end);
      assert buffer[next..length] == left;
      found, tok', end', next' := NextTok(buffer, length, next, ';', tokens, k + 1);
    }

    /** The header is the text in the buffer up to its NUL. The result is -1 for an empty header, else 0. */
    method BuildFrom(buffer: array<char>, length: nat) returns (retval: int)
      requires length < buffer.Length
      modifies this, buffer
      ensures cookies == Build(old(cookies), old(buffer[..length]))
      ensures retval == if length == 0 then -1 else 0
    {
      if length == 0 {
        return -1;
      }
      ghost var header := buffer[..length];
      assert buffer[0..length] == header;
      ghost var tokens := Tokens(header, ';');
      ghost var k := 0;
      var found, tok, end, next := StrTok(buffer, length, 0, ';');
      while found
        invariant 0 <= k <= |tokens| && (found <==> k < |tokens|)
        invariant found ==> 0 <= tok < end <= next <= length
        invariant found ==> buffer[tok..end] == tokens[k] && Tokens(buffer[next..length], ';') == tokens[k + 1..]
        invariant cookies == PutAll(old(cookies), Parsed(tokens[..k]))
        decreases |tokens| - k
      {
        NextToken(old(cookies), tokens, k);
        found, tok, end, next := BuildNext(buffer, length, tok, end, next, tokens, k);
        k := k + 1;
      }
      assert tokens[..k] == tokens;
      retval := 0;
    }

    /** The Cookie header to send; nothing for an empty jar. */
    method Print() returns (text: Option<string>)
      ensures text == if cookies == [] then None else Some(ToString(cookies))
    {
      if cookies == [] {
        return None;
      }
      var buffer := "";
      for i := 0 to |cookies|
        invariant buffer == ToString(cookies[..i]) && (i > 0 ==> buffer != "")
      {
        assert cookies[..i + 1][..i] == cookies[..i];
        assert cookies[..0] == [];
        var pair := cookies[i].name + "=" + cookies[i].value;
        buffer := if buffer == "" then pair else buffer + ";" + pair;
      }
      assert cookies[..|cookies|] == cookies;
      text := Some(buffer);
    }
  }

  lemma {:induction false} SkipSpacesUnique(s: string, n: nat)
    requires n <= |s| && (n < |s| ==> s[n] != ' ') && forall k :: 0 <= k < n ==> s[k] == ' '
    ensures SkipSpaces(s) == n
  {
    if n > 0 {
      SkipSpacesUnique(s[1..], n - 1);
    }
  }

  lemma SubSlice(s: string, a: nat, b: nat, c: nat, d: nat)
    requires a <= b <= c <= d <= |s|
    ensures s[a..d][b - a..c - a] == s[b..c]
  {
    forall k | 0 <= k < c - b
      ensures s[a..d][b - a..c - a][k] == s[b..c][k]
    {
      assert s[a..d][b - a + k] == s[b + k];
    }
  }

  lemma CutOfSlice(s: string, tok: nat, start: nat, p: nat, end: nat)
    requires tok <= start <= p < end <= |s|
    ensures CutToken(s[tok..end], start - tok, p - tok) ==
            if start == p then None else Unfiltered(s[start..p], s[p + 1..end])
  {
    SubSlice(s, tok, start, p, end);
    SubSlice(s, tok, p + 1, end, end);
  }

  lemma ParsedByCut(token: string, start: nat, p: nat)
    requires p == IndexOf(token, '=') && start == SkipSpaces(token)
    ensures ParseToken(token) == CutToken(token, start, p)
  {
  }

  lemma ParsedSlice(s: string, tok: nat, start: nat, p: nat, end: nat)
    requires tok <= start <= p < end <= |s|
    requires p - tok == IndexOf(s[tok..end], '=') && start - tok == SkipSpaces(s[tok..end])
    ensures ParseToken(s[tok..end]) == if start == p then None else Unfiltered(s[start..p], s[p + 1..end])
  {
    ParsedByCut(s[tok..end], start - tok, p - tok);
    CutOfSlice(s, tok, start, p, end);
  }

  /** What a token split at `start` and `p` parses to. */
  lemma ParsedAt(buffer: array<char>, tok: nat, start: nat, p: nat, end: nat)
    requires tok <= start <= p < end <= buffer.Length
    requires p - tok == IndexOf(buffer[tok..end], '=') && start - tok == SkipSpaces(buffer[tok..end])
    ensures ParseToken(buffer[tok..end]) ==
            if start == p then None else Unfiltered(buffer[start..p], buffer[p + 1..end])
  {
    var s := buffer[..];
    assert buffer[tok..end] == s[tok..end] && buffer[start..p] == s[start..p] && buffer[p + 1..end] == s[p + 1..end];
    ParsedSlice(s, tok, start, p, end);
  }

  lemma NextToken(jar: seq<Cookie>, tokens: seq<string>, k: nat)
    requires k < |tokens|
    ensures PutAll(jar, Parsed(tokens[..k + 1])) == PutAll(PutAll(jar, Parsed(tokens[..k])), Parsed([tokens[k]]))
  {
    assert tokens[..k + 1] == tokens[..k] + [tokens[k]];
    ParsedConcat(tokens[..k], [tokens[k]]);
    PutAllConcat(jar, Parsed(tokens[..k]), Parsed([tokens[k]]));
  }
}

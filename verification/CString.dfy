/** strtok on a NUL-terminated buffer, and what it yields as a sequence of tokens. */
module CString {
  /** Where the token at the start of `s` ends. */
  function TokenLength(s: string, d: char): (n: nat)
    ensures n <= |s| && (n < |s| ==> s[n] == d)
    ensures d !in s[..n]
  {
    if s == "" || s[0] == d then 0
    else
      var n := TokenLength(s[1..], d);
      assert s[..n + 1] == [s[0]] + s[1..][..n];
      n + 1
  }

  /** The maximal non-empty runs without the delimiter. */
  function Tokens(s: string, d: char): (r: seq<string>)
    decreases |s|
  {
    if s == "" then []
    else if s[0] == d then Tokens(s[1..], d)
    else [s[..TokenLength(s, d)]] + Tokens(s[TokenLength(s, d)..], d)
  }

  lemma {:induction false} TokensAreTokens(s: string, d: char)
    ensures forall k :: 0 <= k < |Tokens(s, d)| ==> Tokens(s, d)[k] != "" && d !in Tokens(s, d)[k]
    decreases |s|
  {
    if s == "" {
    } else if s[0] == d {
      TokensAreTokens(s[1..], d);
    } else {
      TokensAreTokens(s[TokenLength(s, d)..], d);
    }
  }

  /** A string without the delimiter is one token. */
  lemma {:induction false} TokenLengthWhole(a: string, rest: string, d: char)
    requires d !in a && (rest == "" || rest[0] == d)
    ensures TokenLength(a + rest, d) == |a|
  {
    if a == "" {
      assert a + rest == rest;
    } else {
      assert (a + rest)[1..] == a[1..] + rest;
      TokenLengthWhole(a[1..], rest, d);
    }
  }

  lemma TokensFirst(a: string, rest: string, d: char)
    requires a != "" && d !in a && (rest == "" || rest[0] == d)
    ensures Tokens(a + rest, d) == [a] + Tokens(rest, d)
  {
    TokenLengthWhole(a, rest, d);
    assert (a + rest)[0] == a[0];
    assert (a + rest)[..|a|] == a && (a + rest)[|a|..] == rest;
  }

  lemma TokensSkip(s: string, d: char)
    requires s != "" && s[0] == d
    ensures Tokens(s, d) == Tokens(s[1..], d)
  {
  }

  lemma Regroup(first: string, rest: string, delimiter: string, b: string)
    ensures first + rest + delimiter + b == first + (rest + delimiter + b)
  {
  }

  lemma FirstThenJoined(first: string, rest: string, b: string, d: char)
    requires first != "" && d !in first && (rest == "" || rest[0] == d)
    requires Tokens(rest + [d] + b, d) == Tokens(rest, d) + Tokens(b, d)
    ensures Tokens(first + rest + [d] + b, d) == Tokens(first + rest, d) + Tokens(b, d)
  {
    TokensFirst(first, rest + [d] + b, d);
    TokensFirst(first, rest, d);
    Regroup(first, rest, [d], b);
  }

  /** Joining two texts with a delimiter joins their tokens. */
  lemma {:induction false} TokensConcat(a: string, b: string, d: char)
    ensures Tokens(a + [d] + b, d) == Tokens(a, d) + Tokens(b, d)
    decreases |a|
  {
    var s := a + [d] + b;
    if a == "" {
      TokensSkip(s, d);
      assert s[1..] == b;
    } else if a[0] == d {
      TokensSkip(s, d);
      TokensSkip(a, d);
      assert s[1..] == a[1..] + [d] + b;
      TokensConcat(a[1..], b, d);
    } else {
      var n := TokenLength(a, d);
      var first, rest := a[..n], a[n..];
      TokensConcat(rest, b, d);
      assert a == first + rest;
      FirstThenJoined(first, rest, b, d);
    }
  }

  /** strspn: past the delimiters at `pos`. */
  method StrSpn(buffer: array<char>, length: nat, pos: nat, d: char) returns (start: nat)
    requires pos <= length < buffer.Length
    ensures pos <= start <= length && (start < length ==> buffer[start] != d)
    ensures Tokens(buffer[start..length], d) == Tokens(buffer[pos..length], d)
  {
    start := pos;
    while start < length && buffer[start] == d
      invariant pos <= start <= length
      invariant Tokens(buffer[start..length], d) == Tokens(buffer[pos..length], d)
    {
      assert buffer[start..length][1..] == buffer[start + 1..length];
      start := start + 1;
    }
  }

  /** strcspn: up to the next delimiter. */
  method StrCSpn(buffer: array<char>, length: nat, start: nat, d: char) returns (end: nat)
    requires start <= length < buffer.Length
    ensures start <= end <= length && d !in buffer[start..end] && (end < length ==> buffer[end] == d)
  {
    end := start;
    while end < length && buffer[end] != d
      invariant start <= end <= length
      invariant d !in buffer[start..end]
    {
      assert buffer[start..end + 1] == buffer[start..end] + [buffer[end]];
      end := end + 1;
    }
  }

  lemma TokensSplit(buffer: array<char>, start: nat, end: nat, next: nat, length: nat, d: char)
    requires start < end <= next <= length <= buffer.Length && d !in buffer[start..end]
    requires if end < length then buffer[end] == d && next == end + 1 else next == end
    ensures Tokens(buffer[start..length], d) == [buffer[start..end]] + Tokens(buffer[next..length], d)
  {
    var rest := buffer[end..length];
    assert buffer[start..length] == buffer[start..end] + rest;
    TokensFirst(buffer[start..end], rest, d);
    assert end < length ==> rest[1..] == buffer[next..length];
  }

  /**
   * strtok(buffer + pos, d) on a text of `length` characters: the token found is
   * buffer[start..end], and the scan goes on at `next`. The delimiter after it becomes NUL.
   */
  method StrTok(buffer: array<char>, length: nat, pos: nat, d: char) returns (found: bool, start: nat, end: nat, next: nat)
    requires pos <= length < buffer.Length
    modifies buffer
    ensures found <==> Tokens(old(buffer[pos..length]), d) != []
    ensures found ==>
              && pos <= start < end <= next <= length
              && buffer[start..end] == old(buffer[start..end]) == Tokens(old(buffer[pos..length]), d)[0]
              && buffer[next..length] == old(buffer[next..length])
              && Tokens(buffer[next..length], d) == Tokens(old(buffer[pos..length]), d)[1..]
  {
    ghost var tokens := Tokens(buffer[pos..length], d);
    start := StrSpn(buffer, length, pos, d);
    found, end, next := false, start, start;
    if start == length {
      return;
    }
    found := true;
    end := StrCSpn(buffer, length, start, d);
    next := if end < length then end + 1 else end;
    ghost var token, rest := buffer[start..end], buffer[next..length];
    TokensSplit(buffer, start, end, next, length, d);
    assert ([token] + Tokens(rest, d))[1..] == Tokens(rest, d);
    if end < length {
      buffer[end] := '\0';
    }
    assert buffer[start..end] == token && buffer[next..length] == rest;
  }

  /** One turn of a strtok loop over all tokens of a text: the k-th token, if there is one. */
  method NextTok(buffer: array<char>, length: nat, pos: nat, d: char, ghost tokens: seq<string>, ghost k: nat)
      returns (found: bool, start: nat, end: nat, next: nat)
    requires pos <= length < buffer.Length && k <= |tokens| && Tokens(buffer[pos..length], d) == tokens[k..]
    modifies buffer
    ensures found <==> k < |tokens|
    ensures found ==> pos <= start < end <= next <= length && buffer[start..end] == tokens[k]
    ensures found ==> Tokens(buffer[next..length], d) == tokens[k + 1..]
  {
    found, start, end, next := StrTok(buffer, length, pos, d);
    assert k < |tokens| ==> tokens[k..][0] == tokens[k] && tokens[k..][1..] == tokens[k + 1..];
  }
}

/** Putting the aliases of an ACS path back into a path that the bus answered with instance numbers (DM_AmxCommon.c). */
module AliasPaths {
  import opened CString

  /** `index` counts the elements of the path from 0. */
  datatype AliasEntry = AliasEntry(index: nat, alias: string)

  datatype AliasList = AliasList(entries: seq<AliasEntry>, totalLength: nat)

  predicate IsAlias(token: string) {
    |token| >= 3 && token[0] == '[' && token[|token| - 1] == ']'
  }

  /** The aliases among the first `n` elements. */
  function AliasesOf(tokens: seq<string>, n: nat): (r: seq<AliasEntry>)
    requires n <= |tokens|
  {
    if n == 0 then []
    else AliasesOf(tokens, n - 1) + if IsAlias(tokens[n - 1]) then [AliasEntry(n - 1, tokens[n - 1])] else []
  }

  function TotalLength(entries: seq<AliasEntry>): (r: nat) {
    if entries == [] then 0 else |entries[0].alias| + TotalLength(entries[1..])
  }

  lemma {:induction false} TotalLengthAppend(entries: seq<AliasEntry>, e: AliasEntry)
    ensures TotalLength(entries + [e]) == TotalLength(entries) + |e.alias|
  {
    if entries == [] {
      assert entries + [e] == [e];
      assert [e][1..] == [];
    } else {
      assert (entries + [e])[1..] == entries[1..] + [e];
      TotalLengthAppend(entries[1..], e);
    }
  }

  /** The first entry for an element wins; an element without one stays. */
  function Replacement(entries: seq<AliasEntry>, index: nat, token: string): (r: string) {
    if entries == [] then token
    else if entries[0].index == index then entries[0].alias
    else Replacement(entries[1..], index, token)
  }

  function Rewritten(entries: seq<AliasEntry>, tokens: seq<string>, n: nat): (r: seq<string>)
    requires n <= |tokens|
    ensures |r| == n
    ensures forall k :: 0 <= k < n ==> r[k] == Replacement(entries, k, tokens[k])
  {
    if n == 0 then [] else Rewritten(entries, tokens, n - 1) + [Replacement(entries, n - 1, tokens[n - 1])]
  }

  /** The elements with dots between them, and one at the end for a partial path. */
  function Dotted(tokens: seq<string>, partial: bool): (r: string) {
    if tokens == [] then ""
    else if |tokens| == 1 then tokens[0] + (if partial then "." else "")
    else tokens[0] + "." + Dotted(tokens[1..], partial)
  }

  predicate IsPartial(path: string) {
    path != "" && path[|path| - 1] == '.'
  }

  function ModifiedPath(path: string, entries: seq<AliasEntry>): (r: string) {
    var tokens := Tokens(path, '.');
    Dotted(Rewritten(entries, tokens, |tokens|), IsPartial(path))
  }

  // ----- The result fits the buffer -----

  /** Room for the elements, each followed by a dot. */
  function Width(tokens: seq<string>): (r: nat) {
    if tokens == [] then 0 else |tokens[0]| + 1 + Width(tokens[1..])
  }

  lemma {:induction false} WidthOfPath(path: string)
    ensures Width(Tokens(path, '.')) <= |path| + 1
    ensures IsPartial(path) ==> Width(Tokens(path, '.')) <= |path|
    decreases |path|
  {
    if path == "" {
    } else if path[0] == '.' {
      WidthOfPath(path[1..]);
    } else {
      var n := TokenLength(path, '.');
      var rest := path[n..];
      assert Tokens(path, '.') == [path[..n]] + Tokens(rest, '.');
      assert Tokens(path, '.')[1..] == Tokens(rest, '.');
      if rest != "" {
        WidthOfPath(rest[1..]);
      }
    }
  }

  lemma {:induction false} DottedLength(tokens: seq<string>, partial: bool)
    requires tokens != []
    ensures |Dotted(tokens, partial)| == Width(tokens) - if partial then 0 else 1
  {
    if |tokens| > 1 {
      DottedLength(tokens[1..], partial);
    }
  }

  /** What the entries can add to the first `n` elements. */
  function Added(entries: seq<AliasEntry>, n: nat): (r: nat) {
    if n == 0 then 0 else Added(entries, n - 1) + |Replacement(entries, n - 1, "")|
  }

  lemma {:induction false} AddedByFirst(entries: seq<AliasEntry>, n: nat)
    requires entries != []
    ensures Added(entries, n) <= Added(entries[1..], n) + if entries[0].index < n then |entries[0].alias| else 0
  {
    if n > 0 {
      AddedByFirst(entries, n - 1);
    }
  }

  lemma {:induction false} AddedIsBounded(entries: seq<AliasEntry>, n: nat)
    ensures Added(entries, n) <= TotalLength(entries)
  {
    if entries == [] {
      AddedByNone(n);
    } else {
      AddedByFirst(entries, n);
      AddedIsBounded(entries[1..], n);
    }
  }

  lemma {:induction false} AddedByNone(n: nat)
    ensures Added([], n) == 0
  {
    if n > 0 {
      AddedByNone(n - 1);
    }
  }

  lemma {:induction false} WidthAppend(tokens: seq<string>, token: string)
    ensures Width(tokens + [token]) == Width(tokens) + |token| + 1
  {
    if tokens == [] {
      assert tokens + [token] == [token];
      assert [token][1..] == [];
    } else {
      assert (tokens + [token])[1..] == tokens[1..] + [token];
      WidthAppend(tokens[1..], token);
    }
  }

  lemma {:induction false} ReplacementLength(entries: seq<AliasEntry>, index: nat, token: string)
    ensures |Replacement(entries, index, token)| <= |token| + |Replacement(entries, index, "")|
  {
    if entries != [] && entries[0].index != index {
      ReplacementLength(entries[1..], index, token);
    }
  }

  lemma {:induction false} WidthOfRewritten(entries: seq<AliasEntry>, tokens: seq<string>, n: nat)
    requires n <= |tokens|
    ensures Width(Rewritten(entries, tokens, n)) <= Width(tokens[..n]) + Added(entries, n)
  {
    if n == 0 {
      assert tokens[..0] == [];
    } else {
      WidthOfRewritten(entries, tokens, n - 1);
      WidthAppend(Rewritten(entries, tokens, n - 1), Replacement(entries, n - 1, tokens[n - 1]));
      WidthAppend(tokens[..n - 1], tokens[n - 1]);
      assert tokens[..n - 1] + [tokens[n - 1]] == tokens[..n];
      ReplacementLength(entries, n - 1, tokens[n - 1]);
    }
  }

  /** The new path and its NUL fit in strlen(path) + total_alias_length + 1 characters, whatever the aliases. */
  lemma FitsBuffer(path: string, entries: seq<AliasEntry>)
    ensures |ModifiedPath(path, entries)| + 1 <= |path| + TotalLength(entries) + 1
  {
    var tokens := Tokens(path, '.');
    if tokens != [] {
      WidthOfPath(path);
      WidthOfRewritten(entries, tokens, |tokens|);
      assert tokens[..|tokens|] == tokens;
      AddedIsBounded(entries, |tokens|);
      DottedLength(Rewritten(entries, tokens, |tokens|), IsPartial(path));
    }
  }

  // ----- The loops over mutable buffers -----

  method CopyOf(path: string) returns (buffer: array<char>)
    ensures fresh(buffer) && buffer.Length == |path| + 1 && buffer[..|path|] == path
  {
    buffer := new char[|path| + 1](i requires 0 <= i <= |path| => if i < |path| then path[i] else '\0');
  }

  method AddIfAlias(list: AliasList, index: nat, token: string) returns (list': AliasList)
    requires list.totalLength == TotalLength(list.entries)
    ensures list'.entries == list.entries + if IsAlias(token) then [AliasEntry(index, token)] else []
    ensures list'.totalLength == TotalLength(list'.entries)
  {
    list' := list;
    if |token| >= 3 && token[0] == '[' && token[|token| - 1] == ']' {
      TotalLengthAppend(list.entries, AliasEntry(index, token));
      list' := AliasList(list.entries + [AliasEntry(index, token)], list.totalLength + |token|);
    }
  }

  /** Take up the index-th element if it is an alias, and fetch the next one. */
  method ExtractNext(list: AliasList, copy: array<char>, size: nat, start: nat, end: nat, next: nat, index: nat, ghost tokens: seq<string>)
      returns (list': AliasList, found: bool, start': nat, end': nat, next': nat)
    requires start <= end <= next <= size < copy.Length && index < |tokens|
    requires copy[start..end] == tokens[index] && Tokens(copy[next..size], '.') == tokens[index + 1..]
    requires list.entries == AliasesOf(tokens, index) && list.totalLength == TotalLength(list.entries)
    modifies copy
    ensures list'.entries == AliasesOf(tokens, index + 1) && list'.totalLength == TotalLength(list'.entries)
    ensures found <==> index + 1 < |tokens|
    ensures found ==> start' < end' <= next' <= size
    ensures found ==> copy[start'..end'] == tokens[index + 1] && Tokens(copy[next'..size], '.') == tokens[index + 2..]
  {
    list' := AddIfAlias(list, index, copy[start..end]);
    found, start', end', next' := NextTok(copy, size, next, '.', tokens, index + 1);
  }

  method ExtractAliases(path: string) returns (result: AliasList)
    ensures result.entries == AliasesOf(Tokens(path, '.'), |Tokens(path, '.')|)
    ensures result.totalLength == TotalLength(result.entries)
  {
    var copy := CopyOf(path);
    result := AliasList([], 0);
    var tokenIndex := 0;
    ghost var tokens := Tokens(path, '.');
    assert copy[0..|path|] == path && tokens[0..] == tokens;
    var found, start, end, next := NextTok(copy, |path|, 0, '.', tokens, 0);
    while found
      invariant 0 <= tokenIndex <= |tokens| && (found <==> tokenIndex < |tokens|)
      invariant found ==> 0 <= start < end <= next <= |path| && copy[start..end] == tokens[tokenIndex]
      invariant found ==> Tokens(copy[next..|path|], '.') == tokens[tokenIndex + 1..]
      invariant result.entries == AliasesOf(tokens, tokenIndex) && result.totalLength == TotalLength(result.entries)
      decreases |tokens| - tokenIndex
    {
      result, found, start, end, next := ExtractNext(result, copy, |path|, start, end, next, tokenIndex, tokens);
      tokenIndex := tokenIndex + 1;
    }
  }

  /** strcat onto a buffer that holds `length` characters and a NUL. */
  method StrCat(buffer: array<char>, length: nat, piece: string) returns (length': nat)
    requires length + |piece| < buffer.Length && buffer[length] == '\0'
    modifies buffer
    ensures length' == length + |piece|
    ensures buffer[..length'] == old(buffer[..length]) + piece && buffer[length'] == '\0'
  {
    for i := 0 to |piece|
      invariant buffer[..length + i] == old(buffer[..length]) + piece[..i]
    {
      buffer[length + i] := piece[i];
      assert buffer[..length + i + 1] == buffer[..length + i] + [piece[i]];
      assert piece[..i + 1] == piece[..i] + [piece[i]];
    }
    length' := length + |piece|;
    buffer[length'] := '\0';
    assert piece[..|piece|] == piece;
  }

  method FindReplacement(entries: seq<AliasEntry>, index: nat, token: string) returns (replacement: string)
    ensures replacement == Replacement(entries, index, token)
  {
    replacement := token;
    var i := 0;
    assert entries[0..] == entries;
    while i < |entries|
      invariant 0 <= i <= |entries| && replacement == token
      invariant Replacement(entries, index, token) == Replacement(entries[i..], index, token)
    {
      assert entries[i..][1..] == entries[i + 1..];
      if entries[i].index == index {
        replacement := entries[i].alias;
        return;
      }
      i := i + 1;
    }
  }

  /** What is appended for the k-th element, and what then remains. */
  lemma NextElement(elements: seq<string>, partial: bool, k: nat)
    requires k < |elements|
    ensures Dotted(elements[k..], partial) ==
            elements[k] + (if k + 1 < |elements| || partial then "." else "") + Dotted(elements[k + 1..], partial)
  {
    assert elements[k..][1..] == elements[k + 1..];
  }

  /** `buffer` holds the first part of `goal`, `rest` is what is still to come. */
  ghost predicate Holds(buffer: array<char>, length: nat, rest: string, goal: string)
    reads buffer
  {
    length + |rest| < buffer.Length && buffer[length] == '\0' && buffer[..length] + rest == goal
  }

  method AppendElement(buffer: array<char>, length: nat, piece: string, dot: bool, ghost rest: string, ghost goal: string) returns (length': nat)
    requires Holds(buffer, length, piece + (if dot then "." else "") + rest, goal)
    modifies buffer
    ensures Holds(buffer, length', rest, goal)
  {
    ghost var before := buffer[..length];
    length' := StrCat(buffer, length, piece);
    if dot {
      length' := StrCat(buffer, length', ".");
    }
    assert before + (piece + (if dot then "." else "") + rest) == before + piece + (if dot then "." else "") + rest;
  }

  /** Append the index-th element, or its alias, and fetch the next one. */
  method RewriteNext(entries: seq<AliasEntry>, copy: array<char>, size: nat, start: nat, end: nat, next: nat, index: nat, partial: bool,
                     buffer: array<char>, length: nat, ghost tokens: seq<string>, ghost elements: seq<string>, ghost goal: string)
      returns (found: bool, start': nat, end': nat, next': nat, length': nat)
    requires start <= end <= next <= size < copy.Length && copy != buffer && index < |tokens| == |elements|
    requires copy[start..end] == tokens[index] && Tokens(copy[next..size], '.') == tokens[index + 1..]
    requires elements[index] == Replacement(entries, index, tokens[index])
    requires Holds(buffer, length, Dotted(elements[index..], partial), goal)
    modifies copy, buffer
    ensures found <==> index + 1 < |tokens|
    ensures found ==> start' < end' <= next' <= size
    ensures found ==> copy[start'..end'] == tokens[index + 1] && Tokens(copy[next'..size], '.') == tokens[index + 2..]
    ensures Holds(buffer, length', Dotted(elements[index + 1..], partial), goal)
  {
    var replacement := FindReplacement(entries, index, copy[start..end]);
    found, start', end', next' := NextTok(copy, size, next, '.', tokens, index + 1);
    NextElement(elements, partial, index);
    length' := AppendElement(buffer, length, replacement, found || partial, Dotted(elements[index + 1..], partial), goal);
  }

  method ModifyPathWithAliases(path: string, aliases: AliasList) returns (newPath: string)
    requires path != "" && aliases.totalLength == TotalLength(aliases.entries)
    ensures newPath == ModifiedPath(path, aliases.entries)
  {
    var copy := CopyOf(path);
    var partial := path[|path| - 1] == '.';
    var buffer := new char[|path| + aliases.totalLength + 1];
    buffer[0] := '\0';
    var length, index := 0, 0;
    ghost var tokens := Tokens(path, '.');
    ghost var elements := Rewritten(aliases.entries, tokens, |tokens|);
    ghost var goal := Dotted(elements, partial);
    FitsBuffer(path, aliases.entries);
    assert copy[0..|path|] == path && tokens[0..] == tokens;
    assert elements[0..] == elements && buffer[..0] + goal == goal;
    var found, start, end, next := NextTok(copy, |path|, 0, '.', tokens, 0);
    while found
      invariant 0 <= length && 0 <= index <= |tokens| && (found <==> index < |tokens|)
      invariant found ==> 0 <= start < end <= next <= |path| && copy[start..end] == tokens[index]
      invariant found ==> Tokens(copy[next..|path|], '.') == tokens[index + 1..]
      invariant Holds(buffer, length, Dotted(elements[index..], partial), goal)
      decreases |tokens| - index
    {
      found, start, end, next, length := RewriteNext(aliases.entries, copy, |path|, start, end, next, index, partial, buffer, length, tokens, elements, goal);
      index := index + 1;
    }
    newPath := buffer[..length];
    assert newPath + "" == newPath;
  }

  // ----- Rewriting gives back the alias path -----

  lemma {:induction false} ReplacementOfOthers(entries: seq<AliasEntry>, index: nat, token: string)
    requires forall k :: 0 <= k < |entries| ==> entries[k].index != index
    ensures Replacement(entries, index, token) == token
  {
    if entries != [] {
      ReplacementOfOthers(entries[1..], index, token);
    }
  }

  lemma {:induction false} ReplacementConcat(a: seq<AliasEntry>, b: seq<AliasEntry>, index: nat, token: string)
    ensures Replacement(a + b, index, token) ==
            if exists k :: 0 <= k < |a| && a[k].index == index then Replacement(a, index, token) else Replacement(b, index, token)
  {
    if a == [] {
      assert a + b == b;
    } else {
      assert (a + b)[1..] == a[1..] + b;
      ReplacementConcat(a[1..], b, index, token);
      assert (exists k :: 0 <= k < |a[1..]| && a[1..][k].index == index) ==>
          exists k :: 0 <= k < |a| && a[k].index == index;
    }
  }

  lemma InOneMore(a: seq<AliasEntry>, more: bool, x: AliasEntry, e: AliasEntry)
    ensures e in a + (if more then [x] else []) <==> e in a || (more && e == x)
  {
  }

  lemma {:induction false} Extracted(tokens: seq<string>, n: nat, e: AliasEntry)
    requires n <= |tokens|
    ensures e in AliasesOf(tokens, n) <==> e.index < n && e == AliasEntry(e.index, tokens[e.index]) && IsAlias(tokens[e.index])
  {
    if n > 0 {
      Extracted(tokens, n - 1, e);
      InOneMore(AliasesOf(tokens, n - 1), IsAlias(tokens[n - 1]), AliasEntry(n - 1, tokens[n - 1]), e);
    }
  }

  /**
   * What is extracted from a path: every element in square brackets with something between them,
   * as it stands and with its place, and nothing else.
   */
  lemma ExtractedIff(path: string, e: AliasEntry)
    ensures var tokens := Tokens(path, '.');
            e in AliasesOf(tokens, |tokens|) <==>
            e.index < |tokens| && e.alias == tokens[e.index]
            && |e.alias| >= 3 && e.alias[0] == '[' && e.alias[|e.alias| - 1] == ']'
  {
    Extracted(Tokens(path, '.'), |Tokens(path, '.')|, e);
  }

  lemma {:induction false} AliasIndices(tokens: seq<string>, n: nat)
    requires n <= |tokens|
    ensures forall k :: 0 <= k < |AliasesOf(tokens, n)| ==> AliasesOf(tokens, n)[k].index < n
  {
    if n > 0 {
      AliasIndices(tokens, n - 1);
    }
  }

  /** Extracted aliases put themselves back, and touch no other element. */
  lemma {:induction false} ExtractedReplacement(tokens: seq<string>, n: nat, index: nat, token: string)
    requires n <= |tokens|
    ensures Replacement(AliasesOf(tokens, n), index, token) ==
            if index < n && IsAlias(tokens[index]) then tokens[index] else token
  {
    AliasIndices(tokens, n);
    if n > 0 {
      var last := if IsAlias(tokens[n - 1]) then [AliasEntry(n - 1, tokens[n - 1])] else [];
      AliasIndices(tokens, n - 1);
      ExtractedReplacement(tokens, n - 1, index, token);
      ReplacementConcat(AliasesOf(tokens, n - 1), last, index, token);
      if index == n - 1 {
        ReplacementOfOthers(AliasesOf(tokens, n - 1), index, token);
      } else {
        ReplacementOfOthers(last, index, token);
        var a := AliasesOf(tokens, n - 1);
        if !exists k :: 0 <= k < |a| && a[k].index == index {
          ReplacementOfOthers(a, index, token);
        }
      }
    }
  }

  /** Neither a leading dot nor two in a row. */
  ghost predicate Canonical(path: string) {
    && (path != "" ==> path[0] != '.')
    && forall k :: 0 <= k < |path| - 1 ==> !(path[k] == '.' && path[k + 1] == '.')
  }

  lemma DottedCons(a: string, rest: seq<string>, partial: bool)
    ensures Dotted([a] + rest, partial) ==
            if rest == [] then a + (if partial then "." else "") else a + "." + Dotted(rest, partial)
  {
    assert ([a] + rest)[1..] == rest;
  }

  /** What follows the first dot of a canonical path is canonical again. */
  lemma CanonicalRest(path: string, n: nat)
    requires Canonical(path) && n < |path| && path[n] == '.'
    ensures Canonical(path[n + 1..])
    ensures path[n + 1..] != "" ==> IsPartial(path[n + 1..]) == IsPartial(path)
  {
    var r := path[n + 1..];
    assert forall k :: 0 <= k < |r| ==> r[k] == path[n + 1 + k];
  }

  lemma TokensSome(path: string)
    requires path != "" && path[0] != '.'
    ensures Tokens(path, '.') == [path[..TokenLength(path, '.')]] + Tokens(path[TokenLength(path, '.')..], '.')
  {
  }

  /** The elements of a canonical path, dotted again, are the path. */
  lemma {:induction false} DottedTokens(path: string)
    requires Canonical(path)
    ensures Dotted(Tokens(path, '.'), IsPartial(path)) == path
    decreases |path|
  {
    if path != "" {
      var n := TokenLength(path, '.');
      var a := path[..n];
      TokensSome(path);
      if n == |path| {
        DottedCons(a, [], false);
        assert Tokens(path[n..], '.') == [];
        assert !IsPartial(path);
      } else {
        var r := path[n + 1..];
        assert path[n..][1..] == r;
        assert Tokens(path[n..], '.') == Tokens(r, '.');
        assert path == a + "." + r;
        CanonicalRest(path, n);
        DottedTokens(r);
        DottedCons(a, Tokens(r, '.'), IsPartial(path));
        if r != "" {
          TokensSome(r);
        }
      }
    }
  }

  /** `tokens` are the elements of an answer to a request for `asked`: the same up to aliases, and possibly more of them. */
  ghost predicate Answers(tokens: seq<string>, asked: seq<string>) {
    && |asked| <= |tokens|
    && forall k :: 0 <= k < |asked| && !IsAlias(asked[k]) ==> tokens[k] == asked[k]
  }

  /** Rewriting an answer with the aliases of the request gives the elements of the request, then those added. */
  lemma RewrittenAnswer(path: string, asked: string)
    requires Answers(Tokens(path, '.'), Tokens(asked, '.'))
    ensures var tokens, wanted := Tokens(path, '.'), Tokens(asked, '.');
            ModifiedPath(path, AliasesOf(wanted, |wanted|)) == Dotted(wanted + tokens[|wanted|..], IsPartial(path))
  {
    var tokens, wanted := Tokens(path, '.'), Tokens(asked, '.');
    var entries := AliasesOf(wanted, |wanted|);
    var r := Rewritten(entries, tokens, |tokens|);
    forall k | 0 <= k < |tokens|
      ensures r[k] == (wanted + tokens[|wanted|..])[k]
    {
      ExtractedReplacement(wanted, |wanted|, k, tokens[k]);
    }
    assert r == wanted + tokens[|wanted|..];
  }

  /** The request itself, answered with instance numbers in place of its aliases, comes back unchanged. */
  lemma AliasRoundTrip(path: string, asked: string)
    requires Canonical(asked) && IsPartial(path) == IsPartial(asked)
    requires Answers(Tokens(path, '.'), Tokens(asked, '.')) && |Tokens(path, '.')| == |Tokens(asked, '.')|
    ensures ModifiedPath(path, AliasesOf(Tokens(asked, '.'), |Tokens(asked, '.')|)) == asked
  {
    RewrittenAnswer(path, asked);
    DottedTokens(asked);
    assert Tokens(asked, '.') + Tokens(path, '.')[|Tokens(asked, '.')|..] == Tokens(asked, '.');
  }

  lemma {:induction false} DottedConcat(a: seq<string>, b: seq<string>, partial: bool)
    requires b != []
    ensures Dotted(a + b, partial) == Dotted(a, true) + Dotted(b, partial)
  {
    if a == [] {
      assert a + b == b;
    } else {
      assert (a + b)[1..] == a[1..] + b;
      DottedConcat(a[1..], b, partial);
    }
  }

  /** A request for an object, answered with something below it, comes back as the request followed by what was added. */
  lemma AliasRoundTripBelow(path: string, asked: string)
    requires Canonical(asked) && IsPartial(asked)
    requires Answers(Tokens(path, '.'), Tokens(asked, '.')) && |Tokens(path, '.')| > |Tokens(asked, '.')|
    ensures ModifiedPath(path, AliasesOf(Tokens(asked, '.'), |Tokens(asked, '.')|)) ==
            asked + Dotted(Tokens(path, '.')[|Tokens(asked, '.')|..], IsPartial(path))
  {
    RewrittenAnswer(path, asked);
    DottedTokens(asked);
    DottedConcat(Tokens(asked, '.'), Tokens(path, '.')[|Tokens(asked, '.')|..], IsPartial(path));
  }

  /** What follows a partial path keeps its elements apart from those of the path. */
  lemma TokensBehindPartial(answer: string, suffix: string)
    requires IsPartial(answer)
    ensures Tokens(answer + suffix, '.') == Tokens(answer, '.') + Tokens(suffix, '.')
  {
    var init := answer[..|answer| - 1];
    assert answer + suffix == init + ['.'] + suffix && answer == init + ['.'] + "";
    TokensConcat(init, suffix, '.');
    TokensConcat(init, "", '.');
  }

  lemma PartialOfSuffix(answer: string, suffix: string)
    requires suffix != ""
    ensures IsPartial(answer + suffix) == IsPartial(suffix)
  {
    assert (answer + suffix)[|answer + suffix| - 1] == suffix[|suffix| - 1];
  }

  lemma SomeTokens(suffix: string)
    requires Canonical(suffix) && suffix != ""
    ensures Tokens(suffix, '.') != []
  {
    TokensSome(suffix);
  }

  /**
   * A request for an object, answered with its instance numbers and some more: the alias path and
   * the same addition come back.
   */
  lemma AliasRoundTripSuffix(answer: string, asked: string, suffix: string)
    requires Canonical(asked) && IsPartial(asked) && IsPartial(answer) && Canonical(suffix) && suffix != ""
    requires Answers(Tokens(answer, '.'), Tokens(asked, '.')) && |Tokens(answer, '.')| == |Tokens(asked, '.')|
    ensures ModifiedPath(answer + suffix, AliasesOf(Tokens(asked, '.'), |Tokens(asked, '.')|)) == asked + suffix
  {
    var wanted, given, added := Tokens(asked, '.'), Tokens(answer, '.'), Tokens(suffix, '.');
    TokensBehindPartial(answer, suffix);
    SomeTokens(suffix);
    PartialOfSuffix(answer, suffix);
    assert (given + added)[|wanted|..] == added;
    AliasRoundTripBelow(answer + suffix, asked);
    DottedTokens(suffix);
  }
}

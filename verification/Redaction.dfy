/** The diagnostics redactor: whitespace-separated tokens that look like credentials or locations are
    replaced, and the text is cut at a limit counted in UTF-8 bytes. */
module Redaction {
  import opened Wrappers

  const REDACTED := "[redacted]"
  const ELLIPSIS: string := "\U{2026}"

  // ---- Text ----

  function Width(c: char): nat {
    var code := c as int;
    if code < 0x80 then 1 else if code < 0x800 then 2 else if code < 0x1_0000 then 3 else 4
  }

  // The length of the text in UTF-8 bytes.
  function Bytes(s: string): nat {
    if s == "" then 0 else Width(s[0]) + Bytes(s[1..])
  }

  predicate Solid(token: string) {
    token != "" && forall i :: 0 <= i < |token| ==> !IsWhitespace(token[i])
  }

  predicate AllSolid(tokens: seq<string>) {
    forall i :: 0 <= i < |tokens| ==> Solid(tokens[i])
  }

  // The length of the longest prefix free of whitespace.
  function Run(s: string): (n: nat)
    ensures n <= |s| && (n < |s| ==> IsWhitespace(s[n]))
    ensures forall i :: 0 <= i < n ==> !IsWhitespace(s[i])
  {
    if s == "" || IsWhitespace(s[0]) then 0 else 1 + Run(s[1..])
  }

  function Tokens(s: string): (tokens: seq<string>)
    ensures AllSolid(tokens)
    decreases |s|
  {
    if s == "" then []
    else if IsWhitespace(s[0]) then Tokens(s[1..])
    else [s[..Run(s)]] + Tokens(s[Run(s)..])
  }

  function Lower(c: char): char {
    if 'A' <= c <= 'Z' then (c as int + 32) as char else c
  }

  function LowerAll(s: string): (r: string)
    ensures |r| == |s|
  {
    seq(|s|, i requires 0 <= i < |s| => Lower(s[i]))
  }

  function TrimStart(s: string): string {
    if s != "" && s[0] in {'"', '\'', '{', '[', '(', ',', ':'} then TrimStart(s[1..]) else s
  }

  predicate At(s: string, part: string, i: nat) {
    part <= s[Min(i, |s|)..]
  }

  predicate Contains(s: string, part: string) {
    exists i :: 0 <= i <= |s| && At(s, part, i)
  }

  predicate Sensitive(token: string) {
    var normalized := TrimStart(token);
    var lower := LowerAll(normalized);
    || Contains(lower, "token") || Contains(lower, "authorization")
    || Contains(lower, "password") || Contains(lower, "secret")
    || "http://" <= lower || "https://" <= lower || "wss://" <= lower
    || '@' in normalized
    || "/home/" <= lower || "/users/" <= lower
    || "c:\\users\\" <= lower || "c:\\\\users\\\\" <= lower
  }

  function Render(token: string): string {
    if Sensitive(token) then REDACTED else token
  }

  function RenderAll(tokens: seq<string>): (r: seq<string>)
    ensures |r| == |tokens|
  {
    seq(|tokens|, i requires 0 <= i < |tokens| => Render(tokens[i]))
  }

  function Join(tokens: seq<string>): string {
    if tokens == [] then "" else if |tokens| == 1 then tokens[0]
    else Join(tokens[..|tokens| - 1]) + " " + tokens[|tokens| - 1]
  }

  // How many leading tokens, joined by spaces, fit in the limit.
  function Fitting(tokens: seq<string>, limit: nat, k: nat): (r: nat)
    requires k <= |tokens|
    ensures k <= r <= |tokens|
    ensures forall j :: k < j <= r ==> Bytes(Join(tokens[..j])) <= limit
    ensures r < |tokens| ==> Bytes(Join(tokens[..r + 1])) > limit
    decreases |tokens| - k
  {
    if k == |tokens| || Bytes(Join(tokens[..k + 1])) > limit then k else Fitting(tokens, limit, k + 1)
  }

  // What `redact` keeps: every token, or the longest run of leading ones that fits and an ellipsis.
  function Kept(tokens: seq<string>, limit: nat): seq<string> {
    var k := Fitting(tokens, limit, 0);
    if k == |tokens| then tokens else tokens[..k] + [ELLIPSIS]
  }

  function Redacted(value: string, limit: nat): string {
    Join(Kept(RenderAll(Tokens(value)), limit))
  }

  // ---- What counts as sensitive, position by position ----

  // The word, given in lower case, stands in the text at `i`, its letters in either case.
  predicate StandsAt(s: string, word: string, i: nat) {
    && i + |word| <= |s|
    && forall k | 0 <= k < |word| ::
         s[i + k] == word[k] || ('a' <= word[k] <= 'z' && s[i + k] as int + 32 == word[k] as int)
  }

  ghost predicate Mentions(s: string, word: string) {
    exists i: nat :: StandsAt(s, word, i)
  }

  // The word stands behind nothing but opening punctuation.
  ghost predicate Opens(s: string, word: string) {
    exists n: nat :: StandsAt(s, word, n) && forall k | 0 <= k < n :: s[k] in {'"', '\'', '{', '[', '(', ',', ':'}
  }

  /** A token that names a credential anywhere, holds an `@`, or opens with a location. */
  ghost predicate Leaks(token: string) {
    || Mentions(token, "token") || Mentions(token, "authorization")
    || Mentions(token, "password") || Mentions(token, "secret")
    || '@' in token
    || Opens(token, "http://") || Opens(token, "https://") || Opens(token, "wss://")
    || Opens(token, "/home/") || Opens(token, "/users/")
    || Opens(token, "c:\\users\\") || Opens(token, "c:\\\\users\\\\")
  }

  predicate Opener(c: char) {
    c in {'"', '\'', '{', '[', '(', ',', ':'}
  }

  // Trimming takes the openers off, all of them.
  lemma {:induction false} TrimTakes(s: string) returns (n: nat)
    ensures n <= |s| && TrimStart(s) == s[n..]
    ensures (forall k | 0 <= k < n :: Opener(s[k])) && (n < |s| ==> !Opener(s[n]))
  {
    if s != "" && Opener(s[0]) {
      var m := TrimTakes(s[1..]);
      n := m + 1;
    } else {
      n := 0;
    }
  }

  lemma LowerStands(s: string, word: string, n: nat, i: nat)
    requires n + i <= |s| && forall k | 0 <= k < |word| :: !('A' <= word[k] <= 'Z')
    ensures At(LowerAll(s[n..]), word, i) <==> StandsAt(s, word, n + i)
  {
    var lower := LowerAll(s[n..]);
    var rest := lower[i..];
    assert forall k | 0 <= k < |rest| :: rest[k] == Lower(s[n + i + k]);
    if word <= rest {
      forall k | 0 <= k < |word|
        ensures s[n + i + k] == word[k] || ('a' <= word[k] <= 'z' && s[n + i + k] as int + 32 == word[k] as int)
      {
        assert rest[k] == word[k];
      }
    }
    if StandsAt(s, word, n + i) {
      forall k | 0 <= k < |word|
        ensures rest[k] == word[k]
      {
        assert s[n + i + k] == word[k] || ('a' <= word[k] <= 'z' && s[n + i + k] as int + 32 == word[k] as int);
      }
      assert rest[..|word|] == word;
    }
  }

  // A word that does not begin with an opener.
  predicate Plain(word: string) {
    word != "" && !Opener(word[0]) && forall k | 0 <= k < |word| :: !('A' <= word[k] <= 'Z')
  }

  lemma StandsBehindOpeners(s: string, word: string, n: nat, i: nat)
    requires Plain(word) && n <= |s| && StandsAt(s, word, i) && forall k | 0 <= k < n :: Opener(s[k])
    ensures i >= n
  {
    FirstStands(s, word, i);
  }

  lemma FirstStands(s: string, word: string, i: nat)
    requires word != "" && StandsAt(s, word, i)
    ensures s[i] == word[0] || ('a' <= word[0] <= 'z' && s[i] as int + 32 == word[0] as int)
  {
    assert s[i + 0] == s[i];
  }

  lemma MentionsIsContained(s: string, word: string, n: nat)
    requires Plain(word) && n <= |s| && forall k | 0 <= k < n :: Opener(s[k])
    ensures Contains(LowerAll(s[n..]), word) <==> Mentions(s, word)
  {
    hide At, StandsAt, Plain, Opener;
    var lower := LowerAll(s[n..]);
    if Contains(lower, word) {
      var i: nat :| i <= |lower| && At(lower, word, i);
      assert Plain(word);
      PlainIsLower(word);
      LowerStands(s, word, n, i);
    }
    if Mentions(s, word) {
      var i: nat :| StandsAt(s, word, i);
      PlainIsLower(word);
      StandsInside(s, word, i);
      StandsBehindOpeners(s, word, n, i);
      LowerStands(s, word, n, i - n);
    }
  }

  lemma PlainIsLower(word: string)
    requires Plain(word)
    ensures forall k | 0 <= k < |word| :: !('A' <= word[k] <= 'Z')
  {
  }

  lemma StandsInside(s: string, word: string, i: nat)
    requires StandsAt(s, word, i)
    ensures i + |word| <= |s|
  {
  }

  lemma OpensIsPrefix(s: string, word: string, n: nat)
    requires Plain(word) && n <= |s| && forall k | 0 <= k < n :: Opener(s[k])
    requires n < |s| ==> !Opener(s[n])
    ensures word <= LowerAll(s[n..]) <==> Opens(s, word)
  {
    var lower := LowerAll(s[n..]);
    assert lower[0..] == lower;
    LowerStands(s, word, n, 0);
    if Opens(s, word) {
      var m: nat :| StandsAt(s, word, m) && forall k | 0 <= k < m :: Opener(s[k]);
      StandsBehindOpeners(s, word, n, m);
      assert m == n;
    }
  }

  lemma TrimKeepsAt(token: string, n: nat)
    requires n <= |token| && forall k | 0 <= k < n :: Opener(token[k])
    ensures '@' in token[n..] <==> '@' in token
  {
    if '@' in token {
      var k :| 0 <= k < |token| && token[k] == '@';
      assert !Opener('@');
      assert token[n..][k - n] == '@';
    }
  }

  /** The redactor's test is exactly that. */
  lemma SensitiveIsLeaks(token: string)
    ensures Sensitive(token) <==> Leaks(token)
  {
    hide Mentions, Opens, Contains, TrimStart, LowerAll, Opener;
    var n := TrimTakes(token);
    PlainWords();
    hide Plain;
    MentionsIsContained(token, "token", n);
    MentionsIsContained(token, "authorization", n);
    MentionsIsContained(token, "password", n);
    MentionsIsContained(token, "secret", n);
    TrimKeepsAt(token, n);
    OpensIsPrefix(token, "http://", n);
    OpensIsPrefix(token, "https://", n);
    OpensIsPrefix(token, "wss://", n);
    OpensIsPrefix(token, "/home/", n);
    OpensIsPrefix(token, "/users/", n);
    OpensIsPrefix(token, "c:\\users\\", n);
    OpensIsPrefix(token, "c:\\\\users\\\\", n);
  }

  lemma PlainWords()
    ensures Plain("token") && Plain("authorization") && Plain("password") && Plain("secret")
    ensures Plain("http://") && Plain("https://") && Plain("wss://") && Plain("/home/") && Plain("/users/")
    ensures Plain("c:\\users\\") && Plain("c:\\\\users\\\\")
  {
  }

  // ---- The method ----

  lemma {:induction false} BytesOfConcat(s: string, t: string)
    ensures Bytes(s + t) == Bytes(s) + Bytes(t)
    decreases |s|
  {
    if s == "" {
      assert s + t == t;
    } else {
      assert (s + t)[1..] == s[1..] + t;
      BytesOfConcat(s[1..], t);
    }
  }

  lemma JoinNext(tokens: seq<string>, k: nat)
    requires k < |tokens|
    ensures Join(tokens[..k + 1]) == Join(tokens[..k]) + (if k == 0 then "" else " ") + tokens[k]
  {
    assert tokens[..k + 1][..k] == tokens[..k];
    assert tokens[..k + 1][k] == tokens[k];
  }

  lemma JoinIsEmpty(tokens: seq<string>)
    requires AllSolid(tokens)
    ensures Join(tokens) == "" <==> tokens == []
  {
  }

  lemma WideEnough()
    ensures Bytes(" ") == 1 && Bytes(ELLIPSIS) == 3
  {
    assert " "[1..] == "" && ELLIPSIS[1..] == "";
  }

  /** The loop over tokens computes exactly `Redacted`; no token of the result leaks, and no credential
      word and no `@` is left in it. */
  method Redact(value: string, limit: nat) returns (result: string)
    ensures result == Redacted(value, limit)
    ensures forall i | 0 <= i < |Tokens(result)| :: !Leaks(Tokens(result)[i])
    ensures NamesNothing(result)
  {
    hide Sensitive, Render, Leaks, NamesNothing;
    NothingSensitiveRemains(value, limit);
    var tokens := Tokens(value);
    ghost var rendered := RenderAll(tokens);
    result := "";
    var i := 0;
    while i < |tokens|
      invariant i <= |tokens|
      invariant result == Join(rendered[..i])
      invariant Fitting(rendered, limit, 0) == Fitting(rendered, limit, i)
    {
      var next := Render(tokens[i]);
      JoinNext(rendered, i);
      RenderedAreSolid(tokens);
      JoinIsEmpty(rendered[..i]);
      if result != "" {
        result := result + " ";
      }
      BytesOfConcat(result, next);
      assert result + next == Join(rendered[..i + 1]);
      if Bytes(result) + Bytes(next) > limit {
        result := result + ELLIPSIS;
        CutHere(rendered, limit, i);
        return;
      }
      result := result + next;
      i := i + 1;
    }
    assert rendered[..i] == rendered;
  }

  lemma CutHere(tokens: seq<string>, limit: nat, k: nat)
    requires k < |tokens| && Fitting(tokens, limit, 0) == k
    ensures Join(Kept(tokens, limit)) == Join(tokens[..k]) + (if k == 0 then "" else " ") + ELLIPSIS
  {
    JoinNext(tokens[..k] + [ELLIPSIS], k);
    assert (tokens[..k] + [ELLIPSIS])[..k] == tokens[..k];
    assert (tokens[..k] + [ELLIPSIS])[..k + 1] == tokens[..k] + [ELLIPSIS];
  }

  lemma RenderedAreSolid(tokens: seq<string>)
    requires AllSolid(tokens)
    ensures AllSolid(RenderAll(tokens))
  {
  }

  // ---- What the tokens are ----

  // A stretch free of whitespace, from one whitespace or end to the next.
  predicate Stretch(s: string, a: nat, b: nat) {
    && a < b <= |s| && (forall p | a <= p < b :: !IsWhitespace(s[p]))
    && (a == 0 || IsWhitespace(s[a - 1])) && (b == |s| || IsWhitespace(s[b]))
  }

  ghost predicate Spans(s: string, n: nat, tokens: seq<string>, at: seq<(nat, nat)>) {
    && |at| == |tokens|
    && (forall k | 0 <= k < |at| ::
          n <= at[k].0 && Stretch(s, at[k].0, at[k].1) && tokens[k] == s[at[k].0..at[k].1])
    && (forall k, m | 0 <= k < m < |at| :: at[k].1 < at[m].0)
  }

  ghost predicate Covers(s: string, n: nat, at: seq<(nat, nat)>) {
    forall p | n <= p < |s| && !IsWhitespace(s[p]) :: Within(at, p)
  }

  /** The tokens are the stretches of the text from `n` on, in order, and leave nothing but whitespace
      out. */
  ghost predicate Splits(s: string, n: nat, tokens: seq<string>, at: seq<(nat, nat)>) {
    Spans(s, n, tokens, at) && Covers(s, n, at)
  }

  predicate Within(at: seq<(nat, nat)>, p: nat) {
    exists k | 0 <= k < |at| :: at[k].0 <= p < at[k].1
  }

  lemma {:induction false} TokensSplit(s: string, n: nat) returns (at: seq<(nat, nat)>)
    requires n <= |s| && (n == 0 || n == |s| || IsWhitespace(s[n - 1]) || IsWhitespace(s[n]))
    ensures Splits(s, n, Tokens(s[n..]), at)
    decreases |s| - n
  {
    hide IsWhitespace, Run, Stretch, Splits;
    if n == |s| {
      at := [];
      NoSplit(s);
    } else if IsWhitespace(s[n]) {
      at := TokensSplit(s, n + 1);
      assert s[n..][1..] == s[n + 1..];
      SkipSplit(s, n, Tokens(s[n + 1..]), at);
    } else {
      var m := n + Run(s[n..]);
      RunIs(s, n);
      assert s[n..][..m - n] == s[n..m] && s[n..][m - n..] == s[m..];
      var rest := TokensSplit(s, m);
      at := [(n, m)] + rest;
      OneMoreSplit(s, n, m, Tokens(s[m..]), rest);
    }
  }

  lemma NoSplit(s: string)
    ensures Splits(s, |s|, [], [])
  {
  }

  lemma SkipSplit(s: string, n: nat, tokens: seq<string>, at: seq<(nat, nat)>)
    requires n < |s| && IsWhitespace(s[n]) && Splits(s, n + 1, tokens, at)
    ensures Splits(s, n, tokens, at)
  {
    hide IsWhitespace, Stretch, Within;
  }

  lemma RunIs(s: string, n: nat)
    requires n < |s| && !IsWhitespace(s[n]) && (n == 0 || IsWhitespace(s[n - 1]))
    ensures Stretch(s, n, n + Run(s[n..]))
  {
    hide IsWhitespace;
    forall p | n <= p < n + Run(s[n..])
      ensures !IsWhitespace(s[p])
    {
      assert s[p] == s[n..][p - n];
    }
  }

  lemma OneMoreSplit(s: string, n: nat, m: nat, tokens: seq<string>, rest: seq<(nat, nat)>)
    requires n < m <= |s| && Stretch(s, n, m) && Splits(s, m, tokens, rest)
    ensures Splits(s, n, [s[n..m]] + tokens, [(n, m)] + rest)
  {
    OneMoreSpan(s, n, m, tokens, rest);
    hide IsWhitespace, Spans;
    var at := [(n, m)] + rest;
    forall p | n <= p < |s| && !IsWhitespace(s[p])
      ensures Within(at, p)
    {
      if p < m {
        assert at[0].0 <= p < at[0].1;
      } else {
        assert Within(rest, p);
        var k :| 0 <= k < |rest| && rest[k].0 <= p < rest[k].1;
        assert at[k + 1] == rest[k];
      }
    }
  }

  lemma OneMoreSpan(s: string, n: nat, m: nat, tokens: seq<string>, rest: seq<(nat, nat)>)
    requires n < m <= |s| && Stretch(s, n, m) && Spans(s, m, tokens, rest)
    ensures Spans(s, n, [s[n..m]] + tokens, [(n, m)] + rest)
  {
    hide IsWhitespace, Stretch;
    forall k | 0 <= k < |rest|
      ensures m < rest[k].0
    {
      StretchesAreApart(s, n, m, rest[k].0, rest[k].1);
    }
  }

  lemma StretchesAreApart(s: string, n: nat, m: nat, a: nat, b: nat)
    requires Stretch(s, n, m) && Stretch(s, a, b) && m <= a
    ensures m < a
  {
    hide IsWhitespace;
  }

  /** The tokens of a text are its maximal stretches without whitespace, in order. */
  lemma TokensAreStretches(s: string) returns (at: seq<(nat, nat)>)
    ensures Splits(s, 0, Tokens(s), at)
  {
    at := TokensSplit(s, 0);
    assert s[0..] == s;
  }

  // ---- Tokens of joined tokens ----

  lemma {:induction false} RunOfSolid(token: string, rest: string)
    requires forall i :: 0 <= i < |token| ==> !IsWhitespace(token[i])
    requires rest == "" || IsWhitespace(rest[0])
    ensures Run(token + rest) == |token|
    decreases |token|
  {
    if token == "" {
      assert token + rest == rest;
    } else {
      assert (token + rest)[1..] == token[1..] + rest;
      RunOfSolid(token[1..], rest);
    }
  }

  lemma TokensOfFirst(token: string, rest: string)
    requires Solid(token) && (rest == "" || IsWhitespace(rest[0]))
    ensures Tokens(token + rest) == [token] + Tokens(rest)
  {
    RunOfSolid(token, rest);
    assert (token + rest)[..|token|] == token && (token + rest)[|token|..] == rest;
  }

  lemma TokensAfterSpace(c: char, rest: string)
    requires IsWhitespace(c)
    ensures Tokens([c] + rest) == Tokens(rest)
  {
    assert ([c] + rest)[1..] == rest;
  }

  // Text, a space and more text have the tokens of both.
  lemma {:induction false} TokensOfConcat(s: string, c: char, t: string)
    requires IsWhitespace(c)
    ensures Tokens(s + ([c] + t)) == Tokens(s) + Tokens(t)
    decreases |s|
  {
    var tail := [c] + t;
    TokensAfterSpace(c, t);
    if s == "" {
      assert s + tail == tail;
    } else if IsWhitespace(s[0]) {
      TokensOfConcat(s[1..], c, t);
      TokensAfterSpace(s[0], s[1..] + tail);
      assert [s[0]] + (s[1..] + tail) == s + tail;
    } else {
      TokensOfLonger(s, tail);
      TokensOfConcat(s[Run(s)..], c, t);
    }
  }

  lemma SplitText(s: string, tail: string, n: nat)
    requires n <= |s|
    ensures s[..n] + (s[n..] + tail) == s + tail
  {
  }

  lemma TokensOfLonger(s: string, tail: string)
    requires s != "" && !IsWhitespace(s[0]) && tail != "" && IsWhitespace(tail[0])
    ensures Tokens(s + tail) == [s[..Run(s)]] + Tokens(s[Run(s)..] + tail)
  {
    var n := Run(s);
    assert n > 0;
    hide IsWhitespace, Tokens, Run;
    SplitText(s, tail, n);
    var rest := s[n..] + tail;
    assert n < |s| ==> rest[0] == s[n];
    TokensOfFirst(s[..n], rest);
  }

  lemma NoTokens()
    ensures Tokens("") == []
  {
  }

  lemma TokensOfOne(token: string)
    requires Solid(token)
    ensures Tokens(token) == [token]
  {
    TokensOfFirst(token, "");
    assert token + "" == token;
  }

  lemma {:induction false} TokensOfJoin(tokens: seq<string>)
    requires AllSolid(tokens)
    ensures Tokens(Join(tokens)) == tokens
    decreases |tokens|
  {
    hide Tokens, Solid;
    if tokens == [] {
      NoTokens();
    } else {
      var k := |tokens| - 1;
      TokensOfOne(tokens[k]);
      if k > 0 {
        TokensOfJoin(tokens[..k]);
        TokensOfConcat(Join(tokens[..k]), ' ', tokens[k]);
        assert Join(tokens[..k]) + ([' '] + tokens[k]) == Join(tokens);
      }
      assert tokens == tokens[..k] + [tokens[k]];
    }
  }

  // ---- What is kept is never sensitive ----

  lemma PartAt(s: string, part: string, i: nat)
    requires i <= |s| && At(s, part, i)
    ensures i + |part| <= |s| && (part != "" ==> s[i] == part[0])
  {
    assert part != "" ==> s[i..][0] == part[0];
  }

  // A part whose first character is missing, or that is too long, is not contained.
  lemma NotContained(s: string, part: string)
    requires part != "" && forall i :: 0 <= i <= |s| - |part| ==> s[i] != part[0]
    ensures !Contains(s, part)
  {
    if Contains(s, part) {
      var i: nat :| i <= |s| && At(s, part, i);
      PartAt(s, part, i);
    }
  }

  // No credential word and no `@`.
  ghost predicate NamesNothing(s: string) {
    && !Mentions(s, "token") && !Mentions(s, "authorization") && !Mentions(s, "password") && !Mentions(s, "secret")
    && '@' !in s
  }

  predicate Letters(word: string) {
    forall k | 0 <= k < |word| :: 'a' <= word[k] <= 'z'
  }

  lemma StandsInSlice(s: string, word: string, i: nat, lo: nat, hi: nat)
    requires StandsAt(s, word, i) && lo <= i && i + |word| <= hi <= |s|
    ensures StandsAt(s[lo..hi], word, i - lo)
  {
    forall k | 0 <= k < |word|
      ensures
        var c := s[lo..hi][i - lo + k];
        c == word[k] || ('a' <= word[k] <= 'z' && c as int + 32 == word[k] as int)
    {
      assert s[lo..hi][i - lo + k] == s[i + k];
    }
  }

  lemma LettersAreSolid(s: string, word: string, i: nat, k: nat)
    requires StandsAt(s, word, i) && Letters(word) && k < |word|
    ensures !IsWhitespace(s[i + k])
  {
    assert s[i + k] == word[k] || ('a' <= word[k] <= 'z' && s[i + k] as int + 32 == word[k] as int);
  }

  // A word does not stand across a whitespace.
  lemma StandsInPart(a: string, c: char, b: string, word: string, i: nat)
    requires IsWhitespace(c) && word != "" && Letters(word) && StandsAt(a + ([c] + b), word, i)
    ensures Mentions(a, word) || Mentions(b, word)
  {
    hide StandsAt, IsWhitespace, Letters;
    var s := a + ([c] + b);
    StandsInside(s, word, i);
    assert s[0..|a|] == a && s[|a| + 1..|s|] == b && s[|a|] == c;
    if i + |word| <= |a| {
      StandsInSlice(s, word, i, 0, |a|);
    } else if i > |a| {
      StandsInSlice(s, word, i, |a| + 1, |s|);
      assert StandsAt(b, word, i - |a| - 1);
    } else {
      LettersAreSolid(s, word, i, |a| - i);
    }
  }

  lemma MentionsOfConcat(a: string, c: char, b: string, word: string)
    requires IsWhitespace(c) && word != "" && Letters(word) && !Mentions(a, word) && !Mentions(b, word)
    ensures !Mentions(a + ([c] + b), word)
  {
    hide IsWhitespace, Letters, StandsAt;
    if Mentions(a + ([c] + b), word) {
      var i: nat :| StandsAt(a + ([c] + b), word, i);
      StandsInPart(a, c, b, word, i);
    }
  }

  lemma NamesNothingOfConcat(a: string, c: char, b: string)
    requires IsWhitespace(c) && NamesNothing(a) && NamesNothing(b)
    ensures NamesNothing(a + ([c] + b))
  {
    hide Mentions;
    MentionsOfConcat(a, c, b, "token");
    MentionsOfConcat(a, c, b, "authorization");
    MentionsOfConcat(a, c, b, "password");
    MentionsOfConcat(a, c, b, "secret");
  }

  lemma EmptyNamesNothing()
    ensures NamesNothing("")
  {
  }

  lemma {:induction false} JoinNamesNothing(tokens: seq<string>)
    requires forall i | 0 <= i < |tokens| :: NamesNothing(tokens[i])
    ensures NamesNothing(Join(tokens))
    decreases |tokens|
  {
    hide NamesNothing;
    EmptyNamesNothing();
    if |tokens| > 1 {
      var k := |tokens| - 1;
      JoinNamesNothing(tokens[..k]);
      NamesNothingOfConcat(Join(tokens[..k]), ' ', tokens[k]);
      assert Join(tokens[..k]) + ([' '] + tokens[k]) == Join(tokens);
    }
  }

  predicate AllSafe(tokens: seq<string>) {
    forall i :: 0 <= i < |tokens| ==> !Sensitive(tokens[i])
  }

  lemma SafeToken(token: string, shown: string)
    requires TrimStart(token) == shown && LowerAll(shown) == shown
    requires shown != "" && shown[0] !in {'h', 'w', '/', 'c'} && '@' !in shown
    requires !Contains(shown, "token") && !Contains(shown, "authorization")
    requires !Contains(shown, "password") && !Contains(shown, "secret")
    ensures !Sensitive(token)
  {
    hide Contains;
  }

  lemma RedactedIsSafe()
    ensures !Sensitive(REDACTED)
  {
    var shown := "redacted]";
    assert REDACTED[1..] == shown;
    NotContained(shown, "token");
    NotContained(shown, "authorization");
    NotContained(shown, "password");
    NotContained(shown, "secret");
    SafeToken(REDACTED, shown);
  }

  lemma EllipsisIsSafe()
    ensures !Sensitive(ELLIPSIS)
  {
    NotContained(ELLIPSIS, "token");
    NotContained(ELLIPSIS, "authorization");
    NotContained(ELLIPSIS, "password");
    NotContained(ELLIPSIS, "secret");
    SafeToken(ELLIPSIS, ELLIPSIS);
  }

  lemma RenderedAreSafe(tokens: seq<string>)
    ensures AllSafe(RenderAll(tokens))
  {
    RedactedIsSafe();
    hide Sensitive;
  }

  lemma KeptKeeps(tokens: seq<string>, limit: nat)
    requires AllSolid(tokens) && AllSafe(tokens)
    ensures AllSolid(Kept(tokens, limit)) && AllSafe(Kept(tokens, limit))
  {
    EllipsisIsSafe();
    assert Solid(ELLIPSIS);
    hide Sensitive, Solid;
  }

  lemma KeptAreSafe(value: string, limit: nat)
    ensures AllSolid(Kept(RenderAll(Tokens(value)), limit))
    ensures AllSafe(Kept(RenderAll(Tokens(value)), limit))
  {
    RenderedAreSolid(Tokens(value));
    RenderedAreSafe(Tokens(value));
    KeptKeeps(RenderAll(Tokens(value)), limit);
  }

  lemma TokensOfRedacted(value: string, limit: nat)
    ensures Tokens(Redacted(value, limit)) == Kept(RenderAll(Tokens(value)), limit)
  {
    hide Kept, RenderAll, Tokens, AllSolid, AllSafe, Join;
    KeptAreSafe(value, limit);
    TokensOfJoin(Kept(RenderAll(Tokens(value)), limit));
  }

  lemma RenderAllSafe(tokens: seq<string>)
    requires AllSafe(tokens)
    ensures RenderAll(tokens) == tokens
  {
  }

  lemma {:induction false} FittingSharesPrefix(a: seq<string>, b: seq<string>, limit: nat, k: nat, n: nat)
    requires k <= n <= |a| && n <= |b| && a[..n] == b[..n]
    requires Fitting(a, limit, k) >= n
    ensures Fitting(b, limit, k) == Fitting(b, limit, n)
    decreases n - k
  {
    if k < n {
      assert a[..k + 1] == a[..n][..k + 1] == b[..k + 1];
      FittingSharesPrefix(a, b, limit, k + 1, n);
    }
  }

  // Cutting what was already cut changes nothing.
  lemma KeptTwice(tokens: seq<string>, limit: nat)
    ensures Kept(Kept(tokens, limit), limit) == Kept(tokens, limit)
  {
    var k := Fitting(tokens, limit, 0);
    if k < |tokens| {
      var kept := Kept(tokens, limit);
      assert kept[..k] == tokens[..k];
      FittingSharesPrefix(tokens, kept, limit, 0, k);
      assert kept[..k] + [ELLIPSIS] == kept;
    }
  }

  lemma RedactedTokensAreSafe(value: string, limit: nat)
    ensures AllSafe(Tokens(Redacted(value, limit)))
  {
    TokensOfRedacted(value, limit);
    KeptAreSafe(value, limit);
  }

  // ---- Main results ----

  /** No token of the output leaks, and no credential word and no `@` is left anywhere in it, not even
      across tokens. */
  lemma NothingSensitiveRemains(value: string, limit: nat)
    ensures forall i | 0 <= i < |Tokens(Redacted(value, limit))| :: !Leaks(Tokens(Redacted(value, limit))[i])
    ensures NamesNothing(Redacted(value, limit))
  {
    TokensOfRedacted(value, limit);
    KeptAreSafe(value, limit);
    SafeIsLeakFree(Kept(RenderAll(Tokens(value)), limit));
    hide Leaks, Tokens, Kept;
    JoinNamesNothing(Kept(RenderAll(Tokens(value)), limit));
  }

  lemma SafeIsLeakFree(tokens: seq<string>)
    requires AllSafe(tokens)
    ensures forall i | 0 <= i < |tokens| :: !Leaks(tokens[i]) && NamesNothing(tokens[i])
  {
    hide Sensitive, Mentions, Opens;
    forall i | 0 <= i < |tokens|
      ensures !Leaks(tokens[i]) && NamesNothing(tokens[i])
    {
      SensitiveIsLeaks(tokens[i]);
    }
  }

  /** What is shown of the input: the tokens of some prefix, each leaking one as `[redacted]` and every
      other as it is, and then an ellipsis if it is not all of them and the next one does not fit. */
  lemma WhatIsShown(value: string, limit: nat) returns (k: nat)
    ensures
      var input, output := Tokens(value), Tokens(Redacted(value, limit));
      && k <= |input| && |output| == (if k < |input| then k + 1 else k)
      && (forall i | 0 <= i < k :: output[i] == if Leaks(input[i]) then "[redacted]" else input[i])
      && (k < |input| ==> output[k] == "\U{2026}" && Bytes(Join(RenderAll(input)[..k + 1])) > limit)
  {
    hide Tokens, Redacted, Bytes, Join, RenderAll, Leaks;
    TokensOfRedacted(value, limit);
    var rendered := RenderAll(Tokens(value));
    k := Fitting(rendered, limit, 0);
    RenderedShow(Tokens(value));
  }

  lemma RenderedShow(tokens: seq<string>)
    ensures forall i | 0 <= i < |tokens| :: RenderAll(tokens)[i] == if Leaks(tokens[i]) then "[redacted]" else tokens[i]
  {
    hide Sensitive, Leaks;
    forall i | 0 <= i < |tokens|
      ensures RenderAll(tokens)[i] == if Leaks(tokens[i]) then "[redacted]" else tokens[i]
    {
      SensitiveIsLeaks(tokens[i]);
    }
  }

  /** Redacting a second time changes nothing. */
  lemma RedactIsIdempotent(value: string, limit: nat)
    ensures Redacted(Redacted(value, limit), limit) == Redacted(value, limit)
  {
    TokensOfRedacted(value, limit);
    KeptAreSafe(value, limit);
    RenderAllSafe(Kept(RenderAll(Tokens(value)), limit));
    KeptTwice(RenderAll(Tokens(value)), limit);
  }

  /** The output exceeds the limit by at most four bytes: a space and the ellipsis. */
  lemma RedactStaysNearLimit(value: string, limit: nat)
    ensures Bytes(Redacted(value, limit)) <= limit + 4
  {
    var tokens := RenderAll(Tokens(value));
    var k := Fitting(tokens, limit, 0);
    if k < |tokens| {
      CutHere(tokens, limit, k);
      var head := Join(tokens[..k]);
      var gap := if k == 0 then "" else " ";
      BytesOfConcat(head, gap);
      BytesOfConcat(head + gap, ELLIPSIS);
      WideEnough();
      assert Bytes(head) <= limit;
    } else {
      assert tokens[..k] == tokens;
    }
  }

  lemma {:induction false} JoinGrows(tokens: seq<string>, k: nat)
    requires k <= |tokens|
    ensures Bytes(Join(tokens[..k])) <= Bytes(Join(tokens))
    decreases |tokens| - k
  {
    if k < |tokens| {
      JoinNext(tokens, k);
      var gap := if k == 0 then "" else " ";
      BytesOfConcat(Join(tokens[..k]) + gap, tokens[k]);
      BytesOfConcat(Join(tokens[..k]), gap);
      JoinGrows(tokens, k + 1);
    } else {
      assert tokens[..k] == tokens;
    }
  }

  /** Text whose rendered tokens fit is shown whole: each leaking token as `[redacted]`, every other one
      as it is. */
  lemma WholeWhenItFits(value: string, limit: nat)
    requires Bytes(Join(RenderAll(Tokens(value)))) <= limit
    ensures
      var input, output := Tokens(value), Tokens(Redacted(value, limit));
      && |output| == |input|
      && forall i | 0 <= i < |input| :: output[i] == if Leaks(input[i]) then "[redacted]" else input[i]
  {
    hide Leaks, Sensitive;
    var tokens := RenderAll(Tokens(value));
    var k := Fitting(tokens, limit, 0);
    if k < |tokens| {
      JoinGrows(tokens, k + 1);
    }
    TokensOfRedacted(value, limit);
    RenderedShow(Tokens(value));
  }

  // ---- Many lines ----

  function LineEnd(s: string): (n: nat)
    ensures n <= |s| && (n < |s| ==> s[n] == '\n')
    ensures forall i :: 0 <= i < n ==> s[i] != '\n'
  {
    if s == "" || s[0] == '\n' then 0 else 1 + LineEnd(s[1..])
  }

  function WithoutReturn(line: string): string {
    if line != "" && line[|line| - 1] == '\r' then line[..|line| - 1] else line
  }

  function Lines(s: string): seq<string>
    decreases |s|
  {
    if s == "" then []
    else
      var n := LineEnd(s);
      if n == |s| then [s] else [WithoutReturn(s[..n])] + Lines(s[n + 1..])
  }

  function Unlines(lines: seq<string>): string {
    if lines == [] then "" else lines[0] + (['\n'] + Unlines(lines[1..]))
  }

  // The redacted lines written while `used` bytes are already out.
  function Shown(lines: seq<string>, limit: nat, used: nat): (r: seq<string>)
    ensures |r| <= |lines|
  {
    if lines == [] || limit < used + 4 then []
    else
      var line := Redacted(lines[0], limit - used - 4);
      [line] + Shown(lines[1..], limit, used + Bytes(line) + 1)
  }

  lemma ShownNext(lines: seq<string>, limit: nat, used: nat)
    requires lines != [] && limit >= used + 4
    ensures
      var line := Redacted(lines[0], limit - used - 4);
      var rest := Shown(lines[1..], limit, used + Bytes(line) + 1);
      && Shown(lines, limit, used) == [line] + rest
      && Unlines(Shown(lines, limit, used)) == line + (['\n'] + Unlines(rest))
  {
    hide Redacted, Bytes;
    var line := Redacted(lines[0], limit - used - 4);
    var rest := Shown(lines[1..], limit, used + Bytes(line) + 1);
    assert ([line] + rest)[1..] == rest;
  }

  lemma ShownDone(lines: seq<string>, limit: nat, used: nat)
    requires lines == [] || limit < used + 4
    ensures Shown(lines, limit, used) == [] && Unlines(Shown(lines, limit, used)) == ""
  {
  }

  function RedactedLines(value: string, limit: nat): string {
    Unlines(Shown(Lines(value), limit, 0))
  }

  lemma {:induction false} UnlinesOfConcat(a: seq<string>, b: seq<string>)
    ensures Unlines(a + b) == Unlines(a) + Unlines(b)
    decreases |a|
  {
    if a == [] {
      assert a + b == b;
    } else {
      assert (a + b)[1..] == a[1..] + b;
      UnlinesOfConcat(a[1..], b);
    }
  }

  /** The loop over lines computes exactly `RedactedLines`; no credential word and no `@` is left in it. */
  method RedactLines(value: string, limit: nat) returns (output: string)
    ensures output == RedactedLines(value, limit)
    ensures NamesNothing(output)
  {
    hide Redacted, Lines, Shown, Unlines, Leaks, NamesNothing;
    NoLineLeaks(value, limit);
    var lines := Lines(value);
    output := "";
    ghost var shown: seq<string> := [];
    UnlinesOfNone();
    assert lines[0..] == lines && [] + Shown(lines, limit, 0) == Shown(lines, limit, 0);
    var i := 0;
    while i < |lines|
      invariant i <= |lines|
      invariant output == Unlines(shown)
      invariant Shown(lines, limit, 0) == shown + Shown(lines[i..], limit, Bytes(output))
    {
      var used := Bytes(output);
      var remaining := if used <= limit then limit - used else 0;
      if remaining < 4 {
        break;
      }
      var rendered := Redact(lines[i], remaining - 4);
      OneMore(lines, limit, i, output, shown);
      output := output + rendered + ['\n'];
      shown := shown + [rendered];
      i := i + 1;
    }
    ShownDone(lines[i..], limit, Bytes(output));
    assert shown + [] == shown;
  }

  lemma UnlinesOfNone()
    ensures Unlines([]) == "" && Bytes("") == 0
  {
  }

  // One more round of the loop moves one line from what is left to what is shown.
  lemma OneMore(lines: seq<string>, limit: nat, i: nat, output: string, shown: seq<string>)
    requires i < |lines| && output == Unlines(shown) && Bytes(output) + 4 <= limit
    ensures
      var line := Redacted(lines[i], limit - Bytes(output) - 4);
      && output + line + ['\n'] == Unlines(shown + [line])
      && shown + Shown(lines[i..], limit, Bytes(output))
         == shown + [line] + Shown(lines[i + 1..], limit, Bytes(output + line + ['\n']))
  {
    hide Redacted, Bytes, Shown;
    var line := Redacted(lines[i], limit - Bytes(output) - 4);
    LineAdded(output, line);
    ShownNext(lines[i..], limit, Bytes(output));
    assert lines[i..][1..] == lines[i + 1..];
    UnlinesOfConcat(shown, [line]);
    assert Unlines([line]) == line + ['\n'];
  }

  lemma LineAdded(output: string, line: string)
    ensures Bytes(output + line + ['\n']) == Bytes(output) + Bytes(line) + 1
  {
    BytesOfConcat(output, line);
    BytesOfConcat(output + line, ['\n']);
    assert ['\n'][1..] == "";
  }

  lemma LineTotal(line: string, rest: string)
    ensures Bytes(line + (['\n'] + rest)) == Bytes(line) + 1 + Bytes(rest)
  {
    BytesOfConcat(line, ['\n'] + rest);
    assert (['\n'] + rest)[1..] == rest;
  }

  lemma {:induction false} ShownStaysNearLimit(lines: seq<string>, limit: nat, used: nat)
    requires used <= limit + 1
    ensures used + Bytes(Unlines(Shown(lines, limit, used))) <= limit + 1
    decreases |lines|
  {
    hide Redacted, Shown, Unlines, Bytes;
    if lines == [] || limit < used + 4 {
      ShownDone(lines, limit, used);
      UnlinesOfNone();
    } else {
      var line := Redacted(lines[0], limit - used - 4);
      RedactStaysNearLimit(lines[0], limit - used - 4);
      ShownStaysNearLimit(lines[1..], limit, used + Bytes(line) + 1);
      ShownNext(lines, limit, used);
      LineTotal(line, Unlines(Shown(lines[1..], limit, used + Bytes(line) + 1)));
    }
  }

  lemma SafeLine(line: string, rest: string)
    requires AllSafe(Tokens(line)) && AllSafe(Tokens(rest))
    ensures AllSafe(Tokens(line + (['\n'] + rest)))
  {
    TokensOfConcat(line, '\n', rest);
    hide Sensitive, Tokens;
  }

  lemma NothingIsSafe()
    ensures AllSafe(Tokens(""))
  {
  }

  lemma {:induction false} ShownAreSafe(lines: seq<string>, limit: nat, used: nat)
    ensures AllSafe(Tokens(Unlines(Shown(lines, limit, used))))
    decreases |lines|
  {
    hide *;
    if lines == [] || limit < used + 4 {
      ShownDone(lines, limit, used);
      NothingIsSafe();
    } else {
      var line := Redacted(lines[0], limit - used - 4);
      var next := used + Bytes(line) + 1;
      RedactedTokensAreSafe(lines[0], limit - used - 4);
      ShownAreSafe(lines[1..], limit, next);
      ShownNext(lines, limit, used);
      SafeLine(line, Unlines(Shown(lines[1..], limit, next)));
    }
  }

  // ---- Lines of the output ----

  // Free of every whitespace but single spaces between tokens.
  predicate OneLine(s: string) {
    forall i :: 0 <= i < |s| && IsWhitespace(s[i]) ==> s[i] == ' '
  }

  lemma {:induction false} JoinIsOneLine(tokens: seq<string>)
    requires AllSolid(tokens)
    ensures OneLine(Join(tokens))
    decreases |tokens|
  {
    if |tokens| > 1 {
      JoinIsOneLine(tokens[..|tokens| - 1]);
      hide Join;
      assert Solid(tokens[|tokens| - 1]);
    }
  }

  lemma RedactedIsOneLine(value: string, limit: nat)
    ensures OneLine(Redacted(value, limit))
  {
    KeptAreSafe(value, limit);
    JoinIsOneLine(Kept(RenderAll(Tokens(value)), limit));
  }

  lemma EndOfFirst(line: string, rest: string)
    requires OneLine(line)
    ensures LineEnd(line + (['\n'] + rest)) == |line|
    ensures WithoutReturn(line) == line
  {
    var s := line + (['\n'] + rest);
    assert s[|line|] == '\n';
    assert IsWhitespace('\n') && IsWhitespace('\r');
    assert forall i :: 0 <= i < |line| ==> s[i] == line[i] && line[i] != '\n';
  }

  lemma LinesOfFirst(line: string, rest: string)
    requires OneLine(line)
    ensures Lines(line + (['\n'] + rest)) == [line] + Lines(rest)
  {
    var s := line + (['\n'] + rest);
    EndOfFirst(line, rest);
    hide OneLine, LineEnd, WithoutReturn;
    assert s[..|line|] == line && s[|line| + 1..] == rest;
  }

  predicate AllOneLine(lines: seq<string>) {
    forall i :: 0 <= i < |lines| ==> OneLine(lines[i])
  }

  lemma {:induction false} LinesOfUnlines(lines: seq<string>)
    requires AllOneLine(lines)
    ensures Lines(Unlines(lines)) == lines
    decreases |lines|
  {
    if lines != [] {
      LinesOfUnlines(lines[1..]);
      LinesOfFirst(lines[0], Unlines(lines[1..]));
    }
  }

  lemma {:induction false} ShownAreOneLine(lines: seq<string>, limit: nat, used: nat)
    ensures AllOneLine(Shown(lines, limit, used))
    decreases |lines|
  {
    hide Redacted, Bytes, Shown, Unlines, OneLine;
    if lines == [] || limit < used + 4 {
      ShownDone(lines, limit, used);
    } else {
      var line := Redacted(lines[0], limit - used - 4);
      RedactedIsOneLine(lines[0], limit - used - 4);
      ShownAreOneLine(lines[1..], limit, used + Bytes(line) + 1);
      ShownNext(lines, limit, used);
    }
  }

  lemma {:induction false} ShownTwice(lines: seq<string>, limit: nat, used: nat)
    ensures Shown(Shown(lines, limit, used), limit, used) == Shown(lines, limit, used)
    decreases |lines|
  {
    hide Redacted, Bytes, Shown, Unlines;
    if lines == [] || limit < used + 4 {
      ShownDone(lines, limit, used);
      ShownDone([], limit, used);
    } else {
      var line := Redacted(lines[0], limit - used - 4);
      var rest := Shown(lines[1..], limit, used + Bytes(line) + 1);
      RedactIsIdempotent(lines[0], limit - used - 4);
      ShownTwice(lines[1..], limit, used + Bytes(line) + 1);
      ShownNext(lines, limit, used);
      assert ([line] + rest)[1..] == rest;
      ShownNext([line] + rest, limit, used);
    }
  }

  // ---- Main results for many lines ----

  /** The output exceeds the limit by at most one byte: its last newline. */
  lemma RedactLinesStaysNearLimit(value: string, limit: nat)
    ensures Bytes(RedactedLines(value, limit)) <= limit + 1
  {
    ShownStaysNearLimit(Lines(value), limit, 0);
  }

  /** No token of the whole output leaks, and no credential word and no `@` is left anywhere in it. */
  lemma NoLineLeaks(value: string, limit: nat)
    ensures forall i | 0 <= i < |Tokens(RedactedLines(value, limit))| :: !Leaks(Tokens(RedactedLines(value, limit))[i])
    ensures NamesNothing(RedactedLines(value, limit))
  {
    hide Tokens, Lines, Shown, Unlines, Leaks, NamesNothing, Sensitive;
    ShownAreSafe(Lines(value), limit, 0);
    SafeIsLeakFree(Tokens(RedactedLines(value, limit)));
    ShownNameNothing(Lines(value), limit, 0);
  }

  lemma {:induction false} ShownNameNothing(lines: seq<string>, limit: nat, used: nat)
    ensures NamesNothing(Unlines(Shown(lines, limit, used)))
    decreases |lines|
  {
    hide Redacted, Shown, Unlines, Bytes, NamesNothing, Leaks, Tokens;
    if lines == [] || limit < used + 4 {
      ShownDone(lines, limit, used);
      EmptyNamesNothing();
    } else {
      var line := Redacted(lines[0], limit - used - 4);
      var next := used + Bytes(line) + 1;
      NothingSensitiveRemains(lines[0], limit - used - 4);
      ShownNameNothing(lines[1..], limit, next);
      ShownNext(lines, limit, used);
      NamesNothingOfConcat(line, '\n', Unlines(Shown(lines[1..], limit, next)));
    }
  }

  /** The output's lines are, one for one, redactions of the first input lines. */
  lemma LinesStayAligned(value: string, limit: nat)
    ensures Lines(RedactedLines(value, limit)) == Shown(Lines(value), limit, 0)
    ensures |Lines(RedactedLines(value, limit))| <= |Lines(value)|
  {
    ShownAreOneLine(Lines(value), limit, 0);
    LinesOfUnlines(Shown(Lines(value), limit, 0));
  }

  /** Redacting many lines a second time changes nothing. */
  lemma RedactLinesIsIdempotent(value: string, limit: nat)
    ensures RedactedLines(RedactedLines(value, limit), limit) == RedactedLines(value, limit)
  {
    LinesStayAligned(value, limit);
    ShownTwice(Lines(value), limit, 0);
  }
}

/** The character scanners `repairJson` runs over a model's reply before
    handing it to `JSON.parse`. Each scanner walks the text left to right,
    tracking whether it is inside a string literal (and just after a
    backslash there), and appends to an output string.

    Every scanner is specified by a function that processes its input from
    the last character backwards (so that a prefix of the input determines a
    prefix of the output), and each method is proved to compute that
    function. The properties of each pass are lemmas about the function. */
module JsonScan {
  import opened Wrappers
  import opened Text

  // ---------------------------------------------------------------------
  // The string-literal lexer shared by the scanners

  /** Where a scan stands with respect to string literals. */
  datatype Lex = Lex(inString: bool, escaped: bool)

  const Start: Lex := Lex(false, false)

  /** One character of the string lexer: a `"` opens a string; inside one a
      backslash escapes the next character and an unescaped `"` closes it. */
  function LexStep(st: Lex, ch: char): Lex {
    if st.inString then
      if st.escaped then Lex(true, false)
      else if ch == '\\' then Lex(true, true)
      else if ch == '"' then Lex(false, false)
      else st
    else if ch == '"' then Lex(true, false)
    else st
  }

  /** The lexer state after reading `s` from state `st`. */
  function LexFrom(st: Lex, s: string): Lex
    decreases |s|
  {
    if s == [] then st else LexStep(LexFrom(st, s[..|s| - 1]), s[|s| - 1])
  }

  /** Reading `a + b` is reading `a`, then `b`. */
  lemma {:induction false} LexConcat(st: Lex, a: string, b: string)
    ensures LexFrom(st, a + b) == LexFrom(LexFrom(st, a), b)
    decreases |b|
  {
    if b == [] {
      assert a + b == a;
    } else {
      var b' := b[..|b| - 1];
      assert (a + b)[..|a + b| - 1] == a + b';
      LexConcat(st, a, b');
    }
  }

  /** `s` with every occurrence of `c` removed. */
  function DropAll(s: string, c: char): (r: string)
    ensures |r| <= |s|
    decreases |s|
  {
    if s == [] then [] else DropAll(s[..|s| - 1], c) + (if s[|s| - 1] == c then [] else [s[|s| - 1]])
  }

  lemma {:induction false} DropAllConcat(a: string, b: string, c: char)
    ensures DropAll(a + b, c) == DropAll(a, c) + DropAll(b, c)
    decreases |b|
  {
    if b == [] {
      assert a + b == a;
    } else {
      var b' := b[..|b| - 1];
      assert (a + b)[..|a + b| - 1] == a + b';
      DropAllConcat(a, b', c);
    }
  }

  // ---------------------------------------------------------------------
  // normalizeJsonPunctuation

  /** The character written for `ch`: outside strings the full-width comma
      and colon become their ASCII forms. */
  function NormalChar(st: Lex, ch: char): char {
    if !st.inString && ch == '，' then ','
    else if !st.inString && ch == '：' then ':'
    else ch
  }

  /** The output of `normalizeJsonPunctuation` on `s` from state `st`. */
  function Normalized(st: Lex, s: string): string
    decreases |s|
  {
    if s == [] then []
    else
      var p := s[..|s| - 1];
      Normalized(st, p) + [NormalChar(LexFrom(st, p), s[|s| - 1])]
  }

  method NormalizeJsonPunctuation(input: string) returns (result: string)
    ensures result == Normalized(Start, input)
  {
    result := "";
    var inString, escaped := false, false;
    for i := 0 to |input|
      invariant !inString ==> !escaped
      invariant Lex(inString, escaped) == LexFrom(Start, input[..i])
      invariant result == Normalized(Start, input[..i])
    {
      ghost var p := input[..i + 1];
      assert p[..|p| - 1] == input[..i];
      var ch := input[i];
      if inString {
        result := result + [ch];
        if escaped {
          escaped := false;
          continue;
        }
        if ch == '\\' {
          escaped := true;
          continue;
        }
        if ch == '"' {
          inString := false;
        }
        continue;
      }
      if ch == '"' {
        inString := true;
        result := result + [ch];
        continue;
      }
      if ch == '，' {
        result := result + [','];
        continue;
      }
      if ch == '：' {
        result := result + [':'];
        continue;
      }
      result := result + [ch];
    }
    assert input[..|input|] == input;
  }

  /** Normalising keeps the length and writes at position `i` the character
      `NormalChar` gives for `s[i]` in the lexer state before it. */
  lemma {:induction false} NormalizedAt(st: Lex, s: string, i: int)
    requires 0 <= i < |s|
    ensures |Normalized(st, s)| == |s|
    ensures Normalized(st, s)[i] == NormalChar(LexFrom(st, s[..i]), s[i])
    decreases |s|
  {
    var p := s[..|s| - 1];
    if i < |p| {
      NormalizedAt(st, p, i);
      assert p[..i] == s[..i];
    } else if p != [] {
      NormalizedAt(st, p, 0);
    }
  }

  /** Only a full-width comma or colon outside a string literal changes, and
      each of those changes to its ASCII form. */
  lemma NormalizeChanges(s: string, i: int)
    requires 0 <= i < |s|
    ensures |Normalized(Start, s)| == |s|
    ensures Normalized(Start, s)[i] != s[i] <==>
              !LexFrom(Start, s[..i]).inString && (s[i] == '，' || s[i] == '：')
    ensures Normalized(Start, s)[i] != s[i] ==> Normalized(Start, s)[i] == (if s[i] == '，' then ',' else ':')
  {
    NormalizedAt(Start, s, i);
  }

  /** The lexer reads the normalised text exactly as it reads the original:
      the string literals are where they were. */
  lemma {:induction false} NormalizedLex(st: Lex, s: string)
    ensures LexFrom(st, Normalized(st, s)) == LexFrom(st, s)
    decreases |s|
  {
    if s != [] {
      var p := s[..|s| - 1];
      NormalizedLex(st, p);
      var n := Normalized(st, s);
      assert n[..|n| - 1] == Normalized(st, p);
    }
  }

  /** Normalising twice is normalising once. */
  lemma {:induction false} NormalizedIdempotent(st: Lex, s: string)
    ensures Normalized(st, Normalized(st, s)) == Normalized(st, s)
    decreases |s|
  {
    if s != [] {
      var p := s[..|s| - 1];
      NormalizedIdempotent(st, p);
      NormalizedLex(st, p);
      var n := Normalized(st, s);
      assert n[..|n| - 1] == Normalized(st, p);
    }
  }

  // ---------------------------------------------------------------------
  // escapeNewlinesInStrings

  /** The text written for `ch`: an unescaped line feed or carriage return
      inside a string becomes two backslashes and the letter `n` or `r`;
      everything else is copied. */
  function NewlineChunk(st: Lex, ch: char): string {
    if st.inString && !st.escaped && ch == '\n' then ['\\', '\\', 'n']
    else if st.inString && !st.escaped && ch == '\r' then ['\\', '\\', 'r']
    else [ch]
  }

  /** The output of `escapeNewlinesInStrings` on `s` from state `st`. */
  function NewlinesEscaped(st: Lex, s: string): string
    decreases |s|
  {
    if s == [] then []
    else
      var p := s[..|s| - 1];
      NewlinesEscaped(st, p) + NewlineChunk(LexFrom(st, p), s[|s| - 1])
  }

  method EscapeNewlinesInStrings(input: string) returns (result: string)
    ensures result == NewlinesEscaped(Start, input)
  {
    result := "";
    var inString, escaped := false, false;
    for i := 0 to |input|
      invariant !inString ==> !escaped
      invariant Lex(inString, escaped) == LexFrom(Start, input[..i])
      invariant result == NewlinesEscaped(Start, input[..i])
    {
      ghost var p := input[..i + 1];
      assert p[..|p| - 1] == input[..i];
      var ch := input[i];
      if inString {
        if escaped {
          result := result + [ch];
          escaped := false;
          continue;
        }
        if ch == '\\' {
          result := result + [ch];
          escaped := true;
          continue;
        }
        if ch == '"' {
          inString := false;
          result := result + [ch];
          continue;
        }
        if ch == '\n' {
          result := result + ['\\', '\\', 'n'];
          continue;
        }
        if ch == '\r' {
          result := result + ['\\', '\\', 'r'];
          continue;
        }
      } else if ch == '"' {
        inString := true;
      }
      result := result + [ch];
    }
    assert input[..|input|] == input;
  }

  lemma {:induction false} NewlinesEscapedConcat(st: Lex, a: string, b: string)
    ensures NewlinesEscaped(st, a + b) == NewlinesEscaped(st, a) + NewlinesEscaped(LexFrom(st, a), b)
    decreases |b|
  {
    if b == [] {
      assert a + b == a;
    } else {
      var b', x := b[..|b| - 1], b[|b| - 1];
      var y := LexFrom(st, a);
      var c := NewlineChunk(LexFrom(y, b'), x);
      SplitLast(a, b, []);
      calc {
        NewlinesEscaped(st, a + b);
      ==
        NewlinesEscaped(st, (a + b') + [x]);
      == { NewlinesEscapedSnoc(st, a + b', x); LexConcat(st, a, b'); }
        NewlinesEscaped(st, a + b') + c;
      == { NewlinesEscapedConcat(st, a, b'); }
        NewlinesEscaped(st, a) + NewlinesEscaped(y, b') + c;
      == { NewlinesEscapedSnoc(y, b', x); }
        NewlinesEscaped(st, a) + NewlinesEscaped(y, b);
      }
    }
  }

  /** Reading one more character is one more lexer step. */
  lemma LexSnoc(st: Lex, p: string, c: char)
    ensures LexFrom(st, p + [c]) == LexStep(LexFrom(st, p), c)
  {
    assert (p + [c])[..|p|] == p;
  }

  /** Reading the text written for one character leaves the lexer where
      reading the character itself leaves it. */
  lemma NewlineChunkLex(st: Lex, ch: char)
    ensures LexFrom(st, NewlineChunk(st, ch)) == LexStep(st, ch)
  {
    var c := NewlineChunk(st, ch);
    if |c| == 3 {
      LexSnoc(st, [], '\\');
      LexSnoc(st, ['\\'], '\\');
      LexSnoc(st, ['\\', '\\'], c[2]);
      assert c == ['\\', '\\'] + [c[2]];
    } else {
      LexSnoc(st, [], ch);
    }
  }

  /** The escaped text has its string literals exactly where the original
      had them: the written escapes keep the lexer inside the string. */
  lemma {:induction false} NewlinesEscapedLex(st: Lex, s: string)
    ensures LexFrom(st, NewlinesEscaped(st, s)) == LexFrom(st, s)
    decreases |s|
  {
    if s != [] {
      var p := s[..|s| - 1];
      NewlinesEscapedLex(st, p);
      LexConcat(st, NewlinesEscaped(st, p), NewlineChunk(LexFrom(st, p), s[|s| - 1]));
      NewlineChunkLex(LexFrom(st, p), s[|s| - 1]);
    }
  }

  /** Escaping one more character appends the text written for it. */
  lemma NewlinesEscapedSnoc(st: Lex, p: string, c: char)
    ensures NewlinesEscaped(st, p + [c]) == NewlinesEscaped(st, p) + NewlineChunk(LexFrom(st, p), c)
  {
    assert (p + [c])[..|p|] == p;
  }

  /** The text written for one character passes through unchanged. */
  lemma NewlineChunkFixed(st: Lex, ch: char)
    ensures NewlinesEscaped(st, NewlineChunk(st, ch)) == NewlineChunk(st, ch)
  {
    if st.inString && !st.escaped && (ch == '\n' || ch == '\r') {
      var pair, letter := ['\\', '\\'], if ch == '\n' then 'n' else 'r';
      calc {
        NewlinesEscaped(st, NewlineChunk(st, ch));
      == { assert NewlineChunk(st, ch) == pair + [letter]; }
        NewlinesEscaped(st, pair + [letter]);
      == { NewlinesEscapedSnoc(st, pair, letter); }
        NewlinesEscaped(st, pair) + NewlineChunk(LexFrom(st, pair), letter);
      == { EscapedBackslashFixed(st); }
        pair + NewlineChunk(st, letter);
      ==
        NewlineChunk(st, ch);
      }
    } else {
      NewlinesEscapedSnoc(st, [], ch);
      assert [] + [ch] == [ch];
    }
  }

  /** Inside a string, an escaped backslash is copied and leaves the lexer
      where it was. */
  lemma EscapedBackslashFixed(st: Lex)
    requires st.inString && !st.escaped
    ensures LexFrom(st, ['\\', '\\']) == st
    ensures NewlinesEscaped(st, ['\\', '\\']) == ['\\', '\\']
  {
    var one := ['\\'];
    NewlinesEscapedSnoc(st, [], '\\');
    LexSnoc(st, [], '\\');
    assert [] + one == one;
    NewlinesEscapedSnoc(st, one, '\\');
    LexSnoc(st, one, '\\');
    assert one + ['\\'] == ['\\', '\\'];
  }

  /** Escaping twice is escaping once: no raw line break is left inside a
      string literal after one pass. */
  lemma {:induction false} NewlinesEscapedIdempotent(st: Lex, s: string)
    ensures NewlinesEscaped(st, NewlinesEscaped(st, s)) == NewlinesEscaped(st, s)
    decreases |s|
  {
    if s != [] {
      var p := s[..|s| - 1];
      var e := NewlinesEscaped(st, p);
      var x := LexFrom(st, p);
      NewlinesEscapedIdempotent(st, p);
      NewlinesEscapedConcat(st, e, NewlineChunk(x, s[|s| - 1]));
      NewlinesEscapedLex(st, p);
      NewlineChunkFixed(x, s[|s| - 1]);
    }
  }

  /** Text without line breaks is copied unchanged. */
  lemma {:induction false} NewlinesEscapedNoBreaks(st: Lex, s: string)
    requires forall i :: 0 <= i < |s| ==> s[i] != '\n' && s[i] != '\r'
    ensures NewlinesEscaped(st, s) == s
    decreases |s|
  {
    if s != [] {
      var p := s[..|s| - 1];
      NewlinesEscapedNoBreaks(st, p);
    }
  }

  // ---------------------------------------------------------------------
  // escapeUnescapedQuotesInStrings

  /** The first position at or after `j` that is not whitespace, or the
      end of the text. */
  function NextNonBlank(s: string, j: nat): (k: nat)
    requires j <= |s|
    ensures j <= k <= |s|
    decreases |s| - j
  {
    if j == |s| || !IsJsWhitespace(s[j]) then j else NextNonBlank(s, j + 1)
  }

  /** `NextNonBlank` skips whitespace only, and stops at the first other
      character. */
  lemma {:induction false} NextNonBlankMeaning(s: string, j: nat)
    requires j <= |s|
    ensures forall m :: j <= m < NextNonBlank(s, j) ==> IsJsWhitespace(s[m])
    ensures NextNonBlank(s, j) < |s| ==> !IsJsWhitespace(s[NextNonBlank(s, j)])
    decreases |s| - j
  {
    if j < |s| && IsJsWhitespace(s[j]) {
      NextNonBlankMeaning(s, j + 1);
    }
  }

  /** A quote before position `j` closes its string: the next character that
      is not whitespace is `,`, `}` or `]`, or there is none. */
  predicate ClosesAt(s: string, j: nat)
    requires j <= |s|
  {
    var k := NextNonBlank(s, j);
    k == |s| || s[k] == ',' || s[k] == '}' || s[k] == ']'
  }

  /** An unescaped quote inside a string that does not close it. */
  predicate StrayQuote(s: string, i: nat, st: Lex)
    requires i < |s|
  {
    st.inString && !st.escaped && s[i] == '"' && !ClosesAt(s, i + 1)
  }

  /** The scan state after position `i`: as the lexer, except that a stray
      quote leaves the string open. */
  function QuoteStep(s: string, i: nat, st: Lex): Lex
    requires i < |s|
  {
    if StrayQuote(s, i, st) then st else LexStep(st, s[i])
  }

  /** The scan state before position `n`. */
  function QuoteState(s: string, n: nat): Lex
    requires n <= |s|
  {
    if n == 0 then Start else QuoteStep(s, n - 1, QuoteState(s, n - 1))
  }

  /** The text written for position `i`: a stray quote gets a backslash. */
  function QuoteChunk(s: string, i: nat, st: Lex): string
    requires i < |s|
  {
    if StrayQuote(s, i, st) then ['\\', '"'] else [s[i]]
  }

  /** The output of `escapeUnescapedQuotesInStrings` for the first `n`
      characters of `s`. */
  function QuotesEscaped(s: string, n: nat): string
    requires n <= |s|
  {
    if n == 0 then [] else QuotesEscaped(s, n - 1) + QuoteChunk(s, n - 1, QuoteState(s, n - 1))
  }

  /** The inner search of the pass: the first position at or after `from`
      that is not whitespace, or the end of the text. */
  method SkipWhitespace(input: string, from: nat) returns (j: nat)
    requires from <= |input|
    ensures j == NextNonBlank(input, from)
  {
    j := from;
    while j < |input| && IsJsWhitespace(input[j])
      invariant from <= j <= |input|
      invariant NextNonBlank(input, j) == NextNonBlank(input, from)
      decreases |input| - j
    {
      j := j + 1;
    }
  }

  method EscapeUnescapedQuotesInStrings(input: string) returns (result: string)
    ensures result == QuotesEscaped(input, |input|)
  {
    result := "";
    var inString, escaped := false, false;
    for i := 0 to |input|
      invariant !inString ==> !escaped
      invariant Lex(inString, escaped) == QuoteState(input, i)
      invariant result == QuotesEscaped(input, i)
    {
      var chunk;
      chunk, inString, escaped := EscapeQuoteAt(input, i, inString, escaped);
      result := result + chunk;
    }
  }

  /** One turn of the pass's loop: the text written for position `i` and
      the state after it. */
  method EscapeQuoteAt(input: string, i: nat, inString: bool, escaped: bool)
    returns (chunk: string, inString': bool, escaped': bool)
    requires i < |input| && (!inString ==> !escaped)
    ensures chunk == QuoteChunk(input, i, Lex(inString, escaped))
    ensures Lex(inString', escaped') == QuoteStep(input, i, Lex(inString, escaped))
    ensures !inString' ==> !escaped'
  {
    var ch := input[i];
    inString', escaped' := inString, escaped;
    if inString {
      if escaped {
        return [ch], inString', false;
      }
      if ch == '\\' {
        return [ch], inString', true;
      }
      if ch == '"' {
        var j := SkipWhitespace(input, i + 1);
        if j < |input| && input[j] != ',' && input[j] != '}' && input[j] != ']' {
          return ['\\', '"'], inString', escaped';
        }
        return [ch], false, escaped';
      }
      return [ch], inString', escaped';
    }
    if ch == '"' {
      inString' := true;
    }
    chunk := [ch];
  }

  /** The lexer reading the output sees exactly the strings the pass
      decided on: every written backslash-quote stays inside its string. */
  lemma {:induction false} QuotesEscapedLex(s: string, n: nat)
    requires n <= |s|
    ensures LexFrom(Start, QuotesEscaped(s, n)) == QuoteState(s, n)
  {
    if n > 0 {
      QuotesEscapedLex(s, n - 1);
      QuotesLexStep(s, n);
    }
  }

  /** The induction step of `QuotesEscapedLex`. */
  lemma QuotesLexStep(s: string, n: nat)
    requires 0 < n <= |s|
    requires LexFrom(Start, QuotesEscaped(s, n - 1)) == QuoteState(s, n - 1)
    ensures LexFrom(Start, QuotesEscaped(s, n)) == QuoteState(s, n)
  {
    var st := QuoteState(s, n - 1);
    var out, c := QuotesEscaped(s, n - 1), QuoteChunk(s, n - 1, st);
    calc {
      LexFrom(Start, QuotesEscaped(s, n));
    == { QuotesUnfold(s, n); }
      LexFrom(Start, out + c);
    == { LexConcat(Start, out, c); }
      LexFrom(st, c);
    == { QuoteChunkLex(s, n - 1, st); }
      QuoteStep(s, n - 1, st);
    == { QuotesUnfold(s, n); }
      QuoteState(s, n);
    }
  }

  /** One more position: the output grows by that position's chunk and
      the state takes one step. */
  lemma QuotesUnfold(s: string, n: nat)
    requires 0 < n <= |s|
    ensures QuotesEscaped(s, n) == QuotesEscaped(s, n - 1) + QuoteChunk(s, n - 1, QuoteState(s, n - 1))
    ensures QuoteState(s, n) == QuoteStep(s, n - 1, QuoteState(s, n - 1))
  {
  }

  /** Reading the text written for one position moves the lexer as the
      pass's own state moves. */
  lemma QuoteChunkLex(s: string, i: nat, st: Lex)
    requires i < |s|
    ensures LexFrom(st, QuoteChunk(s, i, st)) == QuoteStep(s, i, st)
  {
    if StrayQuote(s, i, st) {
      LexSnoc(st, [], '\\');
      LexSnoc(st, ['\\'], '"');
      assert ['\\', '"'] == ['\\'] + ['"'];
    } else {
      LexSnoc(st, [], s[i]);
    }
  }

  /** A string is closed only by a quote that is followed, after whitespace,
      by `,`, `}`, `]` or the end of the text. */
  lemma QuoteClosesOnlyBeforeDelimiter(s: string, i: nat)
    requires i < |s|
    requires QuoteState(s, i).inString && !QuoteState(s, i + 1).inString
    ensures s[i] == '"' && ClosesAt(s, i + 1)
  {
  }

  /** A quote that ends a key is followed by `:`, so the pass escapes it and
      the string runs on to the end of the text. */
  lemma KeyTerminatorEscaped()
    ensures QuotesEscaped("{\"a\":1}", 7) == "{\"a\\\":1}"
    ensures QuoteState("{\"a\":1}", 7).inString
  {
    var s := "{\"a\":1}";
    assert !ClosesAt(s, 4);
    assert QuoteState(s, 3) == Lex(true, false);
    assert QuoteState(s, 4) == Lex(true, false);
  }

  /** A quote inside a string value that is followed by more text is
      escaped; the one before `]` closes the string. */
  lemma InnerQuoteEscaped()
    ensures QuotesEscaped("[\"x\"y\"]", 7) == "[\"x\\\"y\"]"
    ensures !QuoteState("[\"x\"y\"]", 7).inString
  {
    var s := "[\"x\"y\"]";
    assert !ClosesAt(s, 4);
    assert ClosesAt(s, 6);
    assert QuoteState(s, 3) == Lex(true, false);
    assert QuoteState(s, 4) == Lex(true, false);
    assert QuoteState(s, 5) == Lex(true, false);
  }

  lemma QuoteChunkBackslashes(s: string, i: nat, st: Lex)
    requires i < |s|
    ensures DropAll(QuoteChunk(s, i, st), '\\') == DropAll([s[i]], '\\')
  {
    if StrayQuote(s, i, st) {
      DropAllConcat(['\\'], ['"'], '\\');
      assert ['\\'] + ['"'] == ['\\', '"'];
    }
  }

  /** Appending text with the same characters apart from `c` to texts with
      the same characters apart from `c` keeps them so. */
  lemma DropAllSnoc(out: string, chunk: string, t: string, x: char, c: char)
    requires DropAll(out, c) == DropAll(t, c)
    requires DropAll(chunk, c) == DropAll([x], c)
    ensures DropAll(out + chunk, c) == DropAll(t + [x], c)
  {
    DropAllConcat(out, chunk, c);
    DropAllConcat(t, [x], c);
  }

  /** The pass only inserts backslashes. */
  lemma {:induction false} QuotesEscapedOnlyBackslashes(s: string, n: nat)
    requires n <= |s|
    ensures DropAll(QuotesEscaped(s, n), '\\') == DropAll(s[..n], '\\')
  {
    if n > 0 {
      QuotesEscapedOnlyBackslashes(s, n - 1);
      QuotesBackslashStep(s, n, s[..n - 1]);
    }
  }

  /** The induction step of `QuotesEscapedOnlyBackslashes`. */
  lemma QuotesBackslashStep(s: string, n: nat, t: string)
    requires 0 < n <= |s| && t == s[..n - 1]
    requires DropAll(QuotesEscaped(s, n - 1), '\\') == DropAll(t, '\\')
    ensures DropAll(QuotesEscaped(s, n), '\\') == DropAll(s[..n], '\\')
  {
    var st := QuoteState(s, n - 1);
    var out, chunk, x := QuotesEscaped(s, n - 1), QuoteChunk(s, n - 1, st), s[n - 1];
    TakeSnoc(s, n, t);
    QuotesUnfold(s, n);
    QuoteChunkBackslashes(s, n - 1, st);
    DropAllSnoc(out, chunk, t, x, '\\');
  }

  /** A prefix one longer is the shorter prefix and one more element. */
  lemma TakeSnoc<T>(s: seq<T>, n: nat, t: seq<T>)
    requires 0 < n <= |s| && t == s[..n - 1]
    ensures s[..n] == t + [s[n - 1]]
  {
  }

  // ---------------------------------------------------------------------
  // insertMissingCommasInArrays and insertMissingCommasInObjects

  /** The kind of container a bracket opened. */
  datatype Container = ArrayBox | ObjectBox

  /** Which of the two comma passes runs. */
  datatype CommaPass = InArrays | InObjects

  /** The state of a comma pass: the string lexer, the last significant
      character outside strings (`''` at the start) and the open containers. */
  datatype Scan = Scan(lex: Lex, last: Option<char>, stack: seq<Container>)

  const ScanStart: Scan := Scan(Start, None, [])

  /** The whitespace the comma passes skip: only space, LF, CR and tab. */
  predicate IsFormatSpace(ch: char) {
    ch == ' ' || ch == '\n' || ch == '\r' || ch == '\t'
  }

  /** A character that can begin a JSON value. */
  predicate IsValueStart(ch: char) {
    ch == '{' || ch == '[' || ch == '"' || ch == '-' || ('0' <= ch <= '9') ||
    ch == 't' || ch == 'f' || ch == 'n'
  }

  /** The innermost open container, if any. */
  function Top(stack: seq<Container>): Option<Container> {
    if stack == [] then None else Some(stack[|stack| - 1])
  }

  /** Brackets push and pop containers; popping an empty stack does nothing. */
  function StackStep(stack: seq<Container>, ch: char): seq<Container> {
    if ch == '[' then stack + [ArrayBox]
    else if ch == '{' then stack + [ObjectBox]
    else if ch == ']' || ch == '}' then (if stack == [] then [] else stack[..|stack| - 1])
    else stack
  }

  /** The comma condition of each pass, for a significant character `ch`
      outside strings. */
  predicate Missing(pass: CommaPass, st: Scan, ch: char) {
    match pass
    case InArrays =>
      Top(st.stack) == Some(ArrayBox) && IsValueStart(ch) && st.last.Some? &&
      st.last.value != '[' && st.last.value != ',' && st.last.value != ':'
    case InObjects =>
      Top(st.stack) == Some(ObjectBox) && ch == '"' && st.last.Some? &&
      st.last.value != '{' && st.last.value != ',' && st.last.value != ':'
  }

  /** The state after one character. */
  function ScanStep(st: Scan, ch: char): Scan {
    if st.lex.inString then
      var closes := !st.lex.escaped && ch == '"';
      Scan(LexStep(st.lex, ch), if closes then Some('"') else st.last, st.stack)
    else if IsFormatSpace(ch) then st
    else Scan(LexStep(st.lex, ch), Some(ch), if ch == '"' then st.stack else StackStep(st.stack, ch))
  }

  /** The state after reading `s` from `st`. */
  function ScanFrom(st: Scan, s: string): Scan
    decreases |s|
  {
    if s == [] then st else ScanStep(ScanFrom(st, s[..|s| - 1]), s[|s| - 1])
  }

  /** The text written for one character: a comma first when it is missing. */
  function CommaChunk(pass: CommaPass, st: Scan, ch: char): string {
    if !st.lex.inString && !IsFormatSpace(ch) && Missing(pass, st, ch) then [',', ch] else [ch]
  }

  /** The output of a comma pass on `s` from state `st`. */
  function CommasInserted(pass: CommaPass, st: Scan, s: string): string
    decreases |s|
  {
    if s == [] then []
    else
      var p := s[..|s| - 1];
      CommasInserted(pass, st, p) + CommaChunk(pass, ScanFrom(st, p), s[|s| - 1])
  }

  method InsertMissingCommasInArrays(input: string) returns (output: string)
    ensures output == CommasInserted(InArrays, ScanStart, input)
  {
    output := "";
    var inString, escaped := false, false;
    var lastSignificant: Option<char> := None;
    var stack: seq<Container> := [];
    for i := 0 to |input|
      invariant !inString ==> !escaped
      invariant Scan(Lex(inString, escaped), lastSignificant, stack) == ScanFrom(ScanStart, input[..i])
      invariant output == CommasInserted(InArrays, ScanStart, input[..i])
    {
      CommasStep(InArrays, input, i);
      var chunk;
      chunk, inString, escaped, lastSignificant, stack := CommaAt(InArrays, input[i], inString, escaped, lastSignificant, stack);
      output := output + chunk;
    }
    assert input[..|input|] == input;
  }

  method InsertMissingCommasInObjects(input: string) returns (output: string)
    ensures output == CommasInserted(InObjects, ScanStart, input)
  {
    output := "";
    var inString, escaped := false, false;
    var lastSignificant: Option<char> := None;
    var stack: seq<Container> := [];
    for i := 0 to |input|
      invariant !inString ==> !escaped
      invariant Scan(Lex(inString, escaped), lastSignificant, stack) == ScanFrom(ScanStart, input[..i])
      invariant output == CommasInserted(InObjects, ScanStart, input[..i])
    {
      CommasStep(InObjects, input, i);
      var chunk;
      chunk, inString, escaped, lastSignificant, stack := CommaAt(InObjects, input[i], inString, escaped, lastSignificant, stack);
      output := output + chunk;
    }
    assert input[..|input|] == input;
  }

  /** One turn of either comma pass's loop: the text written for `ch` and
      the state after it. */
  method CommaAt(pass: CommaPass, ch: char, inString: bool, escaped: bool,
                 lastSignificant: Option<char>, stack: seq<Container>)
    returns (chunk: string, inString': bool, escaped': bool,
             lastSignificant': Option<char>, stack': seq<Container>)
    requires !inString ==> !escaped
    ensures chunk == CommaChunk(pass, Scan(Lex(inString, escaped), lastSignificant, stack), ch)
    ensures Scan(Lex(inString', escaped'), lastSignificant', stack') ==
            ScanStep(Scan(Lex(inString, escaped), lastSignificant, stack), ch)
    ensures !inString' ==> !escaped'
  {
    inString', escaped', lastSignificant', stack' := inString, escaped, lastSignificant, stack;
    if inString {
      if escaped {
        return [ch], inString', false, lastSignificant', stack';
      }
      if ch == '\\' {
        return [ch], inString', true, lastSignificant', stack';
      }
      if ch == '"' {
        return [ch], false, escaped', Some('"'), stack';
      }
      return [ch], inString', escaped', lastSignificant', stack';
    }
    if IsFormatSpace(ch) {
      return [ch], inString', escaped', lastSignificant', stack';
    }
    chunk := [];
    var missing;
    if pass == InArrays {
      var inArray := stack != [] && stack[|stack| - 1] == ArrayBox;
      missing := inArray && IsValueStart(ch) && lastSignificant.Some? &&
        lastSignificant.value != '[' && lastSignificant.value != ',' && lastSignificant.value != ':';
    } else {
      var inObject := stack != [] && stack[|stack| - 1] == ObjectBox;
      missing := inObject && ch == '"' && lastSignificant.Some? &&
        lastSignificant.value != '{' && lastSignificant.value != ',' && lastSignificant.value != ':';
    }
    if missing {
      chunk := [','];
    }
    if ch == '"' {
      inString' := true;
    } else if ch == '[' {
      stack' := stack + [ArrayBox];
    } else if ch == '{' {
      stack' := stack + [ObjectBox];
    } else if ch == ']' || ch == '}' {
      if stack != [] {
        stack' := stack[..|stack| - 1];
      }
    }
    chunk := chunk + [ch];
    lastSignificant' := Some(ch);
  }

  /** A comma pass only inserts commas: deleting every comma from its output
      and from its input gives the same text. */
  lemma {:induction false} CommasOnlyInserted(pass: CommaPass, st: Scan, s: string)
    ensures DropAll(CommasInserted(pass, st, s), ',') == DropAll(s, ',')
    decreases |s|
  {
    if s != [] {
      var p, x := s[..|s| - 1], s[|s| - 1];
      CommasOnlyInserted(pass, st, p);
      var out := CommasInserted(pass, st, p);
      var c := CommaChunk(pass, ScanFrom(st, p), x);
      assert CommasInserted(pass, st, s) == out + c;
      DropAllConcat(out, c, ',');
      ChunkDropsComma(pass, ScanFrom(st, p), x);
      DropAllConcat(p, [x], ',');
      SplitLast([], s, []);
    }
  }

  /** The text written for one character is that character, or a comma and
      that character. */
  lemma ChunkDropsComma(pass: CommaPass, st: Scan, x: char)
    ensures DropAll(CommaChunk(pass, st, x), ',') == DropAll([x], ',')
  {
    if |CommaChunk(pass, st, x)| == 2 {
      DropAllConcat([','], [x], ',');
      assert CommaChunk(pass, st, x) == [','] + [x];
    }
  }

  /** A comma pass follows string literals exactly as the lexer does. */
  lemma {:induction false} ScanLex(st: Scan, s: string)
    ensures ScanFrom(st, s).lex == LexFrom(st.lex, s)
    decreases |s|
  {
    if s != [] {
      ScanLex(st, s[..|s| - 1]);
    }
  }

  /** Every inserted comma lies outside string literals: the lexer reads
      the output exactly as it reads the input. */
  lemma {:induction false} CommasKeepStrings(pass: CommaPass, st: Scan, s: string)
    ensures LexFrom(st.lex, CommasInserted(pass, st, s)) == LexFrom(st.lex, s)
    decreases |s|
  {
    if s != [] {
      var p := s[..|s| - 1];
      var x := ScanFrom(st, p);
      var c := CommaChunk(pass, x, s[|s| - 1]);
      CommasKeepStrings(pass, st, p);
      ScanLex(st, p);
      LexConcat(st.lex, CommasInserted(pass, st, p), c);
      var y := LexFrom(st.lex, p);
      if |c| == 2 {
        LexSnoc(y, [], ',');
        LexSnoc(y, [','], s[|s| - 1]);
        assert c == [','] + [s[|s| - 1]];
      } else {
        LexSnoc(y, [], s[|s| - 1]);
      }
    }
  }

  /** Reading one more character is one more scan step and appends the text
      written for it. */
  lemma CommasSnoc(pass: CommaPass, st: Scan, p: string, c: char)
    ensures ScanFrom(st, p + [c]) == ScanStep(ScanFrom(st, p), c)
    ensures CommasInserted(pass, st, p + [c]) == CommasInserted(pass, st, p) + CommaChunk(pass, ScanFrom(st, p), c)
  {
    assert (p + [c])[..|p|] == p;
  }

  /** The step of a comma pass's loop at index `i`. */
  lemma CommasStep(pass: CommaPass, input: string, i: nat)
    requires i < |input|
    ensures ScanFrom(ScanStart, input[..i + 1]) == ScanStep(ScanFrom(ScanStart, input[..i]), input[i])
    ensures CommasInserted(pass, ScanStart, input[..i + 1]) ==
            CommasInserted(pass, ScanStart, input[..i]) + CommaChunk(pass, ScanFrom(ScanStart, input[..i]), input[i])
  {
    assert input[..i + 1] == input[..i] + [input[i]];
    CommasSnoc(pass, ScanStart, input[..i], input[i]);
  }

  lemma CommasSpace(pass: CommaPass, st: Scan, q: string, x: char)
    requires !ScanFrom(st, q).lex.inString && IsFormatSpace(x)
    ensures ScanFrom(st, q + [x]) == ScanFrom(st, q)
    ensures CommasInserted(pass, st, q + [x]) == CommasInserted(pass, st, q) + [x]
  {
    CommasSnoc(pass, st, q, x);
  }

  /** Outside strings, layout whitespace leaves the scan state alone. */
  lemma {:induction false} ScanSkipsSpaces(st: Scan, p: string, w: string)
    requires !ScanFrom(st, p).lex.inString
    requires forall i :: 0 <= i < |w| ==> IsFormatSpace(w[i])
    ensures ScanFrom(st, p + w) == ScanFrom(st, p)
    decreases |w|
  {
    if w == [] {
      assert p + w == p;
    } else {
      var w', x := w[..|w| - 1], w[|w| - 1];
      var q := p + w';
      assert p + w == q + [x] by {
        assert w == w' + [x];
      }
      ScanSkipsSpaces(st, p, w');
      assert (q + [x])[..|q|] == q;
    }
  }

  /** Outside strings, layout whitespace is copied unchanged. */
  lemma {:induction false} CommasCopySpaces(pass: CommaPass, st: Scan, p: string, w: string)
    requires !ScanFrom(st, p).lex.inString
    requires forall i :: 0 <= i < |w| ==> IsFormatSpace(w[i])
    ensures CommasInserted(pass, st, p + w) == CommasInserted(pass, st, p) + w
    decreases |w|
  {
    if w == [] {
      assert p + w == p;
    } else {
      var w', x := w[..|w| - 1], w[|w| - 1];
      SplitLast(p, w, CommasInserted(pass, st, p));
      CommasCopySpaces(pass, st, p, w');
      ScanSkipsSpaces(st, p, w');
      CommasSpace(pass, st, p + w', x);
    }
  }

  /** Appending a non-empty `w` is appending all but its last element and
      then that element. */
  lemma SplitLast<T>(p: seq<T>, w: seq<T>, out: seq<T>)
    requires w != []
    ensures p + w == (p + w[..|w| - 1]) + [w[|w| - 1]]
    ensures out + w == (out + w[..|w| - 1]) + [w[|w| - 1]]
    ensures w == w[..|w| - 1] + [w[|w| - 1]]
    ensures forall i :: 0 <= i < |w| - 1 ==> w[..|w| - 1][i] == w[i]
  {
    assert w == w[..|w| - 1] + [w[|w| - 1]];
  }

  /** Outside strings, layout whitespace is copied and leaves the state
      alone. */
  lemma CommasSkipSpaces(pass: CommaPass, st: Scan, p: string, w: string)
    requires !ScanFrom(st, p).lex.inString
    requires forall i :: 0 <= i < |w| ==> IsFormatSpace(w[i])
    ensures ScanFrom(st, p + w) == ScanFrom(st, p)
    ensures CommasInserted(pass, st, p + w) == CommasInserted(pass, st, p) + w
  {
    ScanSkipsSpaces(st, p, w);
    CommasCopySpaces(pass, st, p, w);
  }

  /** Inside an object, a key that follows a value (after any layout
      whitespace) gets a comma written before its opening quote: this is how
      `{"age":1,"score":5 "reason":"好"}` gets its comma before `"reason"`. */
  lemma KeyAfterValueGetsComma(p: string, w: string)
    requires !ScanFrom(ScanStart, p).lex.inString
    requires Top(ScanFrom(ScanStart, p).stack) == Some(ObjectBox)
    requires ScanFrom(ScanStart, p).last.Some?
    requires ScanFrom(ScanStart, p).last.value !in "{,:"
    requires forall i :: 0 <= i < |w| ==> IsFormatSpace(w[i])
    ensures CommasInserted(InObjects, ScanStart, p + w + ['"']) ==
            CommasInserted(InObjects, ScanStart, p) + w + [',', '"']
  {
    var x := ScanFrom(ScanStart, p);
    CommasSkipSpaces(InObjects, ScanStart, p, w);
    CommasSnoc(InObjects, ScanStart, p + w, '"');
    assert x.last.value != '{' && x.last.value != ',' && x.last.value != ':';
    assert !IsFormatSpace('"') && Missing(InObjects, x, '"');
    assert CommaChunk(InObjects, x, '"') == [',', '"'];
  }

  /** Inside an array, a value that follows a value (after any layout
      whitespace) gets a comma written before it. */
  lemma ValueAfterValueGetsComma(p: string, w: string, c: char)
    requires !ScanFrom(ScanStart, p).lex.inString
    requires Top(ScanFrom(ScanStart, p).stack) == Some(ArrayBox)
    requires ScanFrom(ScanStart, p).last.Some?
    requires ScanFrom(ScanStart, p).last.value !in "[,:"
    requires forall i :: 0 <= i < |w| ==> IsFormatSpace(w[i])
    requires IsValueStart(c)
    ensures CommasInserted(InArrays, ScanStart, p + w + [c]) ==
            CommasInserted(InArrays, ScanStart, p) + w + [',', c]
  {
    var x := ScanFrom(ScanStart, p);
    CommasSkipSpaces(InArrays, ScanStart, p, w);
    CommasSnoc(InArrays, ScanStart, p + w, c);
    assert x.last.value != '[' && x.last.value != ',' && x.last.value != ':';
    assert !IsFormatSpace(c) && Missing(InArrays, x, c);
    assert CommaChunk(InArrays, x, c) == [',', c];
  }

  // ---------------------------------------------------------------------
  // The regular-expression replacements of repairJson

  /** `s` with every comma and every whitespace character removed: what the
      replacements below leave unchanged. */
  function Shell(s: string): (r: string)
    ensures |r| <= |s|
    decreases |s|
  {
    if s == [] then []
    else if s[0] == ',' || IsJsWhitespace(s[0]) then Shell(s[1..])
    else [s[0]] + Shell(s[1..])
  }

  lemma {:induction false} ShellConcat(a: string, b: string)
    ensures Shell(a + b) == Shell(a) + Shell(b)
    decreases |a|
  {
    if a != [] {
      assert (a + b)[0] == a[0];
      assert (a + b)[1..] == a[1..] + b;
      ShellConcat(a[1..], b);
    } else {
      assert a + b == b;
    }
  }

  lemma {:induction false} ShellOfBlanks(s: string, n: nat)
    requires n <= |s|
    requires forall i :: 0 <= i < n ==> IsJsWhitespace(s[i])
    ensures Shell(s) == Shell(s[n..])
    decreases n
  {
    if n > 0 {
      assert s[1..][n - 1..] == s[n..];
      ShellOfBlanks(s[1..], n - 1);
    }
  }

  /** `s.replace(/﻿/g, '')`. */
  function RemoveBom(s: string): string {
    DropAll(s, '\U{FEFF}')
  }

  /** `s.replace(/,\s*([}\]])/g, '$1')`: a comma followed by whitespace and a
      closing bracket is dropped together with that whitespace. The scan
      resumes after the bracket, so of `,,}` only the second comma goes. */
  function DropTrailingCommas(s: string): (r: string)
    ensures |r| <= |s|
    decreases |s|
  {
    if s == [] then []
    else if s[0] == ',' then
      var k := 1 + LeadingBlanks(s[1..]);
      if k < |s| && (s[k] == '}' || s[k] == ']') then [s[k]] + DropTrailingCommas(s[k + 1..])
      else [s[0]] + DropTrailingCommas(s[1..])
    else [s[0]] + DropTrailingCommas(s[1..])
  }

  /** `s.replace(/}\s*{/g, '},{')` for `close = '}'` and `open = '{'`, and
      `s.replace(/]\s*\[/g, '],[')` for `close = ']'` and `open = '['`: two
      adjacent containers get a comma between them in place of the
      whitespace. */
  function JoinAdjacent(s: string, close: char, open: char): (r: string)
    decreases |s|
  {
    if s == [] then []
    else if s[0] == close then
      var k := 1 + LeadingBlanks(s[1..]);
      if k < |s| && s[k] == open then [close, ',', open] + JoinAdjacent(s[k + 1..], close, open)
      else [s[0]] + JoinAdjacent(s[1..], close, open)
    else [s[0]] + JoinAdjacent(s[1..], close, open)
  }

  /** Removing a character removes every occurrence of it and keeps every
      other character that occurs. */
  lemma {:induction false} DropAllMeaning(s: string, c: char)
    ensures forall x :: x in DropAll(s, c) <==> x in s && x != c
    decreases |s|
  {
    if s != [] {
      var p := s[..|s| - 1];
      DropAllMeaning(p, c);
      assert s == p + [s[|s| - 1]];
    }
  }

  /** No byte-order mark is left, and every other character that occurs
      still does. */
  lemma RemoveBomRemovesAll(s: string)
    ensures '\U{FEFF}' !in RemoveBom(s)
    ensures forall x :: x != '\U{FEFF}' ==> (x in RemoveBom(s) <==> x in s)
  {
    DropAllMeaning(s, '\U{FEFF}');
  }

  /** The byte-order-mark removal changes nothing but whitespace. */
  lemma {:induction false} RemoveBomShell(s: string)
    ensures Shell(RemoveBom(s)) == Shell(s)
    decreases |s|
  {
    if s != [] {
      var p := s[..|s| - 1];
      RemoveBomShell(p);
      assert s == p + [s[|s| - 1]];
      ShellConcat(p, [s[|s| - 1]]);
      ShellConcat(RemoveBom(p), if s[|s| - 1] == '\U{FEFF}' then [] else [s[|s| - 1]]);
      assert [s[|s| - 1]][1..] == [];
    }
  }

  /** The shell of a character, then whitespace, then a significant
      character. */
  lemma ShellAroundBlanks(s: string, k: nat)
    requires 1 <= k < |s| && k == 1 + LeadingBlanks(s[1..])
    requires s[k] != ',' && !IsJsWhitespace(s[k])
    ensures Shell(s) == Shell([s[0]]) + [s[k]] + Shell(s[k + 1..])
  {
    var t := s[1..];
    var u := t[k - 1..];
    assert s == [s[0]] + t;
    assert u == s[k..] && u[0] == s[k] && u[1..] == s[k + 1..];
    calc {
      Shell(s);
    == { ShellConcat([s[0]], t); }
      Shell([s[0]]) + Shell(t);
    == { ShellOfBlanks(t, k - 1); }
      Shell([s[0]]) + Shell(u);
    == { ShellOfKept(u); }
      Shell([s[0]]) + ([s[k]] + Shell(s[k + 1..]));
    }
  }

  /** The shell of a text that starts with a significant character. */
  lemma ShellOfKept(u: string)
    requires u != [] && u[0] != ',' && !IsJsWhitespace(u[0])
    ensures Shell(u) == [u[0]] + Shell(u[1..])
  {
  }

  /** Dropping trailing commas removes nothing but commas and whitespace. */
  lemma {:induction false} DropTrailingCommasShell(s: string)
    ensures Shell(DropTrailingCommas(s)) == Shell(s)
    decreases |s|, 1
  {
    if s != [] {
      var k := 1 + LeadingBlanks(s[1..]);
      if s[0] == ',' && k < |s| && (s[k] == '}' || s[k] == ']') {
        DroppedCommaShell(s, k);
      } else {
        KeptCharShell(s);
      }
    }
  }

  /** The step where a comma and its whitespace before a bracket go. */
  lemma {:induction false} DroppedCommaShell(s: string, k: nat)
    requires 1 <= k < |s| && k == 1 + LeadingBlanks(s[1..])
    requires s[0] == ',' && (s[k] == '}' || s[k] == ']')
    ensures Shell(DropTrailingCommas(s)) == Shell(s)
    decreases |s|, 0
  {
    var rest := DropTrailingCommas(s[k + 1..]);
    DroppedCommaStep(s, k, s[k + 1..]);
    ShellConcat([s[k]], rest);
    DropTrailingCommasShell(s[k + 1..]);
    ShellOfKept([s[k]]);
    ShellAroundBlanks(s, k);
    assert Shell([s[0]]) == [];
  }

  /** One step of the replacement where a comma goes: the bracket, then
      the replacement of the text `t` after it. */
  lemma DroppedCommaStep(s: string, k: nat, t: string)
    requires 1 <= k < |s| && k == 1 + LeadingBlanks(s[1..])
    requires s[0] == ',' && (s[k] == '}' || s[k] == ']')
    requires t == s[k + 1..]
    ensures DropTrailingCommas(s) == [s[k]] + DropTrailingCommas(t)
  {
  }

  /** The step where the first character is kept. */
  lemma {:induction false} KeptCharShell(s: string)
    requires s != []
    requires var k := 1 + LeadingBlanks(s[1..]);
             !(s[0] == ',' && k < |s| && (s[k] == '}' || s[k] == ']'))
    ensures Shell(DropTrailingCommas(s)) == Shell(s)
    decreases |s|, 0
  {
    var rest := DropTrailingCommas(s[1..]);
    calc {
      Shell(DropTrailingCommas(s));
    ==
      Shell([s[0]] + rest);
    == { ShellConcat([s[0]], rest); }
      Shell([s[0]]) + Shell(rest);
    == { DropTrailingCommasShell(s[1..]); }
      Shell([s[0]]) + Shell(s[1..]);
    == { ShellConcat([s[0]], s[1..]); assert s == [s[0]] + s[1..]; }
      Shell(s);
    }
  }

  /** Joining adjacent containers inserts commas and removes whitespace and
      nothing else. */
  lemma {:induction false} JoinAdjacentShell(s: string, close: char, open: char)
    requires close != ',' && !IsJsWhitespace(close)
    requires open != ',' && !IsJsWhitespace(open)
    ensures Shell(JoinAdjacent(s, close, open)) == Shell(s)
    decreases |s|, 1
  {
    if s != [] {
      var k := 1 + LeadingBlanks(s[1..]);
      if s[0] == close && k < |s| && s[k] == open {
        JoinedPairShell(s, close, open, k);
      } else {
        CopiedCharShell(s, close, open);
      }
    }
  }

  /** The step where a closing and an opening bracket get their comma. */
  lemma {:induction false} JoinedPairShell(s: string, close: char, open: char, k: nat)
    requires close != ',' && !IsJsWhitespace(close)
    requires open != ',' && !IsJsWhitespace(open)
    requires 1 <= k < |s| && k == 1 + LeadingBlanks(s[1..])
    requires s[0] == close && s[k] == open
    ensures Shell(JoinAdjacent(s, close, open)) == Shell(s)
    decreases |s|, 0
  {
    var rest := JoinAdjacent(s[k + 1..], close, open);
    JoinedPairStep(s, close, open, k, s[k + 1..]);
    ShellConcat([close, ',', open], rest);
    JoinAdjacentShell(s[k + 1..], close, open);
    ShellOfJoint(close, open);
    ShellAroundBlanks(s, k);
    ShellOfKept([s[0]]);
  }

  /** One step of the join: the two brackets with a comma between them,
      then the join of the text `t` after them. */
  lemma JoinedPairStep(s: string, close: char, open: char, k: nat, t: string)
    requires 1 <= k < |s| && k == 1 + LeadingBlanks(s[1..])
    requires s[0] == close && s[k] == open
    requires t == s[k + 1..]
    ensures JoinAdjacent(s, close, open) == [close, ',', open] + JoinAdjacent(t, close, open)
  {
  }

  /** The comma of a joint disappears from the shell. */
  lemma ShellOfJoint(close: char, open: char)
    requires close != ',' && !IsJsWhitespace(close)
    requires open != ',' && !IsJsWhitespace(open)
    ensures Shell([close, ',', open]) == [close] + [open]
  {
    assert [close, ',', open][1..] == [',', open];
    assert [close, ',', open][1..][1..] == [open];
    assert Shell([open]) == [open];
  }

  /** The step where the first character is copied. */
  lemma {:induction false} CopiedCharShell(s: string, close: char, open: char)
    requires close != ',' && !IsJsWhitespace(close)
    requires open != ',' && !IsJsWhitespace(open)
    requires s != []
    requires var k := 1 + LeadingBlanks(s[1..]);
             !(s[0] == close && k < |s| && s[k] == open)
    ensures Shell(JoinAdjacent(s, close, open)) == Shell(s)
    decreases |s|, 0
  {
    var rest := JoinAdjacent(s[1..], close, open);
    calc {
      Shell(JoinAdjacent(s, close, open));
    ==
      Shell([s[0]] + rest);
    == { ShellConcat([s[0]], rest); }
      Shell([s[0]]) + Shell(rest);
    == { JoinAdjacentShell(s[1..], close, open); }
      Shell([s[0]]) + Shell(s[1..]);
    == { ShellConcat([s[0]], s[1..]); assert s == [s[0]] + s[1..]; }
      Shell(s);
    }
  }

  /** The one-pass replacement leaves a comma before the bracket of `,,}`. */
  lemma DoubleTrailingCommaSurvives()
    ensures DropTrailingCommas(",,}") == ",}"
  {
    var s := ",,}";
    assert LeadingBlanks(s[1..]) == 0;
    assert s[1..] == ",}";
    assert LeadingBlanks(s[2..]) == 0;
    assert s[1..][1 + 0 + 1..] == [];
  }
}

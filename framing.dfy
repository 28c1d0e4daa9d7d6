/** Framing of the child's byte streams (session_io.go): the prompt marker, the
    scanner's split rule `splitFunc`, the reader pump `copyLinesToChan` that runs the
    split rule over a buffer and publishes the tokens in order, and the writer pump
    `copyChanToWriter` that writes each received line followed by a newline. */
module Framing {
  import opened Strings

  /** The child's prompt: bold-on escape, newline, `Steam>`, bold-off escape (15 bytes). */
  const PROMPT: string := "\U{1B}[1m\nSteam>\U{1B}[0m"

  /** What `splitFunc` returns: the bytes to consume and the token, if any (`nil` is
      `None`). Its error result is always `nil` and is not represented. */
  datatype SplitResult = SplitResult(advance: nat, token: Option<string>)

  /** `splitFunc`. Its boolean `atEOF` plays no part in the decision. When both a newline
      and the marker are in the buffer the newline is never used: the flag set from
      comparing the two offsets is unconditionally reset just after, so the marker
      position decides even when a newline comes first. */
  function Split(data: string, atEOF: bool): SplitResult {
    var nextNewline := IndexOf(data, "\n");
    var nextPrompt := IndexOf(data, PROMPT);
    if nextNewline == -1 && nextPrompt == -1 then SplitResult(0, None)
    else
      var useNewline := if nextNewline >= 0 && nextPrompt >= 0 then false else nextNewline >= 0;
      if useNewline then SplitResult(nextNewline + 1, Some(data[..nextNewline]))
      else if nextPrompt == 0 then SplitResult(|PROMPT|, Some(data[..|PROMPT|]))
      else SplitResult(nextPrompt, Some(data[..nextPrompt]))
  }

  /** What any split returns: no token exactly when there is neither a newline nor the
      marker, and then nothing is consumed; otherwise a non-empty advance within the
      buffer, a token that is a prefix of the buffer, followed in the buffer by the
      newline it drops if it drops one, and which contains the marker only if it is
      the marker. */
  lemma SplitContract(data: string, atEOF: bool)
    ensures var r := Split(data, atEOF);
            (r.token.None? <==> !Contains(data, "\n") && !Contains(data, PROMPT)) &&
            (r.token.None? ==> r.advance == 0) &&
            (r.token.Some? ==> 0 < r.advance <= |data| && HasPrefix(data, r.token.value)) &&
            (r.token.Some? ==>
               r.advance == |r.token.value| || (r.advance == |r.token.value| + 1 && data[|r.token.value|] == '\n')) &&
            (r.token.Some? && Contains(r.token.value, PROMPT) ==> r.token.value == PROMPT)
  {
    IndexOfSpec(data, "\n");
    IndexOfSpec(data, PROMPT);
    var nextNewline := IndexOf(data, "\n");
    if nextNewline >= 0 {
      OccursAtByte(data, '\n', nextNewline);
    }
    SplitTokenMarker(data);
  }

  /** A split with a token consumes part of the buffer, and at least one byte. */
  lemma SplitProgress(data: string)
    ensures Split(data, true).token.Some? ==> 0 < Split(data, true).advance <= |data|
  {
  }

  /** A split without a token leaves a buffer holding neither a newline nor the marker. */
  lemma SplitNone(data: string)
    requires Split(data, true).token.None?
    ensures !Contains(data, "\n") && !Contains(data, PROMPT)
  {
    IndexOfSpec(data, "\n");
    IndexOfSpec(data, PROMPT);
  }

  /** A token that contains the marker is the marker. */
  lemma SplitTokenMarker(data: string)
    ensures Split(data, true).token.Some? && Contains(Split(data, true).token.value, PROMPT) ==>
              Split(data, true).token.value == PROMPT
  {
    IndexOfSpec(data, PROMPT);
    var nextNewline := IndexOf(data, "\n");
    var nextPrompt := IndexOf(data, PROMPT);
    if nextNewline >= 0 && nextPrompt == -1 {
      OccursInPrefix(data, nextNewline, PROMPT);
    } else if nextPrompt > 0 {
      OccursInPrefix(data, nextPrompt, PROMPT);
    }
  }

  /** With neither a newline nor the marker in the buffer, no token is produced and
      nothing is consumed, at end of stream or not. */
  lemma SplitNeedsMoreData(data: string, atEOF: bool)
    requires !Contains(data, "\n") && !Contains(data, PROMPT)
    ensures Split(data, atEOF) == SplitResult(0, None)
  {
    IndexOfSpec(data, "\n");
    IndexOfSpec(data, PROMPT);
  }

  /** A buffer that starts with the marker yields exactly the marker. */
  lemma SplitAtMarkerStart(data: string, atEOF: bool)
    requires HasPrefix(data, PROMPT)
    ensures Split(data, atEOF) == SplitResult(|PROMPT|, Some(PROMPT))
  {
    IndexOfFirst(data, PROMPT, 0);
  }

  /** A marker first found at offset k > 0 cuts the buffer there, whether or not a
      newline comes before it; the marker itself stays in the buffer. */
  lemma SplitBeforeMarker(data: string, atEOF: bool, k: int)
    requires 0 < k && FirstOccurrence(data, PROMPT, k)
    ensures Split(data, atEOF) == SplitResult(k, Some(data[..k]))
  {
    IndexOfFirst(data, PROMPT, k);
  }

  /** Without the marker, the first newline at offset n ends the token: n + 1 bytes are
      consumed and the token holds the n bytes before the newline, which it excludes. */
  lemma SplitAtNewline(data: string, atEOF: bool, n: int)
    requires !Contains(data, PROMPT) && FirstOccurrence(data, "\n", n)
    ensures Split(data, atEOF) == SplitResult(n + 1, Some(data[..n]))
    ensures '\n' !in data[..n]
  {
    IndexOfFirst(data, "\n", n);
    IndexOfSpec(data, PROMPT);
    forall j | 0 <= j < n ensures data[..n][j] != '\n' {
      OccursAtByte(data, '\n', j);
    }
  }

  /** The marker's offset wins over an earlier newline: `a\nb` before the marker is
      one token, newline included. */
  lemma SplitIgnoresEarlierNewline()
    ensures Split("a\nb" + PROMPT, false) == SplitResult(3, Some("a\nb"))
  {
    var data := "a\nb" + PROMPT;
    forall j | 0 <= j < 3 ensures !OccursAt(data, PROMPT, j) {
      assert data[j + 3] != PROMPT[3];
    }
    assert OccursAt(data, PROMPT, 3) by {
      assert data[3..3 + |PROMPT|] == PROMPT;
    }
    SplitBeforeMarker(data, false, 3);
    assert data[..3] == "a\nb";
  }

  /** A buffer holding only the first five bytes of the marker (through its newline)
      yields a line of four bytes: a marker that arrives in two reads split there is
      not recognised, so the tokens depend on how the stream is chunked. */
  lemma SplitPartialMarker()
    ensures Split(PROMPT[..5], true) == SplitResult(5, Some(PROMPT[..4]))
  {
    var data := PROMPT[..5];
    assert data == ['\U{1B}', '[', '1', 'm', '\n'];
    forall j ensures !OccursAt(data, PROMPT, j) {
    }
    OccursAtByte(data, '\n', 4);
    forall j | 0 <= j < 4 ensures !OccursAt(data, "\n", j) {
      OccursAtByte(data, '\n', j);
    }
    assert FirstOccurrence(data, "\n", 4);
    assert !Contains(data, PROMPT);
    SplitAtNewline(data, true, 4);
    assert data[..4] == PROMPT[..4];
  }

  /** No proper suffix of the marker is a prefix of it, so an occurrence cannot
      straddle a marker-free string and a marker appended to it. */
  lemma PromptFirstAfter(x: string)
    requires !Contains(x, PROMPT)
    ensures FirstOccurrence(x + PROMPT, PROMPT, |x|)
  {
    var s := x + PROMPT;
    assert s[|x|..] == PROMPT;
    forall j | 0 <= j < |x| ensures !OccursAt(s, PROMPT, j) {
      if j + |PROMPT| <= |x| {
        assert x[j..j + |PROMPT|] == s[j..j + |PROMPT|];
        assert !OccursAt(x, PROMPT, j);
      } else {
        // the window starting at j overlaps the marker by d bytes; m is a position
        // where the window and the marker disagree
        var d := |x| - j;
        var m := if d == 11 then 13 else d;
        assert s[j + m] == PROMPT[m - d];
        assert PROMPT[m] != PROMPT[m - d];
        assert s[j..j + |PROMPT|][m] != PROMPT[m];
      }
    }
  }

  // ---------------------------------------------------------------------------
  // The reader pump

  /** What the reader pump gets out of a buffer: the tokens in order, and the
      unterminated tail that is never emitted. */
  datatype Scan = Scan(tokens: seq<string>, rest: string)

  /** Repeated `Split` over `data`, dropping each consumed prefix, until no token is
      produced. */
  function Tokenize(data: string): Scan
    decreases |data|
  {
    var s := Split(data, true);
    SplitProgress(data);
    if s.token.None? then Scan([], data)
    else
      var tail := Tokenize(data[s.advance..]);
      Scan([s.token.value] + tail.tokens, tail.rest)
  }

  /** One step of the scan: the first split's token, then the scan of what follows. */
  lemma TokenizeStep(data: string)
    ensures var s := Split(data, true);
            Tokenize(data) ==
              if s.token.None? then Scan([], data)
              else Scan([s.token.value] + Tokenize(data[s.advance..]).tokens, Tokenize(data[s.advance..]).rest)
  {
  }

  /** The scan ends on a suffix of the stream. */
  lemma {:induction false} TokenizeRest(data: string)
    ensures |Tokenize(data).rest| <= |data|
    ensures Tokenize(data).rest == data[|data| - |Tokenize(data).rest|..]
    decreases |data|
  {
    var s := Split(data, true);
    SplitProgress(data);
    TokenizeStep(data);
    if s.token.Some? {
      var rest := data[s.advance..];
      TokenizeRest(rest);
      SuffixOfSuffix(data, s.advance, Tokenize(rest).rest);
    }
  }

  /** The part the scan leaves holds neither a newline nor the marker. */
  lemma {:induction false} TokenizeRestClean(data: string)
    ensures !Contains(Tokenize(data).rest, "\n") && !Contains(Tokenize(data).rest, PROMPT)
    decreases |data|
  {
    var s := Split(data, true);
    SplitProgress(data);
    TokenizeStep(data);
    if s.token.Some? {
      TokenizeRestClean(data[s.advance..]);
    } else {
      SplitNone(data);
    }
  }

  /** Every token of the scan is the marker or free of it. */
  lemma {:induction false} TokenizeTokens(data: string)
    ensures forall t :: t in Tokenize(data).tokens ==> t == PROMPT || !Contains(t, PROMPT)
    decreases |data|
  {
    var s := Split(data, true);
    SplitProgress(data);
    TokenizeStep(data);
    if s.token.Some? {
      TokenizeTokens(data[s.advance..]);
      SplitTokenMarker(data);
    }
  }

  /** The scan of `data` as the tokens sent so far followed by the scan of the
      buffer left: one more split either ends it or sends one more token. */
  lemma TokenizeAdvance(data: string, sent: seq<string>, rest: string)
    requires Tokenize(data) == Scan(sent + Tokenize(rest).tokens, Tokenize(rest).rest)
    ensures Split(rest, true).token.None? ==> Tokenize(data) == Scan(sent, rest)
    ensures Split(rest, true).token.Some? ==>
              var s := Split(rest, true);
              0 < s.advance <= |rest| &&
              Tokenize(data) == Scan((sent + [s.token.value]) + Tokenize(rest[s.advance..]).tokens,
                                     Tokenize(rest[s.advance..]).rest)
  {
    var s := Split(rest, true);
    SplitProgress(rest);
    TokenizeStep(rest);
    if s.token.Some? {
      var more := Tokenize(rest[s.advance..]).tokens;
      assert sent + ([s.token.value] + more) == (sent + [s.token.value]) + more;
    } else {
      assert sent + [] == sent;
    }
  }

  /** The reader pump: scans `data`, sends every token in order and returns them with
      the bytes left in the scanner's buffer. */
  method CopyLinesToChan(data: string) returns (sent: seq<string>, rest: string)
    ensures Scan(sent, rest) == Tokenize(data)
  {
    sent, rest := [], data;
    while true
      invariant Tokenize(data) == Scan(sent + Tokenize(rest).tokens, Tokenize(rest).rest)
      decreases |rest|
    {
      TokenizeAdvance(data, sent, rest);
      var s := Split(rest, true);
      if s.token.None? {
        break;
      }
      sent := sent + [s.token.value];
      rest := rest[s.advance..];
    }
  }

  /** With the whole output up to a prompt in the buffer, everything before the marker
      is ONE token (newlines included), then the marker. */
  lemma TokenizeBeforePrompt(x: string)
    requires !Contains(x, PROMPT)
    ensures Tokenize(x + PROMPT) == Scan((if x == [] then [] else [x]) + [PROMPT], [])
  {
    var s := x + PROMPT;
    PromptFirstAfter(x);
    TokenizeAtPrompt();
    if x == [] {
      assert s == PROMPT;
    } else {
      SplitBeforeMarker(s, true, |x|);
      TokenizeStep(s);
      assert s[..|x|] == x && s[|x|..] == PROMPT;
    }
  }

  /** A buffer with neither delimiter yields no token and stays unsent. */
  lemma TokenizeClean(y: string)
    requires IndexOf(y, "\n") == -1 && IndexOf(y, PROMPT) == -1
    ensures Tokenize(y) == Scan([], y)
  {
    TokenizeStep(y);
  }

  /** Without the marker, the split cuts at the first newline and drops it. */
  lemma SplitFirstNewline(y: string)
    requires IndexOf(y, PROMPT) == -1 && IndexOf(y, "\n") != -1
    ensures Split(y, true) == SplitResult(IndexOf(y, "\n") + 1, Some(y[..IndexOf(y, "\n")]))
  {
  }

  /** Without the marker, the scan cuts at the first newline and goes on after it. */
  lemma TokenizeAtNewline(y: string)
    requires IndexOf(y, PROMPT) == -1 && IndexOf(y, "\n") != -1
    ensures var n := IndexOf(y, "\n");
            Tokenize(y) == Scan([y[..n]] + Tokenize(y[n + 1..]).tokens, Tokenize(y[n + 1..]).rest)
  {
    SplitFirstNewline(y);
    TokenizeStep(y);
  }

  /** A buffer that starts with the marker sends it and goes on after it. */
  lemma TokenizeAtMarker(y: string)
    ensures Tokenize(PROMPT + y) == Scan([PROMPT] + Tokenize(y).tokens, Tokenize(y).rest)
  {
    var m := PROMPT + y;
    assert HasPrefix(m, PROMPT);
    SplitAtMarkerStart(m, true);
    TokenizeStep(m);
    assert m[|PROMPT|..] == y;
  }

  /** A marker first found at offset k > 0 is where the split cuts. */
  lemma SplitFirstMarker(s: string, k: int)
    requires 0 < k && IndexOf(s, PROMPT) == k
    ensures Split(s, true) == SplitResult(k, Some(s[..k]))
  {
  }

  /** A marker first found at offset k > 0 makes the bytes before it one token. */
  lemma TokenizeBeforeMarker(s: string, k: int)
    requires 0 < k && IndexOf(s, PROMPT) == k
    ensures Tokenize(s) == Scan([s[..k]] + Tokenize(s[k..]).tokens, Tokenize(s[k..]).rest)
  {
    SplitFirstMarker(s, k);
    TokenizeStep(s);
  }

  /** A marker-free stream loses and repeats nothing: its tokens, each followed by the
      newline that ended it, and then the unsent tail give back the stream. */
  lemma TokenizeNoPrompt(y: string)
    requires !Contains(y, PROMPT)
    ensures Frame(Tokenize(y).tokens) + Tokenize(y).rest == y
  {
    IndexOfSpec(y, PROMPT);
    TokenizeConserves(y);
  }

  lemma {:induction false} TokenizeConserves(y: string)
    requires IndexOf(y, PROMPT) == -1
    ensures Frame(Tokenize(y).tokens) + Tokenize(y).rest == y
    decreases |y|
  {
    var n := IndexOf(y, "\n");
    if n == -1 {
      TokenizeClean(y);
    } else {
      IndexOfByte(y, '\n');
      TokenizeAtNewline(y);
      var tail := y[n + 1..];
      IndexOfAbsentFromSuffix(y, n + 1, PROMPT);
      TokenizeConserves(tail);
      ConserveLine(y, n, Tokenize(tail).tokens, Tokenize(tail).rest);
    }
  }

  /** A line cut at the newline at `n`, in front of a conserved remainder, conserves
      the whole. */
  lemma ConserveLine(y: string, n: int, tokens: seq<string>, rest: string)
    requires 0 <= n < |y| && y[n] == '\n' && Frame(tokens) + rest == y[n + 1..]
    ensures Frame([y[..n]] + tokens) + rest == y
  {
    FramePrepend(y[..n], tokens);
    assert y == y[..n] + "\n" + y[n + 1..];
  }

  /** Whatever follows a prompt is scanned afresh: output before the first marker is
      one token, the marker is the next, and the scan goes on over the bytes after it.
      With `TokenizeNoPrompt` this accounts for every byte of any stream. */
  lemma TokenizeThroughPrompt(x: string, y: string)
    requires !Contains(x, PROMPT)
    ensures Tokenize(x + PROMPT + y) ==
            Scan((if x == [] then [] else [x]) + [PROMPT] + Tokenize(y).tokens, Tokenize(y).rest)
  {
    if x == [] {
      TokenizeAtMarkerAgain(x, y);
      EmptyConcat([PROMPT] + Tokenize(y).tokens);
    } else {
      PromptFirstIn(x, y);
      TokenizeOutputThenMarker(x, y);
    }
  }

  lemma TokenizeAtMarkerAgain(x: string, y: string)
    requires x == []
    ensures Tokenize(x + PROMPT + y) == Scan([PROMPT] + Tokenize(y).tokens, Tokenize(y).rest)
  {
    assert x + PROMPT + y == PROMPT + y;
    TokenizeAtMarker(y);
  }

  lemma EmptyConcat(t: seq<string>)
    ensures [] + t == t
  {
  }

  /** The first marker of `x + PROMPT + y`, with `x` marker-free, is the one after `x`. */
  lemma PromptFirstIn(x: string, y: string)
    requires !Contains(x, PROMPT)
    ensures IndexOf(x + PROMPT + y, PROMPT) == |x|
  {
    PromptFirstAfter(x);
    FirstOccurrenceAppend(x + PROMPT, PROMPT, |x|, y);
    IndexOfFirst(x + PROMPT + y, PROMPT, |x|);
  }

  lemma TokenizeOutputThenMarker(x: string, y: string)
    requires x != [] && IndexOf(x + PROMPT + y, PROMPT) == |x|
    ensures Tokenize(x + PROMPT + y) == Scan([x] + [PROMPT] + Tokenize(y).tokens, Tokenize(y).rest)
  {
    var s := x + PROMPT + y;
    TokenizeBeforeMarker(s, |x|);
    PrefixAndRest(x, PROMPT, y);
    TokenizeAtMarker(y);
    Associative([x], [PROMPT], Tokenize(y).tokens);
  }

  lemma PrefixAndRest(x: string, p: string, y: string)
    ensures (x + p + y)[..|x|] == x && (x + p + y)[|x|..] == p + y
  {
    assert x + p + y == x + (p + y);
  }

  lemma Associative(a: seq<string>, b: seq<string>, c: seq<string>)
    ensures a + (b + c) == (a + b) + c
  {
  }

  /** The marker alone scans as the marker, with nothing left. */
  lemma TokenizeAtPrompt()
    ensures Tokenize(PROMPT) == Scan([PROMPT], [])
  {
    assert HasPrefix(PROMPT, PROMPT);
    SplitAtMarkerStart(PROMPT, true);
    TokenizeStep(PROMPT);
    assert PROMPT[|PROMPT|..] == [];
    TokenizeStep([]);
  }

  // ---------------------------------------------------------------------------
  // The writer pump

  /** The bytes written to the child's stdin for `lines` received in that order: each
      line followed by a newline. */
  function Frame(lines: seq<string>): string {
    if lines == [] then [] else Frame(lines[..|lines| - 1]) + lines[|lines| - 1] + "\n"
  }

  /** The writer pump: writes each line it receives followed by a newline. */
  method CopyChanToWriter(lines: seq<string>) returns (written: string)
    ensures written == Frame(lines)
  {
    written := [];
    for i := 0 to |lines|
      invariant written == Frame(lines[..i])
    {
      assert lines[..i + 1][..i] == lines[..i];
      written := written + lines[i] + "\n";
    }
    assert lines[..|lines|] == lines;
  }

  lemma {:induction false} FrameCons(lines: seq<string>)
    requires |lines| > 0
    ensures Frame(lines) == lines[0] + "\n" + Frame(lines[1..])
    decreases |lines|
  {
    if |lines| > 1 {
      var init := lines[..|lines| - 1];
      FrameCons(init);
      assert init[1..] == lines[1..][..|lines[1..]| - 1];
    } else {
      assert lines[1..] == [];
    }
  }

  /** Framing one more line in front. */
  lemma FramePrepend(line: string, lines: seq<string>)
    ensures Frame([line] + lines) == line + "\n" + Frame(lines)
  {
    FrameCons([line] + lines);
    assert ([line] + lines)[1..] == lines;
  }

  /** Lines joined with newlines, plus a final newline, are their framing. */
  lemma {:induction false} JoinLines(elems: seq<string>)
    requires elems != []
    ensures Join(elems, "\n") + "\n" == Frame(elems)
    decreases |elems|
  {
    FrameCons(elems);
    if |elems| > 1 {
      JoinLines(elems[1..]);
      assert elems[0] + "\n" + Join(elems[1..], "\n") + "\n" == elems[0] + "\n" + (Join(elems[1..], "\n") + "\n");
    } else {
      assert elems[1..] == [];
    }
  }

  /** How the child reads its stdin: one line per newline. */
  function Unframe(bytes: string): seq<string>
    decreases |bytes|
  {
    if bytes == [] then []
    else
      var n := IndexOf(bytes, "\n");
      if n == -1 then [bytes] else [bytes[..n]] + Unframe(bytes[n + 1..])
  }

  /** Lines without a newline of their own come out of the writer in the order and
      with the contents they went in. */
  lemma {:induction false} UnframeFrame(lines: seq<string>)
    requires forall i :: 0 <= i < |lines| ==> '\n' !in lines[i]
    ensures Unframe(Frame(lines)) == lines
    decreases |lines|
  {
    if lines != [] {
      FrameCons(lines);
      var s := Frame(lines);
      IndexOfAfter(lines[0], '\n', Frame(lines[1..]));
      assert s[..|lines[0]|] == lines[0];
      assert s[|lines[0]| + 1..] == Frame(lines[1..]);
      UnframeFrame(lines[1..]);
    }
  }
}

/**
 * The byte-level tokenizer (scanner.go): a Scanner reads its input one byte at
 * a time, skips whitespace, `//` comments and `#` lines, and produces one token
 * per call to Read.
 */
module Scanning {
  import opened Wrappers
  import opened Sequences
  import opened Tokens

  /**
   * One byte of input, held as the character with the same code. The source
   * widens each byte to a rune and appends `string(rune)` to token text, which
   * is exactly this character.
   */
  type Byte = ch: char | ch as int < 256 witness '\0'

  /** Go's `unicode.IsDigit` on a byte widened to a rune: only the ASCII digits. */
  predicate IsDigit(b: Byte) { '0' <= b <= '9' }

  /** Go's `unicode.IsLetter` on a byte widened to a rune: ASCII and Latin-1 letters. */
  predicate IsLetter(b: Byte) {
    || 'a' <= b <= 'z'
    || 'A' <= b <= 'Z'
    || b as int == 0xAA || b as int == 0xB5 || b as int == 0xBA
    || 0xC0 <= b as int <= 0xD6
    || 0xD8 <= b as int <= 0xF6
    || 0xF8 <= b as int
  }

  /** The bytes `skipWhitespace` passes over. */
  predicate IsSpace(b: Byte) { b == '\n' || b == '\r' || b == ' ' || b == '\t' }

  /** Go's `literalChar`: a byte that starts or continues a literal run. */
  predicate LiteralChar(b: Byte) { IsLetter(b) || IsDigit(b) || b == '-' || b == '_' || b == '.' }

  /** Go's `keywordChar`. */
  predicate KeywordChar(b: Byte) { IsLetter(b) || b == '_' || IsDigit(b) }

  predicate NotSpace(b: Byte) { !IsSpace(b) }
  predicate NotLiteralChar(b: Byte) { !LiteralChar(b) }
  predicate IsNewline(b: Byte) { b == '\n' }
  predicate IsQuote(b: Byte) { b == '"' }

  /** The kind of each single-byte punctuation token, or ILLEGAL for any other byte. */
  function PunctKind(b: Byte): TokenType {
    match b
    case '(' => LPAREN
    case ')' => RPAREN
    case '[' => LBRACK
    case ']' => RBRACK
    case '{' => LBRACE
    case '}' => RBRACE
    case ':' => COLON
    case ',' => COMMA
    case ';' => SEMICOLON
    case '*' => PTR
    case '=' => EQUALS
    case '|' => B_OR
    case _ => ILLEGAL
  }

  /** The scanner's error value (Go's `err` field). */
  datatype ScanError =
    | NoError                          // nil
    | EndOfInput                       // io.EOF, returned by the reader once the data is exhausted
    | ReadFailure                      // any other reader failure, including a short read
    | NonCommentSlash                  // "unexpected non-comment '/'"
    | BadDirective                     // "incorrect preprocessor directive"
    | UnexpectedCharacter(ch: Byte)    // "unexpected character '%c'"

  /**
   * What the scanner reads but never changes: the bytes its reader delivers
   * one at a time, the error the reader reports once they are exhausted, and
   * the keyword table `init` built.
   */
  datatype Source = Source(data: seq<Byte>, end: ScanError, keywords: map<string, TokenType>)

  predicate IsReaderEnd(e: ScanError) { e == EndOfInput || e == ReadFailure }

  /** The scanner's mutable fields: how much of the input is consumed, the current byte `c`, and `err`. */
  datatype ScanState = ScanState(pos: nat, c: Byte, err: ScanError)

  predicate Fits(src: Source, st: ScanState) { st.pos <= |src.data| }

  /** The state once `next()` has been called until it failed: every byte consumed, the last one read kept in `c`. */
  function Exhausted(src: Source, st: ScanState): ScanState
    requires Fits(src, st)
  {
    ScanState(|src.data|, if st.pos < |src.data| then src.data[|src.data| - 1] else st.c, src.end)
  }

  /** A successful `next()` does not change where calling it until it fails ends up. */
  lemma ExhaustedStep(src: Source, st: ScanState)
    requires st.pos < |src.data|
    ensures Exhausted(src, ScanState(st.pos + 1, src.data[st.pos], st.err)) == Exhausted(src, st)
  {
  }

  /** With no byte left, the exhausted state is the state a failing `next()` leaves: only `err` changes. */
  lemma ExhaustedAtEnd(src: Source, st: ScanState)
    requires st.pos == |src.data|
    ensures Exhausted(src, st) == st.(err := src.end)
  {
  }

  /** What `skipWhitespace` does: stop on a non-blank current byte, or read on to the next one. */
  function SkipWhitespaceSpec(src: Source, st: ScanState): (r: (bool, ScanState))
    requires Fits(src, st)
    ensures Fits(src, r.1) && r.1.pos >= st.pos
    ensures r.0 ==> !IsSpace(r.1.c)
    ensures !IsSpace(st.c) ==> r == (true, st)
    ensures !r.0 ==> r.1 == Exhausted(src, st)
  {
    if !IsSpace(st.c) then (true, st)
    else
      var j := FirstFrom(src.data, st.pos, NotSpace);
      if j < |src.data| then (true, ScanState(j + 1, src.data[j], st.err))
      else (false, Exhausted(src, st))
  }

  /** What `skipLine` does: read up to and including the next newline. */
  function SkipLineSpec(src: Source, st: ScanState): (r: (bool, ScanState))
    requires Fits(src, st)
    ensures Fits(src, r.1)
    ensures r.0 ==> r.1.pos > st.pos && r.1.c == '\n'
    ensures !r.0 ==> r.1 == Exhausted(src, st)
  {
    var j := FirstFrom(src.data, st.pos, IsNewline);
    if j < |src.data| then (true, ScanState(j + 1, '\n', st.err))
    else (false, Exhausted(src, st))
  }

  /** What `skipComment` does: a `/` must be followed by `/`, then the line is skipped. */
  function SkipCommentSpec(src: Source, st: ScanState): (r: (bool, ScanState))
    requires Fits(src, st)
    ensures Fits(src, r.1) && r.1.pos >= st.pos
    ensures r.0 ==> st.c == '/' && st.pos < |src.data| && src.data[st.pos] == '/'
    ensures r.0 ==> r.1.pos > st.pos + 1 && r.1.c == '\n'
  {
    if st.c != '/' then (false, st)
    else if st.pos == |src.data| then (false, st.(err := src.end))
    else if src.data[st.pos] != '/' then (false, ScanState(st.pos + 1, src.data[st.pos], st.err))
    else SkipLineSpec(src, ScanState(st.pos + 1, '/', st.err))
  }

  /** What `findString` does: the bytes up to the next `"`, which is consumed, or nothing at end of input. */
  function FindStringSpec(src: Source, st: ScanState): (r: (Option<seq<Byte>>, ScanState))
    requires Fits(src, st)
    ensures Fits(src, r.1)
    ensures r.0.Some? ==> r.1.pos > st.pos && '"' !in r.0.value
    ensures r.0.Some? ==> src.data[r.1.pos - 1] == '"' && r.0.value == src.data[st.pos..r.1.pos - 1]
    ensures r.0.None? ==> r.1 == Exhausted(src, st)
  {
    var j := FirstFrom(src.data, st.pos, IsQuote);
    if j < |src.data| then (Some(src.data[st.pos..j]), ScanState(j + 1, '"', st.err))
    else (None, Exhausted(src, st))
  }

  /** The `number` flag of `findKeyword` after the whole run: a digit, then digits, except that `x` or `X` may follow a lone `0`. */
  predicate IsNumberRun(run: seq<Byte>) {
    && |run| > 0
    && IsDigit(run[0])
    && forall i :: 1 <= i < |run| ==> IsDigit(run[i]) || (i == 1 && run[0] == '0' && (run[i] == 'x' || run[i] == 'X'))
  }

  /** The `literal` flag of `findKeyword` after the whole run: a `-` or `.` somewhere after the first byte. */
  predicate HasDashOrDot(run: seq<Byte>) {
    exists i :: 1 <= i < |run| && (run[i] == '-' || run[i] == '.')
  }

  /** How each byte appended to a run updates the two flags. */
  lemma FlagsStep(run: seq<Byte>, b: Byte)
    requires |run| > 0
    ensures IsNumberRun(run + [b]) ==
      (IsNumberRun(run) && (IsDigit(b) || (|run| == 1 && run[0] == '0' && (b == 'x' || b == 'X'))))
    ensures HasDashOrDot(run + [b]) == (HasDashOrDot(run) || b == '-' || b == '.')
  {
    var r := run + [b];
    assert r[|run|] == b;
    if IsNumberRun(r) {
      forall i | 1 <= i < |run|
        ensures IsDigit(run[i]) || (i == 1 && run[0] == '0' && (run[i] == 'x' || run[i] == 'X'))
      {
        assert r[i] == run[i];
      }
    }
    if HasDashOrDot(r) {
      var i :| 1 <= i < |r| && (r[i] == '-' || r[i] == '.');
      if i < |run| {
        assert run[i] == r[i];
      }
    }
    if HasDashOrDot(run) {
      var i :| 1 <= i < |run| && (run[i] == '-' || run[i] == '.');
      assert r[i] == run[i];
    }
  }

  /** How `findKeyword` classifies a complete run: keyword, then NUM, then IDENT. */
  function ClassifyRun(keywords: map<string, TokenType>, run: seq<Byte>): (TokenType, string) {
    if !HasDashOrDot(run) && KeywordIn(keywords, run) != ILLEGAL then (KeywordIn(keywords, run), "")
    else if IsNumberRun(run) then (NUM, run)
    else (IDENT, run)
  }

  /**
   * What `findKeyword` does: the current byte starts the run, which takes
   * every following literal character. The byte that ends it is read but
   * left in `c`; if the input ends first, the result is EOF with no value.
   */
  function FindKeywordSpec(src: Source, st: ScanState): (r: (TokenType, string, ScanState))
    requires Fits(src, st)
    ensures Fits(src, r.2)
    ensures r.2.pos > st.pos || r.2 == Exhausted(src, st)
  {
    var j := FirstFrom(src.data, st.pos, NotLiteralChar);
    if j < |src.data| then
      var (k, v) := ClassifyRun(src.keywords, [st.c] + src.data[st.pos..j]);
      (k, v, ScanState(j + 1, src.data[j], st.err))
    else (EOF, "", Exhausted(src, st))
  }

  /** `findKeyword` when a non-literal byte ends the run at index `j`. */
  lemma FindKeywordStops(src: Source, st: ScanState, j: nat)
    requires st.pos <= j < |src.data|
    requires forall k :: st.pos <= k < j ==> LiteralChar(src.data[k])
    requires !LiteralChar(src.data[j])
    ensures var (k, v) := ClassifyRun(src.keywords, [st.c] + src.data[st.pos..j]);
      FindKeywordSpec(src, st) == (k, v, ScanState(j + 1, src.data[j], st.err))
  {
    FirstFromIs(src.data, st.pos, NotLiteralChar, j);
  }

  /** One more literal byte read by `findKeyword`'s loop extends the run and the token. */
  lemma RunGrows(data: seq<Byte>, lo: nat, hi: nat, c0: Byte, token: seq<Byte>)
    requires lo < hi <= |data|
    requires token == [c0] + data[lo..hi - 1]
    requires forall k :: lo <= k < hi - 1 ==> LiteralChar(data[k])
    requires LiteralChar(data[hi - 1])
    ensures token + [data[hi - 1]] == [c0] + data[lo..hi]
    ensures forall k :: lo <= k < hi ==> LiteralChar(data[k])
  {
    assert data[lo..hi] == data[lo..hi - 1] + [data[hi - 1]];
  }

  /** `findKeyword` when the input ends inside the run. */
  lemma FindKeywordRunsOut(src: Source, st: ScanState)
    requires Fits(src, st)
    requires forall k :: st.pos <= k < |src.data| ==> LiteralChar(src.data[k])
    ensures FindKeywordSpec(src, st) == (EOF, "", Exhausted(src, st))
  {
    FirstFromIs(src.data, st.pos, NotLiteralChar, |src.data|);
  }

  /** The outcome of one call to Read. */
  datatype ReadStep =
    | Emitted(tok: Token, st: ScanState)   // Read returns true, LastToken() is tok
    | Failed(st: ScanState)                // Read returns false, LastToken() is ILLEGAL
    | Diverges                             // Read never returns

  /** Read: fetch a byte if none is pending, then dispatch on it. */
  function ReadSpec(src: Source, st: ScanState): ReadStep
    requires Fits(src, st)
  {
    if st.c == '\0' then
      if st.pos == |src.data| then Failed(st.(err := src.end))
      else Dispatch(src, ScanState(st.pos + 1, src.data[st.pos], st.err))
    else Dispatch(src, st)
  }

  /**
   * The loop of Read: skip blanks, then act on the current byte.
   */
  function Dispatch(src: Source, st: ScanState): ReadStep
    requires Fits(src, st)
    decreases |src.data| - st.pos, 1
  {
    var (ok, s1) := SkipWhitespaceSpec(src, st);
    if !ok then Failed(s1) else Act(src, s1)
  }

  /**
   * One round of Read's loop on a non-blank current byte. Comments and `#`
   * lines go round the loop again. An unterminated string also goes round
   * again with the last byte of the input; when that byte is the opening
   * quote itself, nothing changes from one round to the next and Read never
   * returns.
   */
  function Act(src: Source, s1: ScanState): ReadStep
    requires Fits(src, s1)
    decreases |src.data| - s1.pos, 0
  {
    if LiteralChar(s1.c) then
      var (k, v, s2) := FindKeywordSpec(src, s1);
      Emitted(Token(k, v), s2)
    else if s1.c == '/' then
      var (ok2, s2) := SkipCommentSpec(src, s1);
      if ok2 then Dispatch(src, s2) else Failed(s2.(err := NonCommentSlash))
    else if s1.c == '#' then
      var (ok2, s2) := SkipLineSpec(src, s1);
      if ok2 then Dispatch(src, s2) else Failed(s2.(err := BadDirective))
    else if s1.c == '"' then
      var (v, s2) := FindStringSpec(src, s1);
      if v.Some? then Emitted(Token(STRING, v.value), s2.(c := '\0'))
      else if s1.pos == |src.data| then Diverges
      else Dispatch(src, s2)
    else if PunctKind(s1.c) != ILLEGAL then Emitted(Token(PunctKind(s1.c), ""), s1.(c := '\0'))
    else Failed(s1.(err := UnexpectedCharacter(s1.c)))
  }

  /** Go's `Scanner`: the reader (with its cursor), the current byte, the last token and the error. */
  class Scanner {
    const src: Source
    var pos: nat
    var c: Byte
    var lastToken: Token
    var err: ScanError

    ghost predicate Valid()
      reads this
    {
      Fits(src, State()) && IsReaderEnd(src.end)
    }

    function State(): ScanState
      reads this
    {
      ScanState(pos, c, err)
    }

    /** Go's `NewScanner`: nothing read yet, no current byte, no error. */
    constructor (data: seq<Byte>, end: ScanError, keywords: map<string, TokenType>)
      requires IsReaderEnd(end) && IsKeywordTable(keywords)
      ensures Valid() && src == Source(data, end, keywords)
      ensures State() == ScanState(0, '\0', NoError) && lastToken == Token(ILLEGAL, "")
    {
      src := Source(data, end, keywords);
      pos, c, err := 0, '\0', NoError;
      lastToken := Token(ILLEGAL, "");
    }

    /** Go's `next`: read one byte into `c`, or record the reader's error and leave `c` as it was. */
    method Next() returns (ok: bool)
      requires Valid()
      modifies this
      ensures Valid() && lastToken == old(lastToken)
      ensures ok == (old(pos) < |src.data|)
      ensures ok ==> State() == ScanState(old(pos) + 1, src.data[old(pos)], old(err))
      ensures !ok ==> State() == ScanState(old(pos), old(c), src.end)
    {
      if pos == |src.data| {
        err := src.end;
        return false;
      }
      c := src.data[pos];
      pos := pos + 1;
      return true;
    }

    /** Go's `skipWhitespace`. */
    method SkipWhitespace() returns (ok: bool)
      requires Valid()
      modifies this
      ensures Valid() && lastToken == old(lastToken)
      ensures (ok, State()) == SkipWhitespaceSpec(src, old(State()))
    {
      while true
        invariant Valid() && lastToken == old(lastToken)
        invariant SkipWhitespaceSpec(src, State()) == SkipWhitespaceSpec(src, old(State()))
        decreases |src.data| - pos
      {
        if !IsSpace(c) {
          return true;
        }
        ok := Next();
        if !ok {
          return false;
        }
      }
    }

    /** Go's `skipLine`. */
    method SkipLine() returns (ok: bool)
      requires Valid()
      modifies this
      ensures Valid() && lastToken == old(lastToken)
      ensures (ok, State()) == SkipLineSpec(src, old(State()))
    {
      while true
        invariant Valid() && lastToken == old(lastToken)
        invariant old(pos) <= pos && (pos == old(pos) ==> c == old(c)) && err == old(err)
        invariant pos > old(pos) ==> c == src.data[pos - 1]
        invariant FirstFrom(src.data, pos, IsNewline) == FirstFrom(src.data, old(pos), IsNewline)
        decreases |src.data| - pos
      {
        ok := Next();
        if !ok {
          return false;
        }
        if c == '\n' {
          return true;
        }
      }
    }

    /** Go's `skipComment`. */
    method SkipComment() returns (ok: bool)
      requires Valid()
      modifies this
      ensures Valid() && lastToken == old(lastToken)
      ensures (ok, State()) == SkipCommentSpec(src, old(State()))
    {
      if c != '/' {
        return false;
      }
      ok := Next();
      if !ok || c != '/' {
        return false;
      }
      ok := SkipLine();
    }

    /** Go's `findString`: no escapes, the closing quote is consumed. */
    method FindString() returns (v: seq<Byte>, found: bool)
      requires Valid()
      modifies this
      ensures Valid() && lastToken == old(lastToken)
      ensures (if found then Some(v) else None, State()) == FindStringSpec(src, old(State()))
      ensures !found ==> v == []
    {
      v := [];
      while true
        invariant Valid() && lastToken == old(lastToken)
        invariant old(pos) <= pos && (pos == old(pos) ==> c == old(c)) && err == old(err)
        invariant pos > old(pos) ==> c == src.data[pos - 1]
        invariant v == src.data[old(pos)..pos] && '"' !in v
        decreases |src.data| - pos
      {
        found := Next();
        if !found {
          return [], false;
        }
        if c == '"' {
          FirstFromIs(src.data, old(pos), IsQuote, pos - 1);
          return v, true;
        }
        v := v + [c];
      }
    }

    /** Go's `findKeyword`, with its `number` and `literal` flags. */
    method FindKeyword() returns (t: TokenType, v: string)
      requires Valid()
      modifies this
      ensures Valid() && lastToken == old(lastToken)
      ensures (t, v, State()) == FindKeywordSpec(src, old(State()))
    {
      ghost var st0 := State();
      var token: seq<Byte> := [c];
      var literal := false;
      var number := IsDigit(c);
      while true
        invariant Valid() && lastToken == old(lastToken)
        invariant st0.pos <= pos && (pos == st0.pos ==> c == st0.c) && err == st0.err
        invariant pos > st0.pos ==> c == src.data[pos - 1]
        invariant token == [st0.c] + src.data[st0.pos..pos]
        invariant forall k :: st0.pos <= k < pos ==> LiteralChar(src.data[k])
        invariant number == IsNumberRun(token)
        invariant literal == HasDashOrDot(token)
        decreases |src.data| - pos
      {
        var got := Next();
        if !got {
          FindKeywordRunsOut(src, st0);
          return EOF, "";
        }
        var stop;
        stop, number, literal := UpdateFlags(token, c, number, literal);
        if stop {
          break;
        }
        RunGrows(src.data, st0.pos, pos, st0.c, token);
        token := token + [c];
      }
      FindKeywordStops(src, st0, pos - 1);
      t, v := Classify(token, literal, number);
    }

    /**
     * The body of `findKeyword`'s loop after a byte is read: update the flags,
     * or report that the byte ends the run.
     */
    static method UpdateFlags(token: seq<Byte>, c: Byte, number: bool, literal: bool)
      returns (stop: bool, number': bool, literal': bool)
      requires |token| > 0 && number == IsNumberRun(token) && literal == HasDashOrDot(token)
      ensures stop == !LiteralChar(c)
      ensures stop ==> number' == number && literal' == literal
      ensures !stop ==> number' == IsNumberRun(token + [c]) && literal' == HasDashOrDot(token + [c])
    {
      FlagsStep(token, c);
      stop, number', literal' := false, number, literal;
      if number' {
        if !IsDigit(c) && !(|token| == 1 && token[0] == '0' && (c == 'x' || c == 'X')) {
          if LiteralChar(c) {
            number' := false;
          } else {
            return true, number', literal';
          }
        }
      }
      if !number' && !literal' && !KeywordChar(c) {
        if !LiteralChar(c) {
          return true, number', literal';
        }
        literal' := true;
      } else if !number' && literal' && !LiteralChar(c) {
        return true, number', literal';
      }
    }

    /** The end of `findKeyword`: keyword unless `literal` is set, then NUM if `number` is still set, else IDENT. */
    method Classify(token: seq<Byte>, literal: bool, number: bool) returns (t: TokenType, v: string)
      requires literal == HasDashOrDot(token) && number == IsNumberRun(token)
      ensures (t, v) == ClassifyRun(src.keywords, token)
    {
      if !literal {
        var k := KeywordIn(src.keywords, token);
        if k != ILLEGAL {
          return k, "";
        }
      }
      if number {
        return NUM, token;
      }
      return IDENT, token;
    }

    /**
     * Go's `Read`: produce the next token. The source loops forever when an
     * unterminated string's opening quote is the last byte of the input; the
     * precondition excludes exactly that case.
     */
    method Read() returns (ok: bool)
      requires Valid() && ReadSpec(src, State()) != Diverges
      modifies this
      ensures Valid()
      ensures ok ==> ReadSpec(src, old(State())) == Emitted(lastToken, State())
      ensures !ok ==> ReadSpec(src, old(State())) == Failed(State()) && lastToken == Token(ILLEGAL, "")
    {
      lastToken := Token(ILLEGAL, "");
      if c == '\0' {
        ok := Next();
        if !ok {
          return false;
        }
      }
      while true
        invariant Valid() && lastToken == Token(ILLEGAL, "")
        invariant Dispatch(src, State()) == ReadSpec(src, old(State()))
        decreases |src.data| - pos
      {
        var done;
        done, ok := Round();
        if done {
          return ok;
        }
      }
    }

    /**
     * One pass of Read's loop: skip blanks, act on the current byte, and stop
     * unless a comment or `#` line was skipped or a string was unterminated.
     */
    method Round() returns (done: bool, ok: bool)
      requires Valid() && lastToken == Token(ILLEGAL, "") && Dispatch(src, State()) != Diverges
      modifies this
      ensures Valid()
      ensures done && ok ==> Dispatch(src, old(State())) == Emitted(lastToken, State())
      ensures done && !ok ==> Dispatch(src, old(State())) == Failed(State()) && lastToken == Token(ILLEGAL, "")
      ensures !done ==> Dispatch(src, old(State())) == Dispatch(src, State()) && lastToken == Token(ILLEGAL, "")
      ensures !done ==> pos > old(pos)
    {
      ok := SkipWhitespace();
      if !ok {
        return true, false;
      }
      ghost var s1 := State();
      assert Dispatch(src, old(State())) == Act(src, s1);
      if LiteralChar(c) {
        var t, v := FindKeyword();
        lastToken := Token(t, v);
        return true, true;
      } else if c == '/' {
        ok := SkipComment();
        if !ok {
          err := NonCommentSlash;
          return true, false;
        }
      } else if c == '#' {
        ok := SkipLine();
        if !ok {
          err := BadDirective;
          return true, false;
        }
      } else if c == '"' {
        var v, found := FindString();
        if found {
          lastToken := Token(STRING, v);
        }
      } else if PunctKind(c) != ILLEGAL {
        lastToken := lastToken.(kind := PunctKind(c));
      } else {
        err := UnexpectedCharacter(c);
        return true, false;
      }
      if lastToken.kind != ILLEGAL {
        c := '\0';
        return true, true;
      }
      return false, ok;
    }

    /** Go's `LastToken`. */
    method LastToken() returns (t: Token)
      ensures t == lastToken
    {
      t := lastToken;
    }

    /** Go's `Error`. */
    method Error() returns (e: ScanError)
      ensures e == err
    {
      e := err;
    }
  }
}

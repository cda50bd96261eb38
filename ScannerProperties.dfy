/**
 * What one call to Read produces, stated on the bytes it has yet to examine:
 * one lemma per shape of input (punctuation, literal run, string, comment,
 * `#` line, each error), plus the facts that hold for every outcome.
 */
module ScannerProperties {
  import opened Sequences
  import opened Tokens
  import opened Scanning

  /**
   * The bytes Read examines next: the current byte `c`, unless it is 0
   * (which Read takes to mean that no byte is pending), then the unread input.
   */
  function Pending(src: Source, st: ScanState): seq<Byte>
    requires Fits(src, st)
  {
    if st.c == '\0' then src.data[st.pos..] else [st.c] + src.data[st.pos..]
  }

  /** The state in which byte `n` of the pending bytes has just been read into `c`. */
  function At(src: Source, st: ScanState, n: nat): (r: ScanState)
    requires Fits(src, st) && n < |Pending(src, st)|
    ensures Fits(src, r) && r.pos >= st.pos && r.err == st.err && r.c == Pending(src, st)[n]
    ensures |Pending(src, st)| - 1 - n == |src.data| - r.pos
  {
    ScanState(st.pos + n + (if st.c == '\0' then 1 else 0), Pending(src, st)[n], st.err)
  }

  /** Byte `k` of the pending bytes, once it is no longer the current byte, is the input byte before position `At(k + 1).pos`. */
  lemma PendingIsData(src: Source, st: ScanState, k: nat)
    requires Fits(src, st) && k < |Pending(src, st)|
    requires st.c == '\0' || k > 0
    ensures Pending(src, st)[k] == src.data[At(src, st, k).pos - 1]
  {
  }

  predicate AllBlank(s: seq<Byte>) {
    forall k :: 0 <= k < |s| ==> IsSpace(s[k])
  }

  /**
   * Read skips the leading blanks of the pending bytes and acts on the first
   * byte that is not blank, as if it had just been read.
   */
  lemma {:induction false} ReadReaches(src: Source, st: ScanState, n: nat)
    requires Fits(src, st) && n < |Pending(src, st)|
    requires AllBlank(Pending(src, st)[..n]) && !IsSpace(Pending(src, st)[n])
    ensures ReadSpec(src, st) == Act(src, At(src, st, n))
  {
    var P := Pending(src, st);
    var off := if st.c == '\0' then 1 else 0;
    var s0 := if st.c == '\0' then ScanState(st.pos + 1, src.data[st.pos], st.err) else st;
    assert ReadSpec(src, st) == Dispatch(src, s0);
    if n == 0 {
      assert s0 == At(src, st, 0);
      DispatchOnNonBlank(src, s0);
    } else {
      var j := st.pos + n + off - 1;
      assert IsSpace(s0.c) by { assert P[..n][0] == P[0]; }
      forall k | s0.pos <= k < j
        ensures IsSpace(src.data[k])
      {
        var i := k - st.pos + 1 - off;
        assert P[..n][i] == P[i];
        PendingIsData(src, st, i);
      }
      PendingIsData(src, st, n);
      DispatchOnBlank(src, s0, j);
      assert ScanState(j + 1, src.data[j], st.err) == At(src, st, n);
    }
  }

  /** Read's loop on a non-blank current byte acts on it at once. */
  lemma DispatchOnNonBlank(src: Source, s: ScanState)
    requires Fits(src, s) && !IsSpace(s.c)
    ensures Dispatch(src, s) == Act(src, s)
  {
  }

  /** Read's loop on a blank current byte reads on to the first byte that is not blank, at input index `j`. */
  lemma DispatchOnBlank(src: Source, s: ScanState, j: nat)
    requires s.pos <= j < |src.data| && IsSpace(s.c)
    requires forall k :: s.pos <= k < j ==> IsSpace(src.data[k])
    requires !IsSpace(src.data[j])
    ensures Dispatch(src, s) == Act(src, ScanState(j + 1, src.data[j], s.err))
  {
    FirstFromIs(src.data, s.pos, NotSpace, j);
  }

  /** When only blanks are pending, Read returns false with the reader's end-of-input error. */
  lemma {:induction false} EndBetweenTokens(src: Source, st: ScanState)
    requires Fits(src, st) && AllBlank(Pending(src, st))
    ensures ReadSpec(src, st).Failed? && ReadSpec(src, st).st.err == src.end
  {
    var P := Pending(src, st);
    if st.c == '\0' {
      if st.pos < |src.data| {
        forall k | st.pos + 1 <= k < |src.data|
          ensures !NotSpace(src.data[k])
        {
          assert P[k - st.pos] == src.data[k];
        }
        assert IsSpace(P[0]);
        FirstFromIs(src.data, st.pos + 1, NotSpace, |src.data|);
      }
    } else {
      forall k | st.pos <= k < |src.data|
        ensures !NotSpace(src.data[k])
      {
        assert P[k - st.pos + 1] == src.data[k];
      }
      assert IsSpace(P[0]);
      FirstFromIs(src.data, st.pos, NotSpace, |src.data|);
    }
  }

  /** After byte `n` is read, the pending bytes are those after it; and unless it is 0, it is itself still pending. */
  lemma PendingFrom(src: Source, st: ScanState, n: nat)
    requires Fits(src, st) && n < |Pending(src, st)|
    ensures Pending(src, At(src, st, n).(c := '\0')) == Pending(src, st)[n + 1..]
    ensures Pending(src, st)[n] != '\0' ==> Pending(src, At(src, st, n)) == Pending(src, st)[n..]
  {
    var p := Pending(src, st);
    var s1 := At(src, st, n);
    assert src.data[s1.pos..] == p[n + 1..];
    assert p[n..] == [p[n]] + p[n + 1..];
  }

  /** Act on a punctuation byte. */
  lemma ActOnPunct(src: Source, s1: ScanState)
    requires Fits(src, s1) && PunctKind(s1.c) != ILLEGAL
    ensures Act(src, s1) == Emitted(Token(PunctKind(s1.c), ""), s1.(c := '\0'))
  {
  }

  /**
   * Punctuation: each of `( ) [ ] { } : , ; * = |` yields its kind with an
   * empty value, and the byte is consumed.
   */
  lemma PunctuationToken(src: Source, st: ScanState, n: nat)
    requires Fits(src, st) && n < |Pending(src, st)|
    requires AllBlank(Pending(src, st)[..n]) && PunctKind(Pending(src, st)[n]) != ILLEGAL
    ensures var after := At(src, st, n).(c := '\0');
      && ReadSpec(src, st) == Emitted(Token(PunctKind(Pending(src, st)[n]), ""), after)
      && Pending(src, after) == Pending(src, st)[n + 1..]
  {
    var s1 := At(src, st, n);
    ReadReaches(src, st, n);
    assert A: ReadSpec(src, st) == Act(src, s1);
    ActOnPunct(src, s1);
    assert B: Act(src, s1) == Emitted(Token(PunctKind(s1.c), ""), s1.(c := '\0'));
    assert C: s1.c == Pending(src, st)[n];
    PendingFrom(src, st, n);
  }

  /** Pending bytes `n` to `m` (exclusive) are byte `n`, then the input up to where byte `m - 1` was read. */
  lemma PendingSlice(src: Source, st: ScanState, n: nat, m: nat)
    requires Fits(src, st) && n < m <= |Pending(src, st)|
    ensures At(src, st, n).pos <= At(src, st, m - 1).pos
    ensures Pending(src, st)[n..m] == [Pending(src, st)[n]] + src.data[At(src, st, n).pos..At(src, st, m - 1).pos]
  {
    var P := Pending(src, st);
    forall k | n < k < m
      ensures P[k] == src.data[At(src, st, k).pos - 1]
    {
      PendingIsData(src, st, k);
    }
  }

  /** Act on a literal byte when a non-literal byte ends the run at input index `j`. */
  lemma ActOnRun(src: Source, s1: ScanState, j: nat)
    requires s1.pos <= j < |src.data| && LiteralChar(s1.c)
    requires forall k :: s1.pos <= k < j ==> LiteralChar(src.data[k])
    requires !LiteralChar(src.data[j])
    ensures var (kind, v) := ClassifyRun(src.keywords, [s1.c] + src.data[s1.pos..j]);
      Act(src, s1) == Emitted(Token(kind, v), ScanState(j + 1, src.data[j], s1.err))
  {
    FindKeywordStops(src, s1, j);
  }

  /**
   * A literal run: the bytes from `n` up to the first byte `m` that is not a
   * literal character form one token, classified by ClassifyRun. Byte `m` is
   * read but not consumed: it is the first byte the next Read examines, unless
   * it is 0, which Read then takes for "no byte pending" and skips.
   */
  lemma RunToken(src: Source, st: ScanState, n: nat, m: nat)
    requires Fits(src, st) && n < m < |Pending(src, st)|
    requires AllBlank(Pending(src, st)[..n])
    requires forall k :: n <= k < m ==> LiteralChar(Pending(src, st)[k])
    requires !LiteralChar(Pending(src, st)[m])
    ensures var P := Pending(src, st);
      var after := At(src, st, m);
      && ReadSpec(src, st) == Emitted(Token(ClassifyRun(src.keywords, P[n..m]).0, ClassifyRun(src.keywords, P[n..m]).1), after)
      && (P[m] != '\0' ==> Pending(src, after) == P[m..])
      && (P[m] == '\0' ==> Pending(src, after) == P[m + 1..])
  {
    var P := Pending(src, st);
    var s1 := At(src, st, n);
    var j := At(src, st, m).pos - 1;
    ReadReaches(src, st, n);
    forall k | s1.pos <= k < j
      ensures LiteralChar(src.data[k])
    {
      PendingIsData(src, st, k - s1.pos + n + 1);
    }
    PendingIsData(src, st, m);
    assert ReadSpec(src, st) == Act(src, s1);
    ActOnRun(src, s1, j);
    PendingSlice(src, st, n, m);
    assert P[n..m] == [s1.c] + src.data[s1.pos..j];
    assert Act(src, s1) == Emitted(Token(ClassifyRun(src.keywords, P[n..m]).0, ClassifyRun(src.keywords, P[n..m]).1), At(src, st, m));
    PendingFrom(src, st, m);
  }

  /** A property of the pending bytes strictly between `n` and `m` is one of the input bytes that follow byte `n`. */
  lemma DataRange(src: Source, st: ScanState, n: nat, m: nat, p: Byte -> bool)
    requires Fits(src, st) && n < m <= |Pending(src, st)|
    requires forall k :: n < k < m ==> p(Pending(src, st)[k])
    ensures At(src, st, n).pos + (m - n - 1) <= |src.data|
    ensures forall k :: At(src, st, n).pos <= k < At(src, st, n).pos + (m - n - 1) ==> p(src.data[k])
  {
    forall k | At(src, st, n).pos <= k < At(src, st, n).pos + (m - n - 1)
      ensures p(src.data[k])
    {
      PendingIsData(src, st, k - At(src, st, n).pos + n + 1);
    }
  }

  predicate NotNewline(b: Byte) { b != '\n' }
  predicate NotQuote(b: Byte) { b != '"' }

  /** Act on a literal byte when the run reaches the end of the input. */
  lemma ActOnRunToEnd(src: Source, s1: ScanState)
    requires Fits(src, s1) && LiteralChar(s1.c)
    requires forall k :: s1.pos <= k < |src.data| ==> LiteralChar(src.data[k])
    ensures Act(src, s1) == Emitted(Token(EOF, ""), Exhausted(src, s1))
  {
    FindKeywordRunsOut(src, s1);
  }

  /** Once the input has run out inside a literal run, every Read yields EOF again and changes nothing. */
  lemma EofFixpoint(src: Source, s: ScanState)
    requires s.pos == |src.data| && LiteralChar(s.c) && s.err == src.end
    ensures ReadSpec(src, s) == Emitted(Token(EOF, ""), s)
  {
    ActOnRunToEnd(src, s);
  }

  /** A literal run that reaches the end of the input yields EOF with no value, and so does every later Read. */
  lemma RunAtEnd(src: Source, st: ScanState, n: nat)
    requires Fits(src, st) && n < |Pending(src, st)|
    requires AllBlank(Pending(src, st)[..n])
    requires forall k :: n <= k < |Pending(src, st)| ==> LiteralChar(Pending(src, st)[k])
    ensures var P := Pending(src, st);
      var after := ScanState(|src.data|, P[|P| - 1], src.end);
      && ReadSpec(src, st) == Emitted(Token(EOF, ""), after)
      && ReadSpec(src, after) == Emitted(Token(EOF, ""), after)
  {
    var P := Pending(src, st);
    ReadReaches(src, st, n);
    DataRange(src, st, n, |P|, LiteralChar);
    ActOnRunToEnd(src, At(src, st, n));
    if n < |P| - 1 {
      PendingIsData(src, st, |P| - 1);
    }
    EofFixpoint(src, ScanState(|src.data|, P[|P| - 1], src.end));
  }

  /** Act on an opening quote when the closing quote is at input index `j`. */
  lemma ActOnString(src: Source, s1: ScanState, j: nat)
    requires s1.pos <= j < |src.data| && s1.c == '"' && src.data[j] == '"'
    requires forall k :: s1.pos <= k < j ==> NotQuote(src.data[k])
    ensures Act(src, s1) == Emitted(Token(STRING, src.data[s1.pos..j]), ScanState(j + 1, '\0', s1.err))
  {
    FirstFromIs(src.data, s1.pos, IsQuote, j);
  }

  /** A quoted string yields STRING whose value is exactly the bytes between the quotes; the closing quote is consumed. */
  lemma StringToken(src: Source, st: ScanState, n: nat, m: nat)
    requires Fits(src, st) && n < m < |Pending(src, st)|
    requires AllBlank(Pending(src, st)[..n])
    requires Pending(src, st)[n] == '"' && Pending(src, st)[m] == '"'
    requires forall k :: n < k < m ==> NotQuote(Pending(src, st)[k])
    ensures var P := Pending(src, st);
      var after := At(src, st, m).(c := '\0');
      && ReadSpec(src, st) == Emitted(Token(STRING, P[n + 1..m]), after)
      && Pending(src, after) == P[m + 1..]
  {
    var P := Pending(src, st);
    var s1 := At(src, st, n);
    var j := At(src, st, m).pos - 1;
    ReadReaches(src, st, n);
    assert ReadSpec(src, st) == Act(src, s1);
    DataRange(src, st, n, m, NotQuote);
    PendingIsData(src, st, m);
    ActOnString(src, s1, j);
    assert Act(src, s1) == Emitted(Token(STRING, src.data[s1.pos..j]), At(src, st, m).(c := '\0'));
    PendingSlice(src, st, n, m);
    assert P[n + 1..m] == src.data[s1.pos..j] by {
      assert P[n + 1..m] == P[n..m][1..];
    }
    PendingFrom(src, st, m);
  }

  /** A `//` comment up to a newline produces no token: Read goes on as if only the newline had been there. */
  lemma CommentSkipped(src: Source, st: ScanState, n: nat, m: nat)
    requires Fits(src, st) && n + 1 < m < |Pending(src, st)|
    requires AllBlank(Pending(src, st)[..n])
    requires Pending(src, st)[n] == '/' && Pending(src, st)[n + 1] == '/' && Pending(src, st)[m] == '\n'
    requires forall k :: n + 1 < k < m ==> NotNewline(Pending(src, st)[k])
    ensures ReadSpec(src, st) == ReadSpec(src, At(src, st, m))
    ensures Pending(src, At(src, st, m)) == Pending(src, st)[m..]
  {
    var s1 := At(src, st, n);
    var sm := At(src, st, m);
    ReadReaches(src, st, n);
    assert ReadSpec(src, st) == Act(src, s1);
    PendingIsData(src, st, n + 1);
    DataRange(src, st, n + 1, m, NotNewline);
    PendingIsData(src, st, m);
    var j := sm.pos - 1;
    assert j == s1.pos + 1 + (m - n - 2);
    assert sm == ScanState(j + 1, '\n', s1.err);
    ActOnComment(src, s1, j);
    assert ReadSpec(src, sm) == Dispatch(src, sm);
    PendingFrom(src, st, m);
  }

  /** Act on `/` followed by `/`, when the next newline is at input index `j`. */
  lemma ActOnComment(src: Source, s1: ScanState, j: nat)
    requires s1.c == '/' && s1.pos < j < |src.data| && src.data[s1.pos] == '/' && src.data[j] == '\n'
    requires forall k :: s1.pos + 1 <= k < j ==> NotNewline(src.data[k])
    ensures Act(src, s1) == Dispatch(src, ScanState(j + 1, '\n', s1.err))
  {
    FirstFromIs(src.data, s1.pos + 1, IsNewline, j);
    assert SkipCommentSpec(src, s1) == (true, ScanState(j + 1, '\n', s1.err));
  }

  /** Act on `#` when the next newline is at input index `j`. */
  lemma ActOnDirective(src: Source, s1: ScanState, j: nat)
    requires s1.c == '#' && s1.pos <= j < |src.data| && src.data[j] == '\n'
    requires forall k :: s1.pos <= k < j ==> NotNewline(src.data[k])
    ensures Act(src, s1) == Dispatch(src, ScanState(j + 1, '\n', s1.err))
  {
    FirstFromIs(src.data, s1.pos, IsNewline, j);
  }

  /** A `#` line up to a newline produces no token: Read goes on as if only the newline had been there. */
  lemma DirectiveSkipped(src: Source, st: ScanState, n: nat, m: nat)
    requires Fits(src, st) && n < m < |Pending(src, st)|
    requires AllBlank(Pending(src, st)[..n])
    requires Pending(src, st)[n] == '#' && Pending(src, st)[m] == '\n'
    requires forall k :: n < k < m ==> NotNewline(Pending(src, st)[k])
    ensures ReadSpec(src, st) == ReadSpec(src, At(src, st, m))
    ensures Pending(src, At(src, st, m)) == Pending(src, st)[m..]
  {
    var s1 := At(src, st, n);
    var sm := At(src, st, m);
    ReadReaches(src, st, n);
    assert ReadSpec(src, st) == Act(src, s1);
    DataRange(src, st, n, m, NotNewline);
    PendingIsData(src, st, m);
    var j := sm.pos - 1;
    assert j == s1.pos + (m - n - 1);
    assert sm == ScanState(j + 1, '\n', s1.err);
    ActOnDirective(src, s1, j);
    assert ReadSpec(src, sm) == Dispatch(src, sm);
    PendingFrom(src, st, m);
  }

  /** A `/` that is the last byte or is not followed by `/` makes Read fail with the non-comment error. */
  lemma SlashNotComment(src: Source, st: ScanState, n: nat)
    requires Fits(src, st) && n < |Pending(src, st)|
    requires AllBlank(Pending(src, st)[..n]) && Pending(src, st)[n] == '/'
    requires n + 1 == |Pending(src, st)| || Pending(src, st)[n + 1] != '/'
    ensures ReadSpec(src, st).Failed? && ReadSpec(src, st).st.err == NonCommentSlash
  {
    ReadReaches(src, st, n);
    if n + 1 < |Pending(src, st)| {
      PendingIsData(src, st, n + 1);
    }
  }

  /** A `//` comment that reaches the end of the input without a newline makes Read fail with the non-comment error. */
  lemma CommentRunsOut(src: Source, st: ScanState, n: nat)
    requires Fits(src, st) && n + 1 < |Pending(src, st)|
    requires AllBlank(Pending(src, st)[..n])
    requires Pending(src, st)[n] == '/' && Pending(src, st)[n + 1] == '/'
    requires forall k :: n + 1 < k < |Pending(src, st)| ==> NotNewline(Pending(src, st)[k])
    ensures ReadSpec(src, st).Failed? && ReadSpec(src, st).st.err == NonCommentSlash
  {
    var s1 := At(src, st, n);
    ReadReaches(src, st, n);
    PendingIsData(src, st, n + 1);
    DataRange(src, st, n + 1, |Pending(src, st)|, NotNewline);
    FirstFromIs(src.data, s1.pos + 1, IsNewline, |src.data|);
  }

  /** A `#` line that reaches the end of the input without a newline makes Read fail with the directive error. */
  lemma DirectiveRunsOut(src: Source, st: ScanState, n: nat)
    requires Fits(src, st) && n < |Pending(src, st)|
    requires AllBlank(Pending(src, st)[..n]) && Pending(src, st)[n] == '#'
    requires forall k :: n < k < |Pending(src, st)| ==> NotNewline(Pending(src, st)[k])
    ensures ReadSpec(src, st).Failed? && ReadSpec(src, st).st.err == BadDirective
  {
    var s1 := At(src, st, n);
    ReadReaches(src, st, n);
    DataRange(src, st, n, |Pending(src, st)|, NotNewline);
    FirstFromIs(src.data, s1.pos, IsNewline, |src.data|);
  }

  /** A byte no case of Read handles. */
  predicate Unlisted(b: Byte) {
    !IsSpace(b) && !LiteralChar(b) && b != '/' && b != '#' && b != '"' && PunctKind(b) == ILLEGAL
  }

  /** Any other byte makes Read fail, naming the byte. */
  lemma UnexpectedByte(src: Source, st: ScanState, n: nat)
    requires Fits(src, st) && n < |Pending(src, st)|
    requires AllBlank(Pending(src, st)[..n]) && Unlisted(Pending(src, st)[n])
    ensures ReadSpec(src, st).Failed? && ReadSpec(src, st).st.err == UnexpectedCharacter(Pending(src, st)[n])
  {
    ReadReaches(src, st, n);
  }

  /**
   * An unterminated string yields no STRING token. Read goes round its loop
   * again with the last byte of the input as the current byte; when that
   * byte is the opening quote itself, Read never returns.
   */
  lemma UnterminatedString(src: Source, st: ScanState, n: nat)
    requires Fits(src, st) && n < |Pending(src, st)|
    requires AllBlank(Pending(src, st)[..n]) && Pending(src, st)[n] == '"'
    requires forall k :: n < k < |Pending(src, st)| ==> NotQuote(Pending(src, st)[k])
    ensures var P := Pending(src, st);
      ReadSpec(src, st) ==
        if n + 1 == |P| then Diverges
        else Dispatch(src, ScanState(|src.data|, P[|P| - 1], src.end))
  {
    var P := Pending(src, st);
    var s1 := At(src, st, n);
    ReadReaches(src, st, n);
    DataRange(src, st, n, |P|, NotQuote);
    FirstFromIs(src.data, s1.pos, IsQuote, |src.data|);
    if n + 1 < |P| {
      PendingIsData(src, st, |P| - 1);
    }
  }

  /** No number run is a keyword: every spelling starts with a letter. */
  lemma NumberRunNotKeyword(run: seq<Byte>)
    requires IsNumberRun(run)
    ensures Keyword(run) == ILLEGAL
  {
    KeywordSound(run);
    if Keyword(run) != ILLEGAL {
      SpellingIsWord(Keyword(run));
    }
  }

  /** A run with a `-` or `.` is not shaped like a table spelling. */
  lemma DashOrDotNotWord(run: seq<Byte>)
    requires HasDashOrDot(run)
    ensures !IsWord(run)
  {
    var i :| 1 <= i < |run| && (run[i] == '-' || run[i] == '.');
    assert run[i] in run;
  }

  /** No run with a `-` or `.` is a keyword: no spelling contains either. */
  lemma DashOrDotNotKeyword(run: seq<Byte>)
    requires HasDashOrDot(run)
    ensures Keyword(run) == ILLEGAL
  {
    DashOrDotNotWord(run);
    KeywordSound(run);
    if Keyword(run) != ILLEGAL {
      SpellingIsWord(Keyword(run));
    }
  }

  /** A spelling shaped like a word consists of scanner keyword bytes. */
  lemma WordIsKeywordBytes(w: string)
    requires IsWord(w)
    ensures forall i :: 0 <= i < |w| ==> w[i] as int < 256 && KeywordChar(w[i] as Byte)
  {
    forall i | 0 <= i < |w|
      ensures w[i] as int < 256 && KeywordChar(w[i] as Byte)
    {
      assert w[i] in w;
    }
  }

  /**
   * How a complete run is classified, with the table `init` built: a keyword
   * exactly when its text is a spelling in the table (then with an empty
   * value), else NUM exactly when it is a number run, else IDENT; NUM and
   * IDENT carry the run's text.
   */
  lemma ClassifyRunIff(keywords: map<string, TokenType>, run: seq<Byte>)
    requires IsKeywordTable(keywords)
    ensures var (kind, v) := ClassifyRun(keywords, run);
      && (IsLookupKind(kind) <==> Keyword(run) != ILLEGAL)
      && (IsLookupKind(kind) ==> kind == Keyword(run) && v == "")
      && (kind == NUM <==> IsNumberRun(run))
      && (kind == IDENT <==> Keyword(run) == ILLEGAL && !IsNumberRun(run))
      && (!IsLookupKind(kind) ==> v == run)
  {
    KeywordInTable(keywords, run);
    KeywordSound(run);
    if IsNumberRun(run) {
      NumberRunNotKeyword(run);
    }
    if HasDashOrDot(run) {
      DashOrDotNotKeyword(run);
    }
  }

  /** A run spelled like a table entry yields that entry's kind with an empty value. */
  lemma KeywordRunScanned(keywords: map<string, TokenType>, run: seq<Byte>)
    requires IsKeywordTable(keywords) && Keyword(run) != ILLEGAL
    ensures ClassifyRun(keywords, run) == (Keyword(run), "")
  {
    ClassifyRunIff(keywords, run);
  }

  /** Once a `-` or `.` follows the first byte, the run is IDENT; in particular `-` never yields DASH. */
  lemma DashOrDotIsIdent(keywords: map<string, TokenType>, run: seq<Byte>)
    requires IsKeywordTable(keywords) && HasDashOrDot(run)
    ensures ClassifyRun(keywords, run) == (IDENT, run)
  {
    var i :| 1 <= i < |run| && (run[i] == '-' || run[i] == '.');
    assert !IsDigit(run[i]);
  }

  /** Every keyword, attribute and parameter attribute, scanned as a run, yields its own kind. */
  lemma KeywordSpellingScanned(keywords: map<string, TokenType>, t: TokenType)
    requires IsKeywordTable(keywords) && IsLookupKind(t)
    ensures forall i :: 0 <= i < |EnumName(t)| ==> EnumName(t)[i] as int < 256 && KeywordChar(EnumName(t)[i] as Byte)
    ensures ClassifyRun(keywords, EnumName(t)) == (t, "")
  {
    SpellingIsWord(t);
    WordIsKeywordBytes(EnumName(t));
    KeywordRoundTrip(t);
    KeywordRunScanned(keywords, EnumName(t));
  }

  /** Hexadecimal: `0x` stays NUM only while decimal digits follow. */
  lemma HexExamples(keywords: map<string, TokenType>)
    requires IsKeywordTable(keywords)
    ensures ClassifyRun(keywords, "0x10") == (NUM, "0x10")
    ensures ClassifyRun(keywords, "0x1F") == (IDENT, "0x1F")
    ensures ClassifyRun(keywords, "1x0") == (IDENT, "1x0")
    ensures ClassifyRun(keywords, "1.5") == (IDENT, "1.5")
  {
    var a: seq<Byte> := "0x10";
    assert IsNumberRun(a);
    NumberRunNotKeyword(a);
    var b: seq<Byte> := "0x1F";
    assert !IsNumberRun(b) by { assert !IsDigit(b[3]); }
    ClassifyRunIff(keywords, b);
    var c: seq<Byte> := "1x0";
    assert !IsNumberRun(c) by { assert !IsDigit(c[1]); }
    ClassifyRunIff(keywords, c);
    var d: seq<Byte> := "1.5";
    assert HasDashOrDot(d) by { assert d[1] == '.'; }
    DashOrDotIsIdent(keywords, d);
  }

  /** Each punctuation byte maps to an operator kind other than DASH, spelled as the byte itself. */
  lemma PunctuationKinds(b: Byte)
    requires PunctKind(b) != ILLEGAL
    ensures IsOperator(PunctKind(b)) && PunctKind(b) != DASH && EnumName(PunctKind(b)) == [b]
  {
  }

  /** The kinds a successful Read can report: never ILLEGAL, COMMENT or DASH. */
  predicate ScannedKind(k: TokenType) {
    k == EOF || k == IDENT || k == NUM || k == STRING || IsLookupKind(k) || (IsOperator(k) && k != DASH)
  }

  /** After EOF: input consumed, the reader's end recorded, and a literal byte still current. */
  predicate EofState(src: Source, st: ScanState) {
    st.pos == |src.data| && st.err == src.end && LiteralChar(st.c)
  }

  /** What every emitted token satisfies. */
  predicate WellEmitted(src: Source, r: ReadStep) {
    r.Emitted? ==>
      && ScannedKind(r.tok.kind)
      && (r.tok.kind == EOF ==> r.tok.val == "" && EofState(src, r.st))
  }

  /** Every token a round of Read's loop emits has a scanned kind, and EOF comes with its end state. */
  lemma {:induction false} DispatchWellEmitted(src: Source, st: ScanState)
    requires Fits(src, st) && IsKeywordTable(src.keywords)
    ensures WellEmitted(src, Dispatch(src, st))
    decreases |src.data| - st.pos, 1
  {
    var (ok, s1) := SkipWhitespaceSpec(src, st);
    if ok {
      ActWellEmitted(src, s1);
    }
  }

  lemma {:induction false} ActWellEmitted(src: Source, s1: ScanState)
    requires Fits(src, s1) && IsKeywordTable(src.keywords)
    ensures WellEmitted(src, Act(src, s1))
    decreases |src.data| - s1.pos, 0
  {
    if LiteralChar(s1.c) {
      var j := FirstFrom(src.data, s1.pos, NotLiteralChar);
      if j < |src.data| {
        FindKeywordStops(src, s1, j);
        ClassifyRunIff(src.keywords, [s1.c] + src.data[s1.pos..j]);
      } else {
        FindKeywordRunsOut(src, s1);
      }
    } else if s1.c == '/' {
      var (ok2, s2) := SkipCommentSpec(src, s1);
      if ok2 {
        DispatchWellEmitted(src, s2);
      }
    } else if s1.c == '#' {
      var (ok2, s2) := SkipLineSpec(src, s1);
      if ok2 {
        DispatchWellEmitted(src, s2);
      }
    } else if s1.c == '"' {
      var (v, s2) := FindStringSpec(src, s1);
      if v.None? && s1.pos < |src.data| {
        DispatchWellEmitted(src, s2);
      }
    } else if PunctKind(s1.c) != ILLEGAL {
      PunctuationKinds(s1.c);
    }
  }

  /**
   * Read never reports ILLEGAL, COMMENT or DASH as a token; once it reports
   * EOF (with an empty value), every later Read reports the same EOF again.
   */
  lemma ReadEmitsScannedKinds(src: Source, st: ScanState)
    requires Fits(src, st) && IsKeywordTable(src.keywords)
    ensures ReadSpec(src, st).Emitted? ==> ScannedKind(ReadSpec(src, st).tok.kind)
    ensures ReadSpec(src, st).Emitted? && ReadSpec(src, st).tok.kind == EOF ==>
      && ReadSpec(src, st).tok.val == ""
      && ReadSpec(src, st).st.pos == |src.data|
      && ReadSpec(src, ReadSpec(src, st).st) == ReadSpec(src, st)
  {
    if st.c == '\0' {
      if st.pos < |src.data| {
        DispatchWellEmitted(src, ScanState(st.pos + 1, src.data[st.pos], st.err));
      }
    } else {
      DispatchWellEmitted(src, st);
    }
    var r := ReadSpec(src, st);
    if r.Emitted? && r.tok.kind == EOF {
      EofFixpoint(src, r.st);
    }
  }
}

/**
 * What the parser of parser.go accepts and produces, stated over the
 * specification functions of module Parsing: the import statement against
 * a reference filter, the attribute list against a rendering of attribute
 * items, and the nodes Parse logs.
 */
module ParserProperties {
  import opened Wrappers
  import opened Sequences
  import opened Tokens
  import opened Parsing

  /** The values of the STRING tokens of `s`, in order. */
  function StringValues(s: seq<Token>): seq<string> {
    if s == [] then []
    else (if s[0].kind == STRING then [s[0].val] else []) + StringValues(s[1..])
  }

  /** A token that ends the file list of an import statement: anything but a string or a comma. */
  predicate EndsFileList(t: Token) { t.kind != STRING && t.kind != COMMA }

  /**
   * `importNode`'s loop from index `i`: it looks for the first token that
   * is neither a string nor a comma. If that is a `;`, the result is the
   * string values before it, in order, and the `;` is consumed; any other
   * token fails, and so does running off the end.
   */
  lemma {:induction false} ImportScanIs(ts: seq<Token>, i: nat)
    requires i <= |ts|
    ensures var j := FirstFrom(ts, i, EndsFileList);
      ImportScan(ts, i) ==
        if j == |ts| then Err(IndexOutOfRange)
        else if ts[j].kind == SEMICOLON then Ok((StringValues(ts[i..j]), j + 1))
        else Err(ImportExpectingString(ts[j]))
    decreases |ts| - i
  {
    if i < |ts| && !EndsFileList(ts[i]) {
      ImportScanIs(ts, i + 1);
      var j := FirstFrom(ts, i + 1, EndsFileList);
      assert FirstFrom(ts, i, EndsFileList) == j;
      assert ts[i..j][1..] == ts[i + 1..j];
      if ts[i].kind == COMMA {
        assert StringValues(ts[i..j]) == StringValues(ts[i + 1..j]);
      }
    }
  }

  /** `file1, file2, ...` as string tokens separated by single commas. */
  function FileTokens(files: seq<string>): seq<Token>
    decreases |files|
  {
    if files == [] then []
    else if |files| == 1 then [Token(STRING, files[0])]
    else [Token(STRING, files[0]), Token(COMMA, "")] + FileTokens(files[1..])
  }

  /** `import file1, file2, ... ;` as tokens. */
  function ImportTokens(files: seq<string>): seq<Token> {
    [Token(IMPORT, "")] + FileTokens(files) + [Token(SEMICOLON, "")]
  }

  lemma {:induction false} FileTokensShape(files: seq<string>)
    ensures forall k :: 0 <= k < |FileTokens(files)| ==> !EndsFileList(FileTokens(files)[k])
    ensures StringValues(FileTokens(files)) == files
    decreases |files|
  {
    if |files| > 1 {
      FileTokensShape(files[1..]);
      var s := FileTokens(files);
      assert s[1..] == [Token(COMMA, "")] + FileTokens(files[1..]);
      assert s[1..][1..] == FileTokens(files[1..]);
    } else if |files| == 1 {
      assert FileTokens(files)[1..] == [];
    }
  }

  /**
   * Round trip: an import statement listing `files` yields an ImportNode
   * with exactly those files, in order, and `importNode` stops after the
   * `;`; with no files it fails.
   */
  lemma ImportRoundTrip(files: seq<string>, rest: seq<Token>)
    ensures var ts := ImportTokens(files) + rest;
      ImportSpec(ts, 1, ts[0]) ==
        if files == [] then Err(NoImportFiles) else Ok((ImportNode(files), |ImportTokens(files)|))
  {
    var ts := ImportTokens(files) + rest;
    var n := |FileTokens(files)|;
    FileTokensShape(files);
    forall k | 1 <= k < n + 1
      ensures !EndsFileList(ts[k])
    {
      assert ts[k] == FileTokens(files)[k - 1];
    }
    assert ts[n + 1].kind == SEMICOLON;
    FirstFromIs(ts, 1, EndsFileList, n + 1);
    ImportScanIs(ts, 1);
    assert ts[1..n + 1] == FileTokens(files);
  }

  /** At root scope, an import statement is logged as its ImportNode and parsing goes on after the `;`. */
  lemma ParseImport(files: seq<string>, rest: seq<Token>)
    requires files != []
    ensures var ts := ImportTokens(files) + rest;
      ParseSpec(ts, ROOT, 0) == Logged([Import(ImportNode(files))], ParseSpec(ts, ROOT, |ImportTokens(files)|))
  {
    ImportRoundTrip(files, rest);
  }

  /** One attribute as written: its kind and, when parenthesised, its value. */
  datatype AttrItem = AttrItem(kind: TokenType, val: Option<string>)

  /** `kind` or `kind ( IDENT )` as tokens. */
  function ItemTokens(a: AttrItem): seq<Token> {
    [Token(a.kind, "")] + (if a.val.Some? then [Token(LPAREN, ""), Token(IDENT, a.val.value), Token(RPAREN, "")] else [])
  }

  /** A non-empty attribute list, items separated by single commas. */
  function ListTokens(items: seq<AttrItem>): seq<Token>
    requires |items| > 0
    decreases |items|
  {
    if |items| == 1 then ItemTokens(items[0])
    else ItemTokens(items[0]) + [Token(COMMA, "")] + ListTokens(items[1..])
  }

  /** The nodes the list should produce: the parenthesised items, in order. */
  function Kept(items: seq<AttrItem>): seq<AttributeNode> {
    if items == [] then [] else KeptItem(items[0]) + Kept(items[1..])
  }

  /** The node one item should produce, if it is parenthesised. */
  function KeptItem(a: AttrItem): seq<AttributeNode> {
    if a.val.Some? then [AttributeNode(a.val.value, a.kind)] else []
  }

  predicate AllAttributes(items: seq<AttrItem>) {
    forall k :: 0 <= k < |items| ==> IsAttribute(items[k].kind)
  }

  /** `objAttributes` on one item: the node it keeps, and the index after the item. */
  lemma AttrValueOfItem(ts: seq<Token>, i: nat, a: AttrItem)
    requires IsAttribute(a.kind)
    requires i + |ItemTokens(a)| < |ts|
    requires forall k :: 0 <= k < |ItemTokens(a)| ==> ts[i + k] == ItemTokens(a)[k]
    requires ts[i + |ItemTokens(a)|].kind != LPAREN
    ensures ts[i].kind == a.kind
    ensures AttrValue(ts, i + 1, a.kind) == Ok((KeptItem(a), i + |ItemTokens(a)|))
  {
    assert ts[i] == ItemTokens(a)[0];
    if a.val.Some? {
      assert ts[i + 1] == ItemTokens(a)[1];
      assert ts[i + 2] == ItemTokens(a)[2];
      assert ts[i + 3] == ItemTokens(a)[3];
      assert MustFindNextSpec(ts, i + 2, IDENT) == Ok(Token(IDENT, a.val.value));
    }
  }

  /**
   * Where the items of a list sit in `ts` from index `i`: the tokens of each
   * item, then a comma and the next item, or, after the last one, `]` at
   * index `e`.
   */
  predicate ItemsAt(ts: seq<Token>, i: nat, items: seq<AttrItem>, e: nat)
    decreases |items|
  {
    && |items| > 0
    && IsAttribute(items[0].kind)
    && i + |ItemTokens(items[0])| < |ts|
    && ts[i..i + |ItemTokens(items[0])|] == ItemTokens(items[0])
    && var j := i + |ItemTokens(items[0])|;
       if |items| == 1 then ts[j].kind == RBRACK && e == j
       else ts[j].kind == COMMA && ItemsAt(ts, j + 1, items[1..], e)
  }

  /**
   * `objAttributes` on a list of items followed by `]`: it keeps exactly the
   * parenthesised items, in order, and stops at the `]` without consuming it.
   */
  lemma {:induction false} AttrScanList(ts: seq<Token>, i: nat, items: seq<AttrItem>, e: nat)
    requires ItemsAt(ts, i, items, e)
    ensures AttrScan(ts, i) == Ok((Kept(items), e))
    decreases |items|
  {
    var a := items[0];
    var j := i + |ItemTokens(a)|;
    if |items| == 1 {
      AttrScanLast(ts, i, a);
      KeptOne(items);
    } else {
      AttrScanList(ts, j + 1, items[1..], e);
      AttrScanCons(ts, i, a, Kept(items[1..]), e);
    }
  }

  lemma KeptOne(items: seq<AttrItem>)
    requires |items| == 1
    ensures Kept(items) == KeptItem(items[0])
  {
    assert Kept(items[1..]) == [];
    assert KeptItem(items[0]) + [] == KeptItem(items[0]);
  }

  /** The last item, followed by `]`. */
  lemma AttrScanLast(ts: seq<Token>, i: nat, a: AttrItem)
    requires IsAttribute(a.kind)
    requires i + |ItemTokens(a)| < |ts|
    requires ts[i..i + |ItemTokens(a)|] == ItemTokens(a)
    requires ts[i + |ItemTokens(a)|].kind == RBRACK
    ensures AttrScan(ts, i) == Ok((KeptItem(a), i + |ItemTokens(a)|))
  {
    AttrScanItem(ts, i, a);
  }

  /** An item followed by a comma keeps its node in front of what the rest of the list keeps. */
  lemma AttrScanCons(ts: seq<Token>, i: nat, a: AttrItem, tail: seq<AttributeNode>, e: nat)
    requires IsAttribute(a.kind)
    requires i + |ItemTokens(a)| < |ts|
    requires ts[i..i + |ItemTokens(a)|] == ItemTokens(a)
    requires ts[i + |ItemTokens(a)|].kind == COMMA
    requires AttrScan(ts, i + |ItemTokens(a)| + 1) == Ok((tail, e))
    ensures AttrScan(ts, i) == Ok((KeptItem(a) + tail, e))
  {
    AttrScanItem(ts, i, a);
  }

  /** One item: its kept node, then either the end of the list or a comma and the rest. */
  lemma AttrScanItem(ts: seq<Token>, i: nat, a: AttrItem)
    requires IsAttribute(a.kind)
    requires i + |ItemTokens(a)| < |ts|
    requires ts[i..i + |ItemTokens(a)|] == ItemTokens(a)
    requires ts[i + |ItemTokens(a)|].kind != LPAREN
    ensures var j := i + |ItemTokens(a)|;
      AttrScan(ts, i) == if ts[j].kind != COMMA then Ok((KeptItem(a), j)) else Prefixed(KeptItem(a), AttrScan(ts, j + 1))
  {
    var t := ItemTokens(a);
    forall k | 0 <= k < |t|
      ensures ts[i + k] == t[k]
    {
      assert ts[i + k] == ts[i..i + |t|][k];
    }
    AttrValueOfItem(ts, i, a);
    AttrScanStep(ts, i, KeptItem(a), i + |t|);
  }

  /** The tokens of a list followed by `]` place each item where `ItemsAt` says. */
  lemma {:induction false} ListItemsAt(ts: seq<Token>, i: nat, items: seq<AttrItem>)
    requires |items| > 0 && AllAttributes(items)
    requires i + |ListTokens(items)| < |ts|
    requires ts[i..i + |ListTokens(items)| + 1] == ListTokens(items) + [Token(RBRACK, "")]
    ensures ItemsAt(ts, i, items, i + |ListTokens(items)|)
    decreases |items|
  {
    if |items| == 1 {
      ListLast(ts, i, items);
    } else {
      ListCons(ts, i, items);
      ListItemsAt(ts, i + |ItemTokens(items[0])| + 1, items[1..]);
    }
  }

  /** A one-item list followed by `]`. */
  lemma ListLast(ts: seq<Token>, i: nat, items: seq<AttrItem>)
    requires |items| == 1 && AllAttributes(items)
    requires i + |ListTokens(items)| < |ts|
    requires ts[i..i + |ListTokens(items)| + 1] == ListTokens(items) + [Token(RBRACK, "")]
    ensures ItemsAt(ts, i, items, i + |ListTokens(items)|)
  {
    var t := ItemTokens(items[0]);
    var w := ts[i..i + |t| + 1];
    assert ListTokens(items) == t;
    assert w == t + [Token(RBRACK, "")];
    assert ts[i..i + |t|] == w[..|t|];
    assert ts[i + |t|] == w[|t|];
  }

  /** A list of two or more items followed by `]`: its first item, a comma, then the rest of the list followed by `]`. */
  lemma ListCons(ts: seq<Token>, i: nat, items: seq<AttrItem>)
    requires |items| > 1 && AllAttributes(items)
    requires i + |ListTokens(items)| < |ts|
    requires ts[i..i + |ListTokens(items)| + 1] == ListTokens(items) + [Token(RBRACK, "")]
    ensures var t := ItemTokens(items[0]); var lr := ListTokens(items[1..]);
      && IsAttribute(items[0].kind)
      && i + |t| + 1 + |lr| == i + |ListTokens(items)|
      && ts[i..i + |t|] == t
      && ts[i + |t|].kind == COMMA
      && ts[i + |t| + 1..i + |t| + 1 + |lr| + 1] == lr + [Token(RBRACK, "")]
      && AllAttributes(items[1..])
  {
    var t := ItemTokens(items[0]);
    var lr := ListTokens(items[1..]);
    var l := ListTokens(items);
    assert l == t + [Token(COMMA, "")] + lr;
    assert |l| == |t| + 1 + |lr|;
    assert l + [Token(RBRACK, "")] == t + [Token(COMMA, "")] + (lr + [Token(RBRACK, "")]);
    SliceSplit(ts, i, t, Token(COMMA, ""), lr + [Token(RBRACK, "")]);
    AllAttributesTail(items);
  }

  /** A slice known to be `x + [c] + y`, read back piece by piece. */
  lemma SliceSplit<T>(s: seq<T>, i: nat, x: seq<T>, c: T, y: seq<T>)
    requires i + |x| + 1 + |y| <= |s|
    requires s[i..i + |x| + 1 + |y|] == x + [c] + y
    ensures s[i..i + |x|] == x && s[i + |x|] == c && s[i + |x| + 1..i + |x| + 1 + |y|] == y
  {
    var w := s[i..i + |x| + 1 + |y|];
    assert s[i..i + |x|] == w[..|x|];
    assert s[i + |x|] == w[|x|];
    assert s[i + |x| + 1..i + |x| + 1 + |y|] == w[|x| + 1..];
  }

  lemma AllAttributesTail(items: seq<AttrItem>)
    requires |items| > 0 && AllAttributes(items)
    ensures IsAttribute(items[0].kind) && AllAttributes(items[1..])
  {
    forall k | 0 <= k < |items| - 1
      ensures IsAttribute(items[1..][k].kind)
    {
      assert items[1..][k] == items[k + 1];
    }
  }

  /** One attribute of `objAttributes`: its kept node, then either the end of the list or a comma and the rest. */
  lemma AttrScanStep(ts: seq<Token>, i: nat, head: seq<AttributeNode>, j: nat)
    requires i < j < |ts| && IsAttribute(ts[i].kind)
    requires AttrValue(ts, i + 1, ts[i].kind) == Ok((head, j))
    ensures AttrScan(ts, i) == if ts[j].kind != COMMA then Ok((head, j)) else Prefixed(head, AttrScan(ts, j + 1))
  {
  }

  /**
   * A root-scope attribute list `[ items ]`: logged as the parenthesised
   * items only, the `]` consumed, and the step left at STEP_INTERFACE, where
   * Parse ends if nothing follows and makes no progress otherwise.
   */
  lemma ParseAttributeList(items: seq<AttrItem>, rest: seq<Token>)
    requires |items| > 0 && AllAttributes(items)
    ensures var ts := [Token(LBRACK, "")] + ListTokens(items) + [Token(RBRACK, "")] + rest;
      ParseSpec(ts, ROOT, 0) ==
        ParseRun(if rest == [] then Finished else Stuck, [Attributes(Kept(items))], STEP_INTERFACE, |ListTokens(items)| + 2)
  {
    var l := ListTokens(items);
    var ts := [Token(LBRACK, "")] + l + [Token(RBRACK, "")] + rest;
    assert ts[1..1 + |l| + 1] == l + [Token(RBRACK, "")];
    AttrScanOfList(ts, 1, items);
    assert ts[0].kind == LBRACK && ts[|l| + 1].kind == RBRACK;
    OpenBracket(ts);
    AttributesClosed(ts, 1);
    ParseLogs(ts, STEP_INTERFACE, |l| + 2);
  }

  /** `objAttributes` on the tokens of a list followed by `]`. */
  lemma AttrScanOfList(ts: seq<Token>, i: nat, items: seq<AttrItem>)
    requires |items| > 0 && AllAttributes(items)
    requires i + |ListTokens(items)| < |ts|
    requires ts[i..i + |ListTokens(items)| + 1] == ListTokens(items) + [Token(RBRACK, "")]
    ensures AttrScan(ts, i) == Ok((Kept(items), i + |ListTokens(items)|))
  {
    ListItemsAt(ts, i, items);
    AttrScanList(ts, i, items, i + |ListTokens(items)|);
  }

  /** At root scope `[` switches to the attribute list. */
  lemma OpenBracket(ts: seq<Token>)
    requires 0 < |ts| && ts[0].kind == LBRACK
    ensures ParseSpec(ts, ROOT, 0) == ParseSpec(ts, ATTRIBUTES, 1)
  {
  }

  /** An attribute list that `objAttributes` reads and a `]` then closes is logged, and the step becomes STEP_INTERFACE. */
  lemma AttributesClosed(ts: seq<Token>, pos: nat)
    requires pos < |ts| && AttrScan(ts, pos).Ok?
    requires AttrScan(ts, pos).value.1 < |ts| && ts[AttrScan(ts, pos).value.1].kind == RBRACK
    ensures ParseSpec(ts, ATTRIBUTES, pos) ==
      Logged([Attributes(AttrScan(ts, pos).value.0)], ParseSpec(ts, STEP_INTERFACE, AttrScan(ts, pos).value.1 + 1))
  {
  }

  /**
   * An empty list `[]`: the `]` is consumed as the end of the attributes,
   * so a second `]` is required; without one Parse aborts.
   */
  lemma ParseEmptyAttributeList(rest: seq<Token>)
    ensures var r := ParseSpec([Token(LBRACK, ""), Token(RBRACK, "")] + rest, ROOT, 0);
      && (rest == [] ==> r.status == Aborted(IndexOutOfRange) && r.logged == [])
      && (rest != [] && rest[0].kind != RBRACK ==> r.status == Aborted(ExpectedKind(RBRACK, rest[0])) && r.logged == [])
      && (rest != [] && rest[0].kind == RBRACK ==>
            r == ParseRun(if |rest| == 1 then Finished else Stuck, [Attributes([])], STEP_INTERFACE, 3))
  {
    var ts := [Token(LBRACK, ""), Token(RBRACK, "")] + rest;
    assert ts[0].kind == LBRACK && ts[1].kind == RBRACK;
    assert ParseSpec(ts, ROOT, 0) == ParseSpec(ts, ATTRIBUTES, 1);
    assert AttrScan(ts, 1) == Ok(([], 2));
    if rest != [] {
      assert ts[2] == rest[0];
      if rest[0].kind == RBRACK {
        ParseLogs(ts, STEP_INTERFACE, 3);
      }
    }
  }

  /**
   * Where `objAttributes` stops: either just after a `]` in attribute
   * position, or at a token other than `,` that follows an attribute.
   * Every kept node has an attribute kind.
   */
  lemma {:induction false} AttrScanStops(ts: seq<Token>, i: nat)
    requires i <= |ts|
    ensures var r := AttrScan(ts, i);
      r.Ok? ==>
        && (ts[r.value.1 - 1].kind == RBRACK || (r.value.1 < |ts| && ts[r.value.1].kind != COMMA))
        && forall k :: 0 <= k < |r.value.0| ==> IsAttribute(r.value.0[k].kind)
    decreases |ts| - i
  {
    if i < |ts| && ts[i].kind != RBRACK && IsAttribute(ts[i].kind) {
      var v := AttrValue(ts, i + 1, ts[i].kind);
      if v.Ok? && v.value.1 < |ts| && ts[v.value.1].kind == COMMA {
        AttrScanStops(ts, v.value.1 + 1);
      }
    }
  }

  /** Items each followed by a comma: the part of a list `objAttributes` passes over before its last item. */
  function PrefixTokens(items: seq<AttrItem>): seq<Token>
    decreases |items|
  {
    if items == [] then [] else ItemTokens(items[0]) + [Token(COMMA, "")] + PrefixTokens(items[1..])
  }

  /**
   * `objAttributes` passes over well-formed items followed by commas, keeping
   * their nodes; the first token after them decides the rest of the result,
   * failures included.
   */
  lemma {:induction false} AttrScanPrefix(ts: seq<Token>, i: nat, items: seq<AttrItem>)
    requires AllAttributes(items)
    requires i + |PrefixTokens(items)| <= |ts|
    requires ts[i..i + |PrefixTokens(items)|] == PrefixTokens(items)
    ensures AttrScan(ts, i) == Prefixed(Kept(items), AttrScan(ts, i + |PrefixTokens(items)|))
    decreases |items|
  {
    var e := i + |PrefixTokens(items)|;
    if items == [] {
      assert e == i && Kept(items) == [];
      PrefixedNil(AttrScan(ts, i));
    } else {
      var j := i + |ItemTokens(items[0])| + 1;
      PrefixHead(ts, i, items);
      AttrScanPrefix(ts, j, items[1..]);
      var k := j + |PrefixTokens(items[1..])|;
      assert Kept(items) == KeptItem(items[0]) + Kept(items[1..]);
      PrefixedChain(AttrScan(ts, i), AttrScan(ts, j), AttrScan(ts, k), KeptItem(items[0]), Kept(items[1..]), Kept(items));
      assert k == e;
    }
  }

  /** The first item of a comma-terminated prefix: its node, then the rest of the prefix after its comma. */
  lemma {:induction false} PrefixHead(ts: seq<Token>, i: nat, items: seq<AttrItem>)
    requires items != [] && AllAttributes(items)
    requires i + |PrefixTokens(items)| <= |ts|
    requires ts[i..i + |PrefixTokens(items)|] == PrefixTokens(items)
    ensures var j := i + |ItemTokens(items[0])| + 1; var pr := PrefixTokens(items[1..]);
      && AllAttributes(items[1..])
      && j + |pr| == i + |PrefixTokens(items)|
      && ts[j..j + |pr|] == pr
      && AttrScan(ts, i) == Prefixed(KeptItem(items[0]), AttrScan(ts, j))
  {
    var a := items[0];
    var t := ItemTokens(a);
    var pr := PrefixTokens(items[1..]);
    assert PrefixTokens(items) == t + [Token(COMMA, "")] + pr;
    SliceSplit(ts, i, t, Token(COMMA, ""), pr);
    AllAttributesTail(items);
    AttrScanItem(ts, i, a);
  }

  /** Items each followed by a comma at `pos`, then `tail`: `objAttributes` keeps their nodes and goes on at `tail`. */
  lemma {:induction false} AttrScanAfterPrefix(ts: seq<Token>, pos: nat, items: seq<AttrItem>, tail: seq<Token>)
    requires AllAttributes(items)
    requires pos <= |ts| && ts[pos..] == PrefixTokens(items) + tail
    ensures pos + |PrefixTokens(items)| <= |ts| && ts[pos + |PrefixTokens(items)|..] == tail
    ensures AttrScan(ts, pos) == Prefixed(Kept(items), AttrScan(ts, pos + |PrefixTokens(items)|))
  {
    var p := PrefixTokens(items);
    assert ts[pos..pos + |p|] == ts[pos..][..|p|];
    assert ts[pos + |p|..] == ts[pos..][|p|..];
    AttrScanPrefix(ts, pos, items);
  }

  /** A failure of `objAttributes` aborts Parse; nothing is logged. */
  lemma {:induction false} AttributesAborted(ts: seq<Token>, pos: nat)
    requires pos < |ts| && AttrScan(ts, pos).Err?
    ensures ParseSpec(ts, ATTRIBUTES, pos) == ParseRun(Aborted(AttrScan(ts, pos).error), [], ATTRIBUTES, pos)
  {
  }

  /** A list that `objAttributes` reads but that is followed by a token other than `]` aborts Parse. */
  lemma {:induction false} AttributesNotClosed(ts: seq<Token>, pos: nat)
    requires pos < |ts| && AttrScan(ts, pos).Ok?
    requires AttrScan(ts, pos).value.1 < |ts| && ts[AttrScan(ts, pos).value.1].kind != RBRACK
    ensures ParseSpec(ts, ATTRIBUTES, pos) ==
      ParseRun(Aborted(ExpectedKind(RBRACK, ts[AttrScan(ts, pos).value.1])), [], ATTRIBUTES, pos)
  {
  }

  /** Where an attribute should be, a token that is neither `]` nor an attribute fails `objAttributes`. */
  lemma {:induction false} AttrListRejectsNonAttribute(ts: seq<Token>, pos: nat, items: seq<AttrItem>, t: Token, rest: seq<Token>)
    requires AllAttributes(items)
    requires t.kind != RBRACK && !IsAttribute(t.kind)
    requires pos <= |ts| && ts[pos..] == PrefixTokens(items) + ([t] + rest)
    ensures AttrScan(ts, pos) == Err(NotAnAttribute(t))
  {
    AttrScanAfterPrefix(ts, pos, items, [t] + rest);
    var e := pos + |PrefixTokens(items)|;
    assert ts[e] == t;
  }

  /** After an attribute and `(`, a token other than an identifier fails `objAttributes`. */
  lemma {:induction false} AttrListRejectsBadValue(ts: seq<Token>, pos: nat, items: seq<AttrItem>, kind: TokenType, t: Token, rest: seq<Token>)
    requires AllAttributes(items) && IsAttribute(kind)
    requires t.kind != IDENT
    requires pos <= |ts| && ts[pos..] == PrefixTokens(items) + ([Token(kind, ""), Token(LPAREN, ""), t] + rest)
    ensures AttrScan(ts, pos) == Err(ExpectedKind(IDENT, t))
  {
    var tail := [Token(kind, ""), Token(LPAREN, ""), t] + rest;
    AttrScanAfterPrefix(ts, pos, items, tail);
    var e := pos + |PrefixTokens(items)|;
    assert ts[e] == tail[0] && ts[e + 1] == tail[1] && ts[e + 2] == tail[2];
  }

  /** After an attribute, `(` and an identifier, a token other than `)` fails `objAttributes`. */
  lemma {:induction false} AttrListRejectsUnclosedValue(ts: seq<Token>, pos: nat, items: seq<AttrItem>, kind: TokenType, v: string, t: Token, rest: seq<Token>)
    requires AllAttributes(items) && IsAttribute(kind)
    requires t.kind != RPAREN
    requires pos <= |ts| && ts[pos..] == PrefixTokens(items) + ([Token(kind, ""), Token(LPAREN, ""), Token(IDENT, v), t] + rest)
    ensures AttrScan(ts, pos) == Err(ExpectedKind(RPAREN, t))
  {
    var tail := [Token(kind, ""), Token(LPAREN, ""), Token(IDENT, v), t] + rest;
    AttrScanAfterPrefix(ts, pos, items, tail);
    var e := pos + |PrefixTokens(items)|;
    assert ts[e] == tail[0] && ts[e + 1] == tail[1] && ts[e + 2] == tail[2] && ts[e + 3] == tail[3];
  }

  /** Items each followed by a comma, then a last item that ends the tokens: `objAttributes` runs off the end. */
  lemma {:induction false} AttrListRunsOut(ts: seq<Token>, pos: nat, items: seq<AttrItem>, a: AttrItem)
    requires AllAttributes(items) && IsAttribute(a.kind)
    requires pos <= |ts| && ts[pos..] == PrefixTokens(items) + ItemTokens(a)
    ensures AttrScan(ts, pos) == Err(IndexOutOfRange)
  {
    AttrScanAfterPrefix(ts, pos, items, ItemTokens(a));
    LastItemRunsOut(ts, pos + |PrefixTokens(items)|, a);
  }

  /** An item that ends the tokens: `objAttributes` runs off the end looking for a `,`. */
  lemma {:induction false} LastItemRunsOut(ts: seq<Token>, e: nat, a: AttrItem)
    requires IsAttribute(a.kind)
    requires e <= |ts| && ts[e..] == ItemTokens(a)
    ensures AttrScan(ts, e) == Err(IndexOutOfRange)
  {
    var t := ItemTokens(a);
    assert ts[e] == t[0];
    if a.val.Some? {
      assert ts[e + 1] == t[1] && ts[e + 2] == t[2] && ts[e + 3] == t[3];
    }
  }

  /**
   * Items each followed by a comma, a last item, then a token other than `,`
   * and `(`: `objAttributes` keeps the parenthesised nodes in order and stops
   * at that token.
   */
  lemma {:induction false} AttrListStops(ts: seq<Token>, pos: nat, items: seq<AttrItem>, a: AttrItem, t: Token, rest: seq<Token>)
    requires AllAttributes(items) && IsAttribute(a.kind)
    requires t.kind != COMMA && t.kind != LPAREN
    requires pos <= |ts| && ts[pos..] == PrefixTokens(items) + (ItemTokens(a) + ([t] + rest))
    ensures var m := pos + |PrefixTokens(items)| + |ItemTokens(a)|;
      m < |ts| && ts[m] == t && AttrScan(ts, pos) == Ok((Kept(items) + KeptItem(a), m))
  {
    var e := pos + |PrefixTokens(items)|;
    var m := e + |ItemTokens(a)|;
    AttrScanAfterPrefix(ts, pos, items, ItemTokens(a) + ([t] + rest));
    LastItemStops(ts, e, a, t, rest);
    assert Prefixed(Kept(items), Ok((KeptItem(a), m))) == Ok((Kept(items) + KeptItem(a), m));
  }

  /** The last item of a list, followed by a token other than `,` and `(`: its node, stopping at that token. */
  lemma {:induction false} LastItemStops(ts: seq<Token>, e: nat, a: AttrItem, t: Token, rest: seq<Token>)
    requires IsAttribute(a.kind)
    requires t.kind != COMMA && t.kind != LPAREN
    requires e <= |ts| && ts[e..] == ItemTokens(a) + ([t] + rest)
    ensures e + |ItemTokens(a)| < |ts| && ts[e + |ItemTokens(a)|] == t
    ensures AttrScan(ts, e) == Ok((KeptItem(a), e + |ItemTokens(a)|))
  {
    var m := e + |ItemTokens(a)|;
    assert ts[e..m] == ts[e..][..|ItemTokens(a)|];
    assert ts[m] == ts[e..][|ItemTokens(a)|];
    AttrScanItem(ts, e, a);
  }

  /** In an attribute list, a token that is neither `]` nor an attribute (the `in` of `[in]`, say) aborts Parse. */
  lemma {:induction false} ParseRejectsNonAttribute(items: seq<AttrItem>, t: Token, rest: seq<Token>)
    requires AllAttributes(items)
    requires t.kind != RBRACK && !IsAttribute(t.kind)
    ensures var ts := [Token(LBRACK, "")] + PrefixTokens(items) + [t] + rest;
      ParseSpec(ts, ROOT, 0) == ParseRun(Aborted(NotAnAttribute(t)), [], ATTRIBUTES, 1)
  {
    var ts := [Token(LBRACK, "")] + PrefixTokens(items) + [t] + rest;
    assert ts[1..] == PrefixTokens(items) + ([t] + rest);
    AttrListRejectsNonAttribute(ts, 1, items, t, rest);
    OpenBracket(ts);
    AttributesAborted(ts, 1);
  }

  /** An attribute followed by `(` must have an identifier next; anything else aborts Parse. */
  lemma {:induction false} ParseRejectsBadValue(items: seq<AttrItem>, kind: TokenType, t: Token, rest: seq<Token>)
    requires AllAttributes(items) && IsAttribute(kind)
    requires t.kind != IDENT
    ensures var ts := [Token(LBRACK, "")] + PrefixTokens(items) + [Token(kind, ""), Token(LPAREN, ""), t] + rest;
      ParseSpec(ts, ROOT, 0) == ParseRun(Aborted(ExpectedKind(IDENT, t)), [], ATTRIBUTES, 1)
  {
    var ts := [Token(LBRACK, "")] + PrefixTokens(items) + [Token(kind, ""), Token(LPAREN, ""), t] + rest;
    assert ts[1..] == PrefixTokens(items) + ([Token(kind, ""), Token(LPAREN, ""), t] + rest);
    AttrListRejectsBadValue(ts, 1, items, kind, t, rest);
    OpenBracket(ts);
    AttributesAborted(ts, 1);
  }

  /** An attribute value `( IDENT` must be closed by `)`; anything else aborts Parse. */
  lemma {:induction false} ParseRejectsUnclosedValue(items: seq<AttrItem>, kind: TokenType, v: string, t: Token, rest: seq<Token>)
    requires AllAttributes(items) && IsAttribute(kind)
    requires t.kind != RPAREN
    ensures var ts := [Token(LBRACK, "")] + PrefixTokens(items) + [Token(kind, ""), Token(LPAREN, ""), Token(IDENT, v), t] + rest;
      ParseSpec(ts, ROOT, 0) == ParseRun(Aborted(ExpectedKind(RPAREN, t)), [], ATTRIBUTES, 1)
  {
    var ts := [Token(LBRACK, "")] + PrefixTokens(items) + [Token(kind, ""), Token(LPAREN, ""), Token(IDENT, v), t] + rest;
    assert ts[1..] == PrefixTokens(items) + ([Token(kind, ""), Token(LPAREN, ""), Token(IDENT, v), t] + rest);
    AttrListRejectsUnclosedValue(ts, 1, items, kind, v, t, rest);
    OpenBracket(ts);
    AttributesAborted(ts, 1);
  }

  /** `[`, items each followed by a comma, then a last item that ends the tokens: Parse aborts on the index past the end. */
  lemma {:induction false} ParseListRunsOut(items: seq<AttrItem>, a: AttrItem)
    requires AllAttributes(items) && IsAttribute(a.kind)
    ensures var ts := [Token(LBRACK, "")] + PrefixTokens(items) + ItemTokens(a);
      ParseSpec(ts, ROOT, 0) == ParseRun(Aborted(IndexOutOfRange), [], ATTRIBUTES, 1)
  {
    var ts := [Token(LBRACK, "")] + PrefixTokens(items) + ItemTokens(a);
    assert ts[1..] == PrefixTokens(items) + ItemTokens(a);
    AttrListRunsOut(ts, 1, items, a);
    OpenBracket(ts);
    AttributesAborted(ts, 1);
  }

  /**
   * `[`, items each followed by a comma, a last item, then a token that
   * neither continues the list (`,` or `(`) nor closes it (`]`), as in
   * `[uuid(x) interface`: Parse aborts, expecting `]`.
   */
  lemma {:induction false} ParseUnclosedList(items: seq<AttrItem>, a: AttrItem, t: Token, rest: seq<Token>)
    requires AllAttributes(items) && IsAttribute(a.kind)
    requires t.kind != COMMA && t.kind != LPAREN && t.kind != RBRACK
    ensures var ts := [Token(LBRACK, "")] + PrefixTokens(items) + ItemTokens(a) + [t] + rest;
      ParseSpec(ts, ROOT, 0) == ParseRun(Aborted(ExpectedKind(RBRACK, t)), [], ATTRIBUTES, 1)
  {
    var ts := [Token(LBRACK, "")] + PrefixTokens(items) + ItemTokens(a) + [t] + rest;
    assert ts[1..] == PrefixTokens(items) + (ItemTokens(a) + ([t] + rest));
    AttrListStops(ts, 1, items, a, t, rest);
    OpenBracket(ts);
    AttributesNotClosed(ts, 1);
  }

  /** What Parse may log: an import with at least one file, or a list of attributes. */
  predicate LoggedWell(n: Node) {
    || (n.Import? && |n.imp.files| > 0)
    || (n.Attributes? && forall k :: 0 <= k < |n.attrs| ==> IsAttribute(n.attrs[k].kind))
  }

  /**
   * Every node Parse logs is an import with files or an attribute list; an
   * attribute list can only be the last node logged; in STEP_INTERFACE
   * Parse logs nothing and ends at once when no token is left, else makes
   * no progress.
   */
  lemma {:induction false} ParseLogs(ts: seq<Token>, step: ParserStep, pos: nat)
    ensures forall k :: 0 <= k < |ParseSpec(ts, step, pos).logged| ==> LoggedWell(ParseSpec(ts, step, pos).logged[k])
    ensures forall k :: 0 <= k < |ParseSpec(ts, step, pos).logged| - 1 ==> ParseSpec(ts, step, pos).logged[k].Import?
    ensures step == STEP_INTERFACE ==>
      ParseSpec(ts, step, pos) == ParseRun(if pos < |ts| then Stuck else Finished, [], step, pos)
    ensures step == ATTRIBUTES ==> |ParseSpec(ts, step, pos).logged| <= 1
    decreases |ts| - pos
  {
    if pos < |ts| {
      if step == ROOT {
        if ts[pos].kind == IMPORT {
          var s := ImportSpec(ts, pos + 1, ts[pos]);
          if s.Ok? {
            ParseLogs(ts, ROOT, s.value.1);
          }
        } else if ts[pos].kind == LBRACK {
          ParseLogs(ts, ATTRIBUTES, pos + 1);
        }
      } else if step == ATTRIBUTES {
        var a := AttrScan(ts, pos);
        if a.Ok? {
          AttrScanStops(ts, pos);
        }
      }
    }
  }

  /**
   * At root scope any token other than `import` or `[` makes Parse return
   * an error quoting the token after it, or abort when there is none.
   */
  lemma RootScopeError(ts: seq<Token>, pos: nat)
    requires pos < |ts| && ts[pos].kind != IMPORT && ts[pos].kind != LBRACK
    ensures ParseSpec(ts, ROOT, pos).logged == []
    ensures ParseSpec(ts, ROOT, pos).status ==
      if pos + 1 < |ts| then RootError("unexpected token in root scope: " + ts[pos + 1].String())
      else Aborted(IndexOutOfRange)
  {
  }
}

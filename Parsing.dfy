/**
 * The hand-written token-stream parser of parser.go: at root scope it
 * recognises `import "a", "b";` statements and a leading `[attr(val), ...]`
 * list. Every `log.Fatal*` call and every out-of-range index becomes a
 * failure reason; the nodes Parse logs are collected in order.
 */
module Parsing {
  import opened Wrappers
  import opened Tokens

  /** Which construct Parse expects next. */
  datatype ParserStep = ROOT | ATTRIBUTES | STEP_INTERFACE

  /** The node records parser.go declares. Only ImportNode and AttributeNode are ever built. */
  datatype ImportNode = ImportNode(files: seq<string>)
  datatype AttributeNode = AttributeNode(val: string, kind: TokenType)
  datatype ParamAttrNode = ParamAttrNode(val: string, kind: TokenType)
  datatype ParamNode = ParamNode(attributes: seq<ParamAttrNode>, typeName: string, indirections: int, name: string, array: bool)
  datatype InterfaceNode = InterfaceNode(name: string, parentName: string, attributes: seq<AttributeNode>, methods: seq<MethodNode>)
  datatype MethodNode = MethodNode(name: string, returnType: string, params: seq<ParamNode>)
  datatype EnumNode = EnumNode(name: string, values: seq<EnumValueNode>)
  datatype EnumValueNode = EnumValueNode(name: string, val: string)
  datatype TypedefNode = TypedefNode(name: string, typeName: string, indirection: int, attributes: seq<AttributeNode>)
  datatype LibraryNode = LibraryNode(name: string, attributes: seq<AttributeNode>, nodes: seq<Node>)
  datatype ImportLibNode = ImportLibNode(filename: string)
  datatype ModuleConstantNode = ModuleConstantNode(name: string, val: string)
  datatype ModuleNode = ModuleNode(name: string, nodes: seq<Node>)
  datatype StructNode = StructNode(name: string, fields: seq<StructFieldNode>)
  datatype StructFieldNode = StructFieldNode(typeName: string, name: string, attributes: seq<ParamAttrNode>)

  /** A value held in one of Go's `interface{}` node slots; Parse logs the first two kinds. */
  datatype Node =
    | Import(imp: ImportNode)
    | Attributes(attrs: seq<AttributeNode>)
    | Interface(iface: InterfaceNode)
    | Enum(enum: EnumNode)
    | Typedef(typedef: TypedefNode)
    | Library(library: LibraryNode)
    | ImportLib(importLib: ImportLibNode)
    | ModuleConstant(constant: ModuleConstantNode)
    | Module(moduleNode: ModuleNode)
    | Struct(structNode: StructNode)

  /** Why parsing stopped the process: a `log.Fatal*` call, or an index past the end of the tokens. */
  datatype Fatal =
    | EndOfFile                                    // the guard of next/peek: pos beyond the tokens
    | IndexOutOfRange                              // ts[pos] with pos == len(ts): a run-time panic
    | ExpectedKind(want: TokenType, found: Token)  // mustFindNext
    | NotAnAttribute(found: Token)                 // objAttributes
    | NotImport(found: Token)                      // importNode called on another token
    | ImportExpectingString(found: Token)          // importNode
    | NoImportFiles                                // importNode

  /** What `next` and `peek` see at index `i`: the token, or the failure. */
  function TokenAt(ts: seq<Token>, i: nat): Result<Token, Fatal> {
    if i > |ts| then Err(EndOfFile)
    else if i == |ts| then Err(IndexOutOfRange)
    else Ok(ts[i])
  }

  /** What `mustFindNext(tt)` yields when `pos` is `i`. */
  function MustFindNextSpec(ts: seq<Token>, i: nat, tt: TokenType): (r: Result<Token, Fatal>)
    ensures r.Ok? <==> i < |ts| && ts[i].kind == tt
    ensures r.Ok? ==> r.value == ts[i]
    ensures i < |ts| && ts[i].kind != tt ==> r == Err(ExpectedKind(tt, ts[i]))
  {
    match TokenAt(ts, i)
    case Err(f) => Err(f)
    case Ok(t) => if t.kind == tt then Ok(t) else Err(ExpectedKind(tt, t))
  }

  /** A scan result with `h` put in front of what it collected. */
  function Prefixed<T>(h: seq<T>, s: Result<(seq<T>, nat), Fatal>): Result<(seq<T>, nat), Fatal> {
    match s
    case Ok((rest, e)) => Ok((h + rest, e))
    case Err(f) => Err(f)
  }

  lemma PrefixedNil<T>(s: Result<(seq<T>, nat), Fatal>)
    ensures Prefixed([], s) == s
  {
    if s.Ok? {
      assert [] + s.value.0 == s.value.0;
    }
  }

  lemma PrefixedAppend<T>(a: seq<T>, b: seq<T>, s: Result<(seq<T>, nat), Fatal>)
    ensures Prefixed(a, Prefixed(b, s)) == Prefixed(a + b, s)
  {
    if s.Ok? {
      assert a + (b + s.value.0) == (a + b) + s.value.0;
    }
  }

  /** Two prefixings in a row are one prefixing by both. */
  lemma PrefixedChain<T>(r: Result<(seq<T>, nat), Fatal>, mid: Result<(seq<T>, nat), Fatal>, s: Result<(seq<T>, nat), Fatal>,
                         a: seq<T>, b: seq<T>, ab: seq<T>)
    requires r == Prefixed(a, mid) && mid == Prefixed(b, s) && ab == a + b
    ensures r == Prefixed(ab, s)
  {
    PrefixedAppend(a, b, s);
  }

  /**
   * The loop of `importNode` from index `i`: the files of the statement and
   * the index after its `;`. Commas are skipped; any other token than a
   * string fails, and so does running off the end.
   */
  function ImportScan(ts: seq<Token>, i: nat): (r: Result<(seq<string>, nat), Fatal>)
    requires i <= |ts|
    ensures r.Ok? ==> i < r.value.1 <= |ts| && ts[r.value.1 - 1].kind == SEMICOLON
    ensures r.Ok? ==> |r.value.0| < r.value.1 - i
    decreases |ts| - i
  {
    if i == |ts| then Err(IndexOutOfRange)
    else if ts[i].kind == SEMICOLON then Ok(([], i + 1))
    else if ts[i].kind == COMMA then ImportScan(ts, i + 1)
    else if ts[i].kind != STRING then Err(ImportExpectingString(ts[i]))
    else Prefixed([ts[i].val], ImportScan(ts, i + 1))
  }

  /** What `importNode(t)` returns when `pos` is `i`: the node and the index after the statement. */
  function ImportSpec(ts: seq<Token>, i: nat, t: Token): (r: Result<(ImportNode, nat), Fatal>)
    requires i <= |ts|
    ensures r.Ok? ==> t.kind == IMPORT && |r.value.0.files| > 0 && i < r.value.1 <= |ts|
  {
    if t.kind != IMPORT then Err(NotImport(t))
    else match ImportScan(ts, i)
      case Err(f) => Err(f)
      case Ok((files, e)) => if |files| == 0 then Err(NoImportFiles) else Ok((ImportNode(files), e))
  }

  /**
   * After an attribute token of kind `kind` at index `i - 1`: an optional
   * `( IDENT )` giving the node's value. Without it, nothing is kept; a `(`
   * must be followed by an identifier and then `)`, and running off the end
   * of the tokens is a failure.
   */
  function AttrValue(ts: seq<Token>, i: nat, kind: TokenType): (r: Result<(seq<AttributeNode>, nat), Fatal>)
    requires i <= |ts|
    ensures r.Ok? ==> i <= r.value.1 <= |ts| && |r.value.0| <= 1
    ensures r.Ok? ==> forall n :: n in r.value.0 ==> n.kind == kind
    ensures r.Ok? <==>
      i < |ts| && (ts[i].kind != LPAREN || (i + 2 < |ts| && ts[i + 1].kind == IDENT && ts[i + 2].kind == RPAREN))
    ensures i < |ts| && ts[i].kind != LPAREN ==> r == Ok(([], i))
    ensures i + 2 < |ts| && ts[i].kind == LPAREN && ts[i + 1].kind == IDENT && ts[i + 2].kind == RPAREN ==>
      r == Ok(([AttributeNode(ts[i + 1].val, kind)], i + 3))
    ensures i + 1 < |ts| && ts[i].kind == LPAREN && ts[i + 1].kind != IDENT ==> r == Err(ExpectedKind(IDENT, ts[i + 1]))
    ensures i + 2 < |ts| && ts[i].kind == LPAREN && ts[i + 1].kind == IDENT && ts[i + 2].kind != RPAREN ==>
      r == Err(ExpectedKind(RPAREN, ts[i + 2]))
    ensures r == Err(IndexOutOfRange) <==>
      i == |ts| || (ts[i].kind == LPAREN && (i + 1 == |ts| || (i + 2 == |ts| && ts[i + 1].kind == IDENT)))
  {
    if i == |ts| then Err(IndexOutOfRange)
    else if ts[i].kind != LPAREN then Ok(([], i))
    else match MustFindNextSpec(ts, i + 1, IDENT)
      case Err(f) => Err(f)
      case Ok(v) =>
        match MustFindNextSpec(ts, i + 2, RPAREN)
        case Err(f) => Err(f)
        case Ok(_) => Ok(([AttributeNode(v.val, kind)], i + 3))
  }

  /**
   * The loop of `objAttributes` from index `i`: the kept attributes and
   * where it stopped. A `]` in attribute position is consumed; otherwise it
   * stops, without consuming, at the first token after an attribute that is
   * not a comma.
   */
  function AttrScan(ts: seq<Token>, i: nat): (r: Result<(seq<AttributeNode>, nat), Fatal>)
    requires i <= |ts|
    ensures r.Ok? ==> i < r.value.1 <= |ts|
    decreases |ts| - i
  {
    if i == |ts| then Err(IndexOutOfRange)
    else if ts[i].kind == RBRACK then Ok(([], i + 1))
    else if ts[i].kind <= attr_beg || ts[i].kind >= attr_end then Err(NotAnAttribute(ts[i]))
    else match AttrValue(ts, i + 1, ts[i].kind)
      case Err(f) => Err(f)
      case Ok((head, j)) =>
        if j == |ts| then Err(IndexOutOfRange)
        else if ts[j].kind != COMMA then Ok((head, j))
        else Prefixed(head, AttrScan(ts, j + 1))
  }

  /** How Parse ends. */
  datatype ParseStatus =
    | Finished              // Parse returns nil
    | RootError(msg: string) // Parse returns this error
    | Aborted(reason: Fatal) // log.Fatal* or a panic ends the process
    | Stuck                  // Parse loops for ever: STEP_INTERFACE with tokens left

  /** The outcome of Parse: how it ended, the nodes it logged, and where it stopped (not meaningful once aborted). */
  datatype ParseRun = ParseRun(status: ParseStatus, logged: seq<Node>, step: ParserStep, pos: nat)

  function Logged(h: seq<Node>, r: ParseRun): ParseRun {
    r.(logged := h + r.logged)
  }

  lemma LoggedAppend(a: seq<Node>, b: seq<Node>, r: ParseRun)
    ensures Logged(a, Logged(b, r)) == Logged(a + b, r)
  {
    assert a + (b + r.logged) == (a + b) + r.logged;
  }

  /** The message Parse returns for a bad token at root scope; it quotes the token Go indexes, the one after it. */
  function RootErrorMessage(t: Token): string {
    "unexpected token in root scope: " + t.String()
  }

  /** What the loop of Parse does from `step` and `pos`, round by round. */
  function ParseSpec(ts: seq<Token>, step: ParserStep, pos: nat): (r: ParseRun)
    ensures r.status.Finished? ==> r.pos >= |ts|
    decreases |ts| - pos
  {
    if pos >= |ts| then ParseRun(Finished, [], step, pos)
    else if step == ROOT then
      if ts[pos].kind == IMPORT then
        match ImportSpec(ts, pos + 1, ts[pos])
        case Err(f) => ParseRun(Aborted(f), [], step, pos)
        case Ok((imp, e)) => Logged([Import(imp)], ParseSpec(ts, ROOT, e))
      else if ts[pos].kind == LBRACK then ParseSpec(ts, ATTRIBUTES, pos + 1)
      else if pos + 1 == |ts| then ParseRun(Aborted(IndexOutOfRange), [], step, pos)
      else ParseRun(RootError(RootErrorMessage(ts[pos + 1])), [], ROOT, pos + 1)
    else if step == ATTRIBUTES then
      match AttrScan(ts, pos)
      case Err(f) => ParseRun(Aborted(f), [], step, pos)
      case Ok((attrs, e)) =>
        match MustFindNextSpec(ts, e, RBRACK)
        case Err(f) => ParseRun(Aborted(f), [], step, pos)
        case Ok(_) => Logged([Attributes(attrs)], ParseSpec(ts, STEP_INTERFACE, e + 1))
    else ParseRun(Stuck, [], step, pos)
  }

  /** Go's `Parser`: the step, the cursor and the tokens. */
  class Parser {
    var step: ParserStep
    var pos: nat
    var ts: seq<Token>

    /** The zero value of the Go struct. */
    constructor ()
      ensures step == ROOT && pos == 0 && ts == []
    {
      step := ROOT;
      pos := 0;
      ts := [];
    }

    /** `next`: the token at `pos`, advancing `pos` by one; past the end it fails. */
    method Next() returns (r: Result<Token, Fatal>)
      modifies this
      ensures ts == old(ts) && step == old(step)
      ensures r == TokenAt(ts, old(pos))
      ensures pos == if old(pos) > |ts| then old(pos) else old(pos) + 1
    {
      if pos > |ts| {
        return Err(EndOfFile);
      }
      pos := pos + 1;
      if pos - 1 == |ts| {
        return Err(IndexOutOfRange);
      }
      return Ok(ts[pos - 1]);
    }

    /** `peek`: the token at `pos`, which stays where it is. */
    method Peek() returns (r: Result<Token, Fatal>)
      ensures r == TokenAt(ts, pos)
    {
      if pos > |ts| {
        return Err(EndOfFile);
      }
      if pos == |ts| {
        return Err(IndexOutOfRange);
      }
      return Ok(ts[pos]);
    }

    /** `mustFindNext(tt)`: consume one token and fail unless it has kind `tt`. */
    method MustFindNext(tt: TokenType) returns (r: Result<Token, Fatal>)
      modifies this
      ensures ts == old(ts) && step == old(step)
      ensures r == MustFindNextSpec(ts, old(pos), tt)
      ensures old(pos) <= |ts| ==> pos == old(pos) + 1
    {
      r := Next();
      if r.Ok? && r.value.kind != tt {
        r := Err(ExpectedKind(tt, r.value));
      }
    }

    /** `objAttributes`: the attribute list after `[`, following AttrScan. */
    method ObjAttributes() returns (r: Result<seq<AttributeNode>, Fatal>)
      requires pos <= |ts|
      modifies this
      ensures ts == old(ts) && step == old(step)
      ensures AttrScan(ts, old(pos)).Ok? ==> r == Ok(AttrScan(ts, old(pos)).value.0) && pos == AttrScan(ts, old(pos)).value.1
      ensures AttrScan(ts, old(pos)).Err? ==> r == Err(AttrScan(ts, old(pos)).error)
    {
      var nodes: seq<AttributeNode> := [];
      PrefixedNil(AttrScan(ts, pos));
      while true
        invariant pos <= |ts| && ts == old(ts) && step == old(step)
        invariant AttrScan(ts, old(pos)) == Prefixed(nodes, AttrScan(ts, pos))
        decreases |ts| - pos
      {
        ghost var i0 := pos;
        var n := Next();
        if n.Err? {
          return Err(n.error);
        }
        var t := n.value;
        if t.kind == RBRACK {
          assert nodes + [] == nodes;
          return Ok(nodes);
        } else if t.kind <= attr_beg || t.kind >= attr_end {
          return Err(NotAnAttribute(t));
        }
        var head := ParenValue(t.kind);
        if head.Err? {
          return Err(head.error);
        }
        var p := Peek();
        if p.Err? {
          return Err(p.error);
        }
        if p.value.kind != COMMA {
          nodes := nodes + head.value;
          break;
        }
        n := Next();
        assert AttrScan(ts, i0) == Prefixed(head.value, AttrScan(ts, pos));
        PrefixedAppend(nodes, head.value, AttrScan(ts, pos));
        nodes := nodes + head.value;
      }
      return Ok(nodes);
    }

    /**
     * The optional `( IDENT )` after an attribute of kind `kind`, following
     * AttrValue: the node to append, if any.
     */
    method ParenValue(kind: TokenType) returns (r: Result<seq<AttributeNode>, Fatal>)
      requires pos <= |ts|
      modifies this
      ensures ts == old(ts) && step == old(step)
      ensures AttrValue(ts, old(pos), kind).Ok? ==> r == Ok(AttrValue(ts, old(pos), kind).value.0) && pos == AttrValue(ts, old(pos), kind).value.1
      ensures AttrValue(ts, old(pos), kind).Err? ==> r == Err(AttrValue(ts, old(pos), kind).error)
    {
      var p := Peek();
      if p.Err? {
        return Err(p.error);
      }
      if p.value.kind != LPAREN {
        return Ok([]);
      }
      var n := Next();
      var v := MustFindNext(IDENT);
      if v.Err? {
        return Err(v.error);
      }
      var close := MustFindNext(RPAREN);
      if close.Err? {
        return Err(close.error);
      }
      return Ok([AttributeNode(v.value.val, kind)]);
    }

    /** `importNode(t)`: the files of an import statement, following ImportSpec. */
    method ImportStatement(t: Token) returns (r: Result<ImportNode, Fatal>)
      requires pos <= |ts|
      modifies this
      ensures ts == old(ts) && step == old(step)
      ensures ImportSpec(ts, old(pos), t).Ok? ==> r == Ok(ImportSpec(ts, old(pos), t).value.0) && pos == ImportSpec(ts, old(pos), t).value.1
      ensures ImportSpec(ts, old(pos), t).Err? ==> r == Err(ImportSpec(ts, old(pos), t).error)
    {
      if t.kind != IMPORT {
        return Err(NotImport(t));
      }
      var files: seq<string> := [];
      PrefixedNil(ImportScan(ts, pos));
      while true
        invariant pos <= |ts| && ts == old(ts) && step == old(step)
        invariant ImportScan(ts, old(pos)) == Prefixed(files, ImportScan(ts, pos))
        decreases |ts| - pos
      {
        var n := Next();
        if n.Err? {
          return Err(n.error);
        }
        var tok := n.value;
        if tok.kind == SEMICOLON {
          assert files + [] == files;
          break;
        } else if tok.kind == COMMA {
          continue;
        } else if tok.kind != STRING {
          return Err(ImportExpectingString(tok));
        }
        PrefixedAppend(files, [tok.val], ImportScan(ts, pos));
        files := files + [tok.val];
      }
      if |files| == 0 {
        return Err(NoImportFiles);
      }
      return Ok(ImportNode(files));
    }

    /** `Parse(ts)`: run the root loop over `tokens`, following ParseSpec. */
    method Parse(tokens: seq<Token>) returns (status: ParseStatus, logged: seq<Node>)
      modifies this
      ensures ts == tokens
      ensures status == ParseSpec(tokens, old(step), old(pos)).status
      ensures logged == ParseSpec(tokens, old(step), old(pos)).logged
      ensures !status.Aborted? ==> step == ParseSpec(tokens, old(step), old(pos)).step && pos == ParseSpec(tokens, old(step), old(pos)).pos
    {
      ts := tokens;
      logged := [];
      while pos < |ts|
        invariant ts == tokens
        invariant ParseSpec(tokens, old(step), old(pos)) == Logged(logged, ParseSpec(tokens, step, pos))
        decreases |ts| - pos
      {
        ghost var p0 := pos;
        if step == ROOT {
          var n := Next();
          var t := n.value;
          if t.kind == IMPORT {
            var imp := ImportStatement(t);
            if imp.Err? {
              return Aborted(imp.error), logged;
            }
            assert ParseSpec(ts, ROOT, p0) == Logged([Import(imp.value)], ParseSpec(ts, ROOT, pos));
            LoggedAppend(logged, [Import(imp.value)], ParseSpec(ts, ROOT, pos));
            logged := logged + [Import(imp.value)];
          } else if t.kind == LBRACK {
            step := ATTRIBUTES;
            assert ParseSpec(ts, ROOT, p0) == ParseSpec(ts, ATTRIBUTES, pos);
          } else {
            if pos == |ts| {
              return Aborted(IndexOutOfRange), logged;
            }
            return RootError(RootErrorMessage(ts[pos])), logged;
          }
        } else if step == ATTRIBUTES {
          var attrs := ObjAttributes();
          if attrs.Err? {
            return Aborted(attrs.error), logged;
          }
          var close := MustFindNext(RBRACK);
          if close.Err? {
            return Aborted(close.error), logged;
          }
          step := STEP_INTERFACE;
          assert ParseSpec(ts, ATTRIBUTES, p0) == Logged([Attributes(attrs.value)], ParseSpec(ts, STEP_INTERFACE, pos));
          LoggedAppend(logged, [Attributes(attrs.value)], ParseSpec(ts, STEP_INTERFACE, pos));
          logged := logged + [Attributes(attrs.value)];
        } else {
          return Stuck, logged;
        }
      }
      status := Finished;
    }
  }
}

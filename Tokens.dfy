/**
 * Token kinds, their spellings, the keyword lookup table and the textual
 * rendering of a token (scanner/token.go).
 */
module Tokens {
  import opened Wrappers
  import opened Sequences

  /** A token kind. Like Go's `type TokenType int`, every integer is a value of the type. */
  newtype TokenType = int

  const ILLEGAL: TokenType := 0
  const EOF: TokenType := 1
  const COMMENT: TokenType := 2

  const literal_beg: TokenType := 3
  const IDENT: TokenType := 4
  const STRING: TokenType := 5
  const NUM: TokenType := 6
  const literal_end: TokenType := 7

  const operators_beg: TokenType := 8
  const LPAREN: TokenType := 9
  const RPAREN: TokenType := 10
  const LBRACK: TokenType := 11
  const RBRACK: TokenType := 12
  const LBRACE: TokenType := 13
  const RBRACE: TokenType := 14
  const COMMA: TokenType := 15
  const COLON: TokenType := 16
  const SEMICOLON: TokenType := 17
  const DASH: TokenType := 18
  const PTR: TokenType := 19
  const EQUALS: TokenType := 20
  const B_OR: TokenType := 21
  const operators_end: TokenType := 22

  const keyword_beg: TokenType := 23
  const IMPORT: TokenType := 24
  const INTERFACE: TokenType := 25
  const CPP_QUOTE: TokenType := 26
  const MIDL_PRAGMA: TokenType := 27
  const ENUM: TokenType := 28
  const COCLASS: TokenType := 29
  const TYPEDEF: TokenType := 30
  const LIBRARY: TokenType := 31
  const IMPORTLIB: TokenType := 32
  const MODULE: TokenType := 33
  const CONST: TokenType := 34
  const LONG: TokenType := 35
  const STRUCT: TokenType := 36
  const HELPSTRING: TokenType := 37
  const keyword_end: TokenType := 38

  const attr_beg: TokenType := 39
  const UUID: TokenType := 40
  const OBJECT: TokenType := 41
  const POINTER_DEFAULT: TokenType := 42
  const LCID: TokenType := 43
  const VERSION: TokenType := 44
  const DLLNAME: TokenType := 45
  const PROPGET: TokenType := 46
  const PROPPUT: TokenType := 47
  const RETVAL: TokenType := 48
  const SIZE_IS: TokenType := 49
  const OLEAUTOMATION: TokenType := 50
  const LOCAL: TokenType := 51
  const ATTR_STRING: TokenType := 52
  const DEFAULT: TokenType := 53
  const V1_ENUM: TokenType := 54
  const attr_end: TokenType := 55

  const param_attr_beg: TokenType := 56
  const IN: TokenType := 57
  const OUT: TokenType := 58
  const ANNOTATION: TokenType := 59
  const MAX_IS: TokenType := 60
  const UNIQUE: TokenType := 61
  const IID_IS: TokenType := 62
  const param_attr_end: TokenType := 63

  predicate IsLiteral(t: TokenType) { literal_beg < t < literal_end }
  predicate IsOperator(t: TokenType) { operators_beg < t < operators_end }
  predicate IsKeyword(t: TokenType) { keyword_beg < t < keyword_end }
  predicate IsAttribute(t: TokenType) { attr_beg < t < attr_end }
  predicate IsParamAttribute(t: TokenType) { param_attr_beg < t < param_attr_end }

  /** The kinds that `init` enters into the string-to-kind table. */
  predicate IsLookupKind(t: TokenType) { IsKeyword(t) || IsAttribute(t) || IsParamAttribute(t) }

  /**
   * Go's `tokenEnumMap[t]`: the spelling of a kind, or the empty string for a
   * kind the map has no entry for (ILLEGAL, EOF, COMMENT and the band markers).
   */
  function EnumName(t: TokenType): string {
    if t == IDENT then "IDENT"
    else if t == STRING then "STRING"
    else if t == NUM then "NUM"
    else if t == IMPORT then "import"
    else if t == CPP_QUOTE then "cpp_quote"
    else if t == OBJECT then "object"
    else if t == UUID then "uuid"
    else if t == DLLNAME then "dllname"
    else if t == POINTER_DEFAULT then "pointer_default"
    else if t == LCID then "lcid"
    else if t == VERSION then "version"
    else if t == INTERFACE then "interface"
    else if t == ENUM then "enum"
    else if t == STRUCT then "struct"
    else if t == MIDL_PRAGMA then "midl_pragma"
    else if t == TYPEDEF then "typedef"
    else if t == V1_ENUM then "v1_enum"
    else if t == LIBRARY then "library"
    else if t == IMPORTLIB then "importlib"
    else if t == PROPGET then "propget"
    else if t == PROPPUT then "propput"
    else if t == OLEAUTOMATION then "oleautomation"
    else if t == SIZE_IS then "size_is"
    else if t == RETVAL then "retval"
    else if t == ANNOTATION then "annotation"
    else if t == LOCAL then "local"
    else if t == UNIQUE then "unique"
    else if t == MODULE then "module"
    else if t == CONST then "const"
    else if t == LONG then "long"
    else if t == ATTR_STRING then "string"
    else if t == COCLASS then "coclass"
    else if t == IID_IS then "iid_is"
    else if t == HELPSTRING then "helpstring"
    else if t == DEFAULT then "default"
    else if t == IN then "in"
    else if t == OUT then "out"
    else if t == MAX_IS then "max_is"
    else if t == LPAREN then "("
    else if t == RPAREN then ")"
    else if t == LBRACK then "["
    else if t == RBRACK then "]"
    else if t == LBRACE then "{"
    else if t == RBRACE then "}"
    else if t == COMMA then ","
    else if t == COLON then ":"
    else if t == SEMICOLON then ";"
    else if t == DASH then "-"
    else if t == PTR then "*"
    else if t == EQUALS then "="
    else if t == B_OR then "|"
    else ""
  }

  /**
   * The entries `init` makes for the keyword band. In this function and the
   * two after it, each `|s| == N &&` test is implied by the string
   * comparison beside it; it is there so that the solver rules out most
   * entries by length before comparing characters.
   */
  function KeywordEntries(s: string): TokenType {
    if |s| == 6 && s == "import" then IMPORT
    else if |s| == 9 && s == "interface" then INTERFACE
    else if |s| == 9 && s == "cpp_quote" then CPP_QUOTE
    else if |s| == 11 && s == "midl_pragma" then MIDL_PRAGMA
    else if |s| == 4 && s == "enum" then ENUM
    else if |s| == 7 && s == "coclass" then COCLASS
    else if |s| == 7 && s == "typedef" then TYPEDEF
    else if |s| == 7 && s == "library" then LIBRARY
    else if |s| == 9 && s == "importlib" then IMPORTLIB
    else if |s| == 6 && s == "module" then MODULE
    else if |s| == 5 && s == "const" then CONST
    else if |s| == 4 && s == "long" then LONG
    else if |s| == 6 && s == "struct" then STRUCT
    else if |s| == 10 && s == "helpstring" then HELPSTRING
    else ILLEGAL
  }

  /** The entries `init` makes for the attribute band. */
  function AttributeEntries(s: string): TokenType {
    if |s| == 4 && s == "uuid" then UUID
    else if |s| == 6 && s == "object" then OBJECT
    else if |s| == 15 && s == "pointer_default" then POINTER_DEFAULT
    else if |s| == 4 && s == "lcid" then LCID
    else if |s| == 7 && s == "version" then VERSION
    else if |s| == 7 && s == "dllname" then DLLNAME
    else if |s| == 7 && s == "propget" then PROPGET
    else if |s| == 7 && s == "propput" then PROPPUT
    else if |s| == 6 && s == "retval" then RETVAL
    else if |s| == 7 && s == "size_is" then SIZE_IS
    else if |s| == 13 && s == "oleautomation" then OLEAUTOMATION
    else if |s| == 5 && s == "local" then LOCAL
    else if |s| == 6 && s == "string" then ATTR_STRING
    else if |s| == 7 && s == "default" then DEFAULT
    else if |s| == 7 && s == "v1_enum" then V1_ENUM
    else ILLEGAL
  }

  /** The entries `init` makes for the parameter-attribute band. */
  function ParamAttributeEntries(s: string): TokenType {
    if |s| == 2 && s == "in" then IN
    else if |s| == 3 && s == "out" then OUT
    else if |s| == 10 && s == "annotation" then ANNOTATION
    else if |s| == 6 && s == "max_is" then MAX_IS
    else if |s| == 6 && s == "unique" then UNIQUE
    else if |s| == 6 && s == "iid_is" then IID_IS
    else ILLEGAL
  }

  /**
   * Go's `keyword(s)`: the kind that `init` stores under `s` in
   * `tokenStringMap`, or ILLEGAL when `s` is not a key. The table is written
   * out band by band, as `init` fills it; `Init` below builds it the way the
   * source does and is proved to agree with it.
   */
  function Keyword(s: string): TokenType {
    var k := KeywordEntries(s);
    if k != ILLEGAL then k
    else
      var a := AttributeEntries(s);
      if a != ILLEGAL then a else ParamAttributeEntries(s)
  }

  /** Each keyword-band entry is filed under its kind's spelling. */
  lemma KeywordEntriesSound(s: string)
    ensures KeywordEntries(s) != ILLEGAL ==> IsKeyword(KeywordEntries(s)) && EnumName(KeywordEntries(s)) == s
  {
    if s == "import" { }
    else if s == "interface" { }
    else if s == "cpp_quote" { }
    else if s == "midl_pragma" { }
    else if s == "enum" { }
    else if s == "coclass" { }
    else if s == "typedef" { }
    else if s == "library" { }
    else if s == "importlib" { }
    else if s == "module" { }
    else if s == "const" { }
    else if s == "long" { }
    else if s == "struct" { }
    else if s == "helpstring" { }
  }

  /** Each attribute-band entry is filed under its kind's spelling. */
  lemma AttributeEntriesSound(s: string)
    ensures AttributeEntries(s) != ILLEGAL ==> IsAttribute(AttributeEntries(s)) && EnumName(AttributeEntries(s)) == s
  {
    if s == "uuid" { }
    else if s == "object" { }
    else if s == "pointer_default" { }
    else if s == "lcid" { }
    else if s == "version" { }
    else if s == "dllname" { }
    else if s == "propget" { }
    else if s == "propput" { }
    else if s == "retval" { }
    else if s == "size_is" { }
    else if s == "oleautomation" { }
    else if s == "local" { }
    else if s == "string" { }
    else if s == "default" { }
    else if s == "v1_enum" { }
  }

  /** Each parameter-attribute-band entry is filed under its kind's spelling. */
  lemma ParamAttributeEntriesSound(s: string)
    ensures ParamAttributeEntries(s) != ILLEGAL ==> IsParamAttribute(ParamAttributeEntries(s)) && EnumName(ParamAttributeEntries(s)) == s
  {
    if s == "in" { }
    else if s == "out" { }
    else if s == "annotation" { }
    else if s == "max_is" { }
    else if s == "unique" { }
    else if s == "iid_is" { }
  }

  /** Whatever `keyword(s)` returns besides ILLEGAL lies inside one of the three bands and is spelled `s`. */
  lemma KeywordSound(s: string)
    ensures Keyword(s) != ILLEGAL ==> IsLookupKind(Keyword(s)) && EnumName(Keyword(s)) == s
  {
    KeywordEntriesSound(s);
    AttributeEntriesSound(s);
    ParamAttributeEntriesSound(s);
  }

  /** Every keyword is found under its spelling in the keyword band. */
  lemma KeywordEntriesComplete(t: TokenType)
    requires IsKeyword(t)
    ensures KeywordEntries(EnumName(t)) == t
  {
    if t == IMPORT { }
    else if t == INTERFACE { }
    else if t == CPP_QUOTE { }
    else if t == MIDL_PRAGMA { }
    else if t == ENUM { }
    else if t == COCLASS { }
    else if t == TYPEDEF { }
    else if t == LIBRARY { }
    else if t == IMPORTLIB { }
    else if t == MODULE { }
    else if t == CONST { }
    else if t == LONG { }
    else if t == STRUCT { }
    else if t == HELPSTRING { }
  }

  /** Every attribute is found under its spelling in the attribute band, and not in the keyword band. */
  lemma AttributeEntriesComplete(t: TokenType)
    requires IsAttribute(t)
    ensures KeywordEntries(EnumName(t)) == ILLEGAL && AttributeEntries(EnumName(t)) == t
  {
    if t == UUID { }
    else if t == OBJECT { }
    else if t == POINTER_DEFAULT { }
    else if t == LCID { }
    else if t == VERSION { }
    else if t == DLLNAME { }
    else if t == PROPGET { }
    else if t == PROPPUT { }
    else if t == RETVAL { }
    else if t == SIZE_IS { }
    else if t == OLEAUTOMATION { }
    else if t == LOCAL { }
    else if t == ATTR_STRING { }
    else if t == DEFAULT { }
    else if t == V1_ENUM { }
  }

  /** Every parameter attribute is found under its spelling in its own band, and in neither earlier band. */
  lemma ParamAttributeEntriesComplete(t: TokenType)
    requires IsParamAttribute(t)
    ensures KeywordEntries(EnumName(t)) == ILLEGAL && AttributeEntries(EnumName(t)) == ILLEGAL
    ensures ParamAttributeEntries(EnumName(t)) == t
  {
    if t == IN { }
    else if t == OUT { }
    else if t == ANNOTATION { }
    else if t == MAX_IS { }
    else if t == UNIQUE { }
    else if t == IID_IS { }
  }

  /** Round trip through the table: each spelling in the three bands maps back to its kind. */
  lemma KeywordRoundTrip(t: TokenType)
    requires IsLookupKind(t)
    ensures Keyword(EnumName(t)) == t
  {
    if IsKeyword(t) {
      KeywordEntriesComplete(t);
    } else if IsAttribute(t) {
      AttributeEntriesComplete(t);
    } else {
      ParamAttributeEntriesComplete(t);
    }
  }

  /** `keyword(s)` returns `t` exactly when `t` lies inside one of the three bands and is spelled `s`. */
  lemma KeywordIff(s: string, t: TokenType)
    ensures (t != ILLEGAL && Keyword(s) == t) <==> (IsLookupKind(t) && EnumName(t) == s)
  {
    KeywordSound(s);
    if IsLookupKind(t) && EnumName(t) == s {
      KeywordRoundTrip(t);
    }
  }

  /** "string" is the attribute ATTR_STRING; "STRING", the literal kind's spelling, is not a key. */
  lemma StringIsAttribute()
    ensures Keyword("string") == ATTR_STRING && Keyword("STRING") == ILLEGAL
  {
    KeywordRoundTrip(ATTR_STRING);
    OtherSpellingsNotLooked(STRING);
  }

  /** "helpstring" is found in the keyword band, "default" and "v1_enum" in the attribute band. */
  lemma BandPlacement()
    ensures IsKeyword(Keyword("helpstring")) && IsAttribute(Keyword("default")) && IsAttribute(Keyword("v1_enum"))
  {
    KeywordRoundTrip(HELPSTRING);
    KeywordRoundTrip(DEFAULT);
    KeywordRoundTrip(V1_ENUM);
  }

  /** A spelling made of lower-case letters, digits and underscores, starting with a letter. */
  predicate IsWord(w: string) {
    && |w| > 0 && 'a' <= w[0] <= 'z'
    && forall ch :: ch in w ==> 'a' <= ch <= 'z' || '0' <= ch <= '9' || ch == '_'
  }

  /** Every keyword, attribute and parameter attribute is spelled as a word. */
  lemma SpellingIsWord(t: TokenType)
    requires IsLookupKind(t)
    ensures IsWord(EnumName(t))
  {
    if IsKeyword(t) {
      KeywordSpellingIsWord(t);
    } else if IsAttribute(t) {
      AttributeSpellingIsWord(t);
    }
  }

  lemma KeywordSpellingIsWord(t: TokenType)
    requires IsKeyword(t)
    ensures IsWord(EnumName(t))
  {
  }

  lemma AttributeSpellingIsWord(t: TokenType)
    requires IsAttribute(t)
    ensures IsWord(EnumName(t))
  {
  }

  /** The other spellings ("IDENT", "(", "-", ...) are empty or start with something other than a lower-case letter. */
  lemma OtherSpellingIsNotWord(t: TokenType)
    requires !IsLookupKind(t)
    ensures EnumName(t) == [] || !('a' <= EnumName(t)[0] <= 'z')
    ensures '\t' !in EnumName(t)
  {
  }

  /** Literal and operator spellings such as "IDENT", "(" and "-" are not keys of the table. */
  lemma OtherSpellingsNotLooked(t: TokenType)
    requires !IsLookupKind(t)
    ensures Keyword(EnumName(t)) == ILLEGAL
  {
    var k := Keyword(EnumName(t));
    KeywordSound(EnumName(t));
    OtherSpellingIsNotWord(t);
    if k != ILLEGAL {
      SpellingIsWord(k);
    }
  }

  /** No spelling contains a tab, so the rendering of a token can be split at its first tab. */
  lemma SpellingHasNoTab(t: TokenType)
    ensures '\t' !in EnumName(t)
  {
    if IsLookupKind(t) {
      SpellingIsWord(t);
    } else {
      OtherSpellingIsNotWord(t);
    }
  }

  /** The kinds form disjoint bands in ascending order, each strictly between its two markers. */
  lemma BandsAscending(a: TokenType, b: TokenType)
    ensures IsLiteral(a) && IsOperator(b) ==> a < b
    ensures IsOperator(a) && IsKeyword(b) ==> a < b
    ensures IsKeyword(a) && IsAttribute(b) ==> a < b
    ensures IsAttribute(a) && IsParamAttribute(b) ==> a < b
  {
  }

  /** The table `init` builds: the spellings `Keyword` recognises, each mapped to its kind. */
  ghost predicate IsKeywordTable(m: map<string, TokenType>) {
    && (forall s :: s in m <==> Keyword(s) != ILLEGAL)
    && (forall s :: s in m ==> m[s] == Keyword(s))
  }

  /** Go's `keyword`: the kind a spelling has in the table, or ILLEGAL when it has none. */
  function KeywordIn(m: map<string, TokenType>, s: string): TokenType {
    if s in m then m[s] else ILLEGAL
  }

  /** Looking a spelling up in the table `init` built is `Keyword`. */
  lemma KeywordInTable(m: map<string, TokenType>, s: string)
    requires IsKeywordTable(m)
    ensures KeywordIn(m, s) == Keyword(s)
  {
  }

  /** What `Init` has built once the kinds below `hi` are entered. */
  ghost predicate FilledBelow(m: map<string, TokenType>, hi: TokenType) {
    && (forall t :: IsLookupKind(t) && t < hi ==> EnumName(t) in m && m[EnumName(t)] == t)
    && (forall s :: s in m ==> Keyword(s) != ILLEGAL && Keyword(s) < hi && m[s] == Keyword(s))
  }

  /** One step of `init`: entering the next lookup kind keeps the table consistent. */
  lemma FilledStep(m: map<string, TokenType>, i: TokenType)
    requires FilledBelow(m, i) && IsLookupKind(i)
    ensures FilledBelow(m[EnumName(i) := i], i + 1)
  {
    KeywordRoundTrip(i);
    var m' := m[EnumName(i) := i];
    forall t | IsLookupKind(t) && t < i + 1
      ensures EnumName(t) in m' && m'[EnumName(t)] == t
    {
      if t < i {
        assert Keyword(EnumName(t)) == t;
      }
    }
  }

  /** After the last band, the table holds exactly the spellings `keyword` recognises. */
  lemma FilledComplete(m: map<string, TokenType>)
    requires FilledBelow(m, param_attr_end)
    ensures forall s :: s in m <==> Keyword(s) != ILLEGAL
    ensures forall s :: s in m ==> m[s] == Keyword(s)
  {
    forall s | Keyword(s) != ILLEGAL
      ensures s in m
    {
      KeywordSound(s);
    }
  }

  /**
   * Go's `init`: fills the string-to-kind table with three loops over the
   * keyword, attribute and parameter-attribute bands. The table it builds is
   * exactly the one `Keyword` looks up.
   */
  method Init() returns (tokenStringMap: map<string, TokenType>)
    ensures IsKeywordTable(tokenStringMap)
  {
    tokenStringMap := map[];
    for i := keyword_beg + 1 to keyword_end
      invariant FilledBelow(tokenStringMap, i)
    {
      FilledStep(tokenStringMap, i);
      tokenStringMap := tokenStringMap[EnumName(i) := i];
    }
    for i := attr_beg + 1 to attr_end
      invariant FilledBelow(tokenStringMap, i)
    {
      FilledStep(tokenStringMap, i);
      tokenStringMap := tokenStringMap[EnumName(i) := i];
    }
    for i := param_attr_beg + 1 to param_attr_end
      invariant FilledBelow(tokenStringMap, i)
    {
      FilledStep(tokenStringMap, i);
      tokenStringMap := tokenStringMap[EnumName(i) := i];
    }
    FilledComplete(tokenStringMap);
  }

  /** A token: its kind and its text. The source position is never set by the scanner and is left out. */
  datatype Token = Token(kind: TokenType, val: string) {

    /** Go's `Token.String`: the kind's spelling, two tabs, then the value in square brackets. */
    function String(): string {
      EnumName(kind) + "\t\t[" + val + "]"
    }
  }

  /** Reads a rendered token back: the spelling is everything before the first tab. */
  function SplitRendered(r: string): Option<(string, string)> {
    var i := FirstFrom(r, 0, (ch: char) => ch == '\t');
    if i + 4 <= |r| && r[i..i + 3] == "\t\t[" && r[|r| - 1] == ']'
    then Some((r[..i], r[i + 3..|r| - 1]))
    else None
  }

  /** Rendering loses nothing: the spelling and the value are recovered from `String()`. */
  lemma RenderRoundTrip(tok: Token)
    ensures SplitRendered(tok.String()) == Some((EnumName(tok.kind), tok.val))
  {
    var name := EnumName(tok.kind);
    var r := tok.String();
    SpellingHasNoTab(tok.kind);
    assert r[..|name|] == name;
    assert r[|name|..|name| + 3] == "\t\t[";
    assert forall k :: 0 <= k < |name| ==> r[k] == name[k];
    FirstFromIs(r, 0, (ch: char) => ch == '\t', |name|);
    assert r[|name| + 3..|r| - 1] == tok.val;
  }
}

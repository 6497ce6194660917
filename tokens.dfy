/** Token categories of the sJava lexer, their recognizers and the token record.

    `TokenType` in the source is an ordered table of (pattern, captures-value)
    pairs. Here each pattern is a `Pattern` value and `MatchEnd` is a hand-written
    prefix recognizer with the meaning of the Java regex run with `lookingAt` from
    a given position (character classes `\w`, `\d` and `\s` are the ASCII ones). */
module Tokens {
  import opened Wrappers

  /** Every token kind the front end refers to. The first 43 are the lexer's
      categories, in declaration order; `Equals`, `Final`, `Double` and `String`
      are referred to by the statement classifier, the semantic tables and the
      parser but have no recognizer, so the lexer never produces them. */
  datatype TokenKind =
    // single-character symbols
    | LBrace | RBrace | LParen | RParen | LBoxParen | RBoxParen | Dot | Comma | Semicolon
    | Plus | Minus | Times | Divider | And | Or | Lt | Gt | Eq | Not
    // keywords
    | Class | Constructor | Function | Method | Field | Static | Var | Int | Char | Boolean
    | Void | True | False | Null | This | Let | Do | If | Else | While | Return
    // value-carrying categories
    | IntegerConstant | StringConstant | Id
    // kinds without a recognizer
    | Equals | Final | Double | String

  /** What has to follow a keyword for it to match. */
  datatype Follow =
    | NoWordChar     // `(?!\w)`, and `\b` after a keyword (all keywords end in a word character)
    | ParenOrSpace   // `(?:(?=\()|(?=\s))`
    | Anything       // no boundary check at all

  datatype Pattern =
    | Symbol(c: char)
    | Keyword(word: string, follow: Follow)
    | IntegerLiteral   // `-?\d++(?!\.)`
    | StringLiteral    // `"[^"\\',]*"`
    | Identifier       // `(?:_\w+)|(?:[a-zA-Z]\w*)`
    | NoPattern

  /** The number of lexer categories. */
  const CategoryCount := 43

  /** The category at position `i` of the declaration order, the order in which
      the lexer tries them: the 19 single-character symbols, the keywords, then
      the integer and string constants, and the identifier last. Exactly the
      last three keep their text. */
  function Category(i: nat): (k: TokenKind)
    requires i < CategoryCount
    ensures !PatternOf(k).NoPattern?
    ensures PatternOf(k).Symbol? <==> i < 19
    ensures PatternOf(k).Keyword? <==> 19 <= i < 40
    ensures CapturesValue(k) <==> i >= 40
    ensures k == IntegerConstant <==> i == 40
    ensures k == Id <==> i == 42
  {
    if i < 19 then SymbolCategory(i)
    else if i < 40 then KeywordCategory(i - 19)
    else if i == 40 then IntegerConstant
    else if i == 41 then StringConstant
    else Id
  }

  function SymbolCategory(i: nat): (k: TokenKind)
    requires i < 19
    ensures PatternOf(k).Symbol?
  {
    match i
    case 0 => LBrace
    case 1 => RBrace
    case 2 => LParen
    case 3 => RParen
    case 4 => LBoxParen
    case 5 => RBoxParen
    case 6 => Dot
    case 7 => Comma
    case 8 => Semicolon
    case 9 => Plus
    case 10 => Minus
    case 11 => Times
    case 12 => Divider
    case 13 => And
    case 14 => Or
    case 15 => Lt
    case 16 => Gt
    case 17 => Eq
    case _ => Not
  }

  function KeywordCategory(i: nat): (k: TokenKind)
    requires i < 21
    ensures PatternOf(k).Keyword?
  {
    match i
    case 0 => Class
    case 1 => Constructor
    case 2 => Function
    case 3 => Method
    case 4 => Field
    case 5 => Static
    case 6 => Var
    case 7 => Int
    case 8 => Char
    case 9 => Boolean
    case 10 => Void
    case 11 => True
    case 12 => False
    case 13 => Null
    case 14 => This
    case 15 => Let
    case 16 => Do
    case 17 => If
    case 18 => Else
    case 19 => While
    case _ => Return
  }

  /** Every keyword starts with a letter, and every symbol category is found at
      its character's position. */
  lemma CategoryPatterns(i: nat)
    requires i < CategoryCount
    ensures var p := PatternOf(Category(i));
      (p.Keyword? ==> |p.word| > 0 && IsLetter(p.word[0]))
      && (p.Symbol? ==> SymbolRank(p.c) == i)
  {
  }

  /** The position of a category in the declaration order (its ordinal), or -1
      for the kinds that are not lexer categories. */
  function Rank(k: TokenKind): (i: int)
    ensures 0 <= i ==> i < CategoryCount && Category(i) == k
    ensures i < 0 <==> PatternOf(k).NoPattern?
  {
    if PatternOf(k).Symbol? then SymbolOrdinal(k)
    else if PatternOf(k).Keyword? then 19 + KeywordOrdinal(k)
    else if k == IntegerConstant then 40
    else if k == StringConstant then 41
    else if k == Id then 42
    else -1
  }

  /** The position of a symbol category among the symbols, or -1. */
  function SymbolOrdinal(k: TokenKind): (i: int)
    ensures i < 19 && (0 <= i <==> PatternOf(k).Symbol?) && (0 <= i ==> SymbolCategory(i) == k)
  {
    match k
    case LBrace => 0
    case RBrace => 1
    case LParen => 2
    case RParen => 3
    case LBoxParen => 4
    case RBoxParen => 5
    case Dot => 6
    case Comma => 7
    case Semicolon => 8
    case Plus => 9
    case Minus => 10
    case Times => 11
    case Divider => 12
    case And => 13
    case Or => 14
    case Lt => 15
    case Gt => 16
    case Eq => 17
    case Not => 18
    case _ => -1
  }

  /** The position of a keyword category among the keywords, or -1. */
  function KeywordOrdinal(k: TokenKind): (i: int)
    ensures i < 21 && (0 <= i <==> PatternOf(k).Keyword?) && (0 <= i ==> KeywordCategory(i) == k)
  {
    match k
    case Class => 0
    case Constructor => 1
    case Function => 2
    case Method => 3
    case Field => 4
    case Static => 5
    case Var => 6
    case Int => 7
    case Char => 8
    case Boolean => 9
    case Void => 10
    case True => 11
    case False => 12
    case Null => 13
    case This => 14
    case Let => 15
    case Do => 16
    case If => 17
    case Else => 18
    case While => 19
    case Return => 20
    case _ => -1
  }

  /** The position of the symbol category for a character, or -1 when the
      character is not one of the 19 symbols. */
  function SymbolRank(c: char): (i: int)
  {
    match c
    case '{' => 0
    case '}' => 1
    case '(' => 2
    case ')' => 3
    case '[' => 4
    case ']' => 5
    case '.' => 6
    case ',' => 7
    case ';' => 8
    case '+' => 9
    case '-' => 10
    case '*' => 11
    case '\\' => 12
    case '&' => 13
    case '|' => 14
    case '<' => 15
    case '>' => 16
    case '=' => 17
    case '~' => 18
    case _ => -1
  }

  function PatternOf(k: TokenKind): Pattern {
    match k
    case LBrace => Symbol('{')
    case RBrace => Symbol('}')
    case LParen => Symbol('(')
    case RParen => Symbol(')')
    case LBoxParen => Symbol('[')
    case RBoxParen => Symbol(']')
    case Dot => Symbol('.')
    case Comma => Symbol(',')
    case Semicolon => Symbol(';')
    case Plus => Symbol('+')
    case Minus => Symbol('-')
    case Times => Symbol('*')
    case Divider => Symbol('\\')
    case And => Symbol('&')
    case Or => Symbol('|')
    case Lt => Symbol('<')
    case Gt => Symbol('>')
    case Eq => Symbol('=')
    case Not => Symbol('~')
    case Class => Keyword("class", NoWordChar)
    case Constructor => Keyword("constructor", NoWordChar)
    case Function => Keyword("function", NoWordChar)
    case Method => Keyword("method", NoWordChar)
    case Field => Keyword("field", NoWordChar)
    case Static => Keyword("static", NoWordChar)
    case Var => Keyword("var", NoWordChar)
    case Int => Keyword("int", NoWordChar)
    case Char => Keyword("char", NoWordChar)
    case Boolean => Keyword("boolean", NoWordChar)
    case Void => Keyword("void", NoWordChar)
    case True => Keyword("true", NoWordChar)
    case False => Keyword("false", NoWordChar)
    case Null => Keyword("null", NoWordChar)
    case This => Keyword("this", NoWordChar)
    case Let => Keyword("let", NoWordChar)
    case Do => Keyword("do", NoWordChar)
    case If => Keyword("if", ParenOrSpace)
    case Else => Keyword("else", NoWordChar)
    case While => Keyword("while", ParenOrSpace)
    case Return => Keyword("return", Anything)
    case IntegerConstant => IntegerLiteral
    case StringConstant => StringLiteral
    case Id => Identifier
    case Equals => NoPattern
    case Final => NoPattern
    case Double => NoPattern
    case String => NoPattern
  }

  /** The `isTokenValueExpected` flag: whether a token of this kind keeps its text. */
  predicate CapturesValue(k: TokenKind) {
    k == IntegerConstant || k == StringConstant || k == Id
  }

  /** An immutable token: its kind and, for value-carrying kinds, the matched text. */
  datatype Token = Token(kind: TokenKind, value: Option<string>)

  /** `SymbolRank` finds the symbol category of a character. */
  lemma SymbolRankInverse(c: char)
    ensures SymbolRank(c) >= 0 ==> SymbolRank(c) < 19 && PatternOf(Category(SymbolRank(c))) == Symbol(c)
  {
  }

  // ---- character classes -------------------------------------------------

  /** `\w` */
  predicate IsWordChar(c: char) {
    'a' <= c <= 'z' || 'A' <= c <= 'Z' || '0' <= c <= '9' || c == '_'
  }

  /** `\d` */
  predicate IsDigit(c: char) {
    '0' <= c <= '9'
  }

  /** `[a-zA-Z]` */
  predicate IsLetter(c: char) {
    'a' <= c <= 'z' || 'A' <= c <= 'Z'
  }

  /** `\s` */
  predicate IsRegexSpace(c: char) {
    c == ' ' || c == '\t' || c == '\n' || c == '\U{000B}' || c == '\U{000C}' || c == '\r'
  }

  /** The characters `Character.isWhitespace` accepts: the space, line and paragraph
      separators other than the non-breaking ones, and the control characters
      U+0009..U+000D and U+001C..U+001F. */
  predicate IsJavaWhitespace(c: char) {
    ('\t' <= c <= '\r') || ('\U{001C}' <= c <= ' ')
    || c == '\U{1680}' || ('\U{2000}' <= c <= '\U{2006}') || ('\U{2008}' <= c <= '\U{200A}')
    || c == '\U{2028}' || c == '\U{2029}' || c == '\U{205F}' || c == '\U{3000}'
  }

  /** Characters the regex `.` does not match. */
  predicate IsLineTerminator(c: char) {
    c == '\n' || c == '\r' || c == '\U{0085}' || c == '\U{2028}' || c == '\U{2029}'
  }

  /** Characters `[^"\\',]` does not match. */
  predicate IsStringDelimiterOrForbidden(c: char) {
    c == '"' || c == '\\' || c == '\'' || c == ','
  }

  // ---- recognizers ---------------------------------------------------------

  /** End of the longest run of characters of a class starting at `i`. */
  function RunEnd(line: string, i: nat, inClass: char -> bool): (e: nat)
    requires i <= |line|
    ensures i <= e <= |line|
    ensures forall j :: i <= j < e ==> inClass(line[j])
    ensures e == |line| || !inClass(line[e])
    decreases |line| - i
  {
    if i < |line| && inClass(line[i]) then RunEnd(line, i + 1, inClass) else i
  }

  predicate StartsWithAt(line: string, pos: nat, word: string) {
    pos + |word| <= |line| && line[pos..pos + |word|] == word
  }

  predicate FollowHolds(line: string, e: nat, f: Follow)
    requires e <= |line|
  {
    match f
    case NoWordChar => e == |line| || !IsWordChar(line[e])
    case ParenOrSpace => e < |line| && (line[e] == '(' || IsRegexSpace(line[e]))
    case Anything => true
  }

  /** `-?\d++(?!\.)`: the possessive run cannot give back digits, so the match
      fails outright when the run is followed by a dot. Without the sign the
      pattern cannot match at a `-`, so dropping the sign never helps. */
  function IntegerEnd(line: string, pos: nat): Option<nat>
    requires pos <= |line|
  {
    var start := if pos < |line| && line[pos] == '-' then pos + 1 else pos;
    var e := RunEnd(line, start, IsDigit);
    if start < e && (e == |line| || line[e] != '.') then Some(e) else None
  }

  /** `"[^"\\',]*"` */
  function StringEnd(line: string, pos: nat): Option<nat>
    requires pos <= |line|
  {
    if pos < |line| && line[pos] == '"' then
      var e := RunEnd(line, pos + 1, c => !IsStringDelimiterOrForbidden(c));
      if e < |line| && line[e] == '"' then Some(e + 1) else None
    else None
  }

  /** `(?:_\w+)|(?:[a-zA-Z]\w*)` */
  function IdentifierEnd(line: string, pos: nat): Option<nat>
    requires pos <= |line|
  {
    if pos < |line| && line[pos] == '_' then
      var e := RunEnd(line, pos + 1, IsWordChar);
      if pos + 1 < e then Some(e) else None
    else if pos < |line| && IsLetter(line[pos]) then
      Some(RunEnd(line, pos + 1, IsWordChar))
    else None
  }

  /** Where a match of pattern `p` anchored at `pos` ends, if there is one.
      Every match consumes at least one character. */
  function MatchEnd(p: Pattern, line: string, pos: nat): (r: Option<nat>)
    requires pos <= |line|
    ensures r.Some? ==> pos < r.value <= |line|
  {
    match p
    case Symbol(c) => if pos < |line| && line[pos] == c then Some(pos + 1) else None
    case Keyword(w, f) =>
      if |w| > 0 && StartsWithAt(line, pos, w) && FollowHolds(line, pos + |w|, f)
      then Some(pos + |w|) else None
    case IntegerLiteral => IntegerEnd(line, pos)
    case StringLiteral => StringEnd(line, pos)
    case Identifier => IdentifierEnd(line, pos)
    case NoPattern => None
  }

  // ---- properties of the category table ----------------------------------

  /** A keyword other than `return` never matches when a word character follows
      it (so `intx` is not `int`); `if` and `while` match only before `(` or
      white space. */
  lemma KeywordBoundary(k: TokenKind, line: string, pos: nat)
    requires pos <= |line| && PatternOf(k).Keyword? && k != Return
    requires MatchEnd(PatternOf(k), line, pos).Some?
    ensures var e := MatchEnd(PatternOf(k), line, pos).value;
      (e == |line| || !IsWordChar(line[e]))
      && (k == If || k == While ==> e < |line| && (line[e] == '(' || IsRegexSpace(line[e])))
  {
  }

  /** `return` has no boundary check: it matches the front of `returned`. */
  lemma ReturnMatchesPrefix()
    ensures MatchEnd(PatternOf(Return), "returned", 0) == Some(6)
    ensures MatchEnd(PatternOf(Int), "intx", 0) == None
  {
    assert "returned"[0..6] == "return";
  }

  /** An integer match is an optional `-` and a maximal digit run that is not
      followed by a dot; conversely every such run matches. */
  lemma {:induction false} IntegerMatch(line: string, pos: nat, e: nat)
    requires pos <= |line|
    ensures IntegerEnd(line, pos) == Some(e) <==>
      var start := if pos < |line| && line[pos] == '-' then pos + 1 else pos;
      start < e <= |line|
      && (forall j :: start <= j < e ==> IsDigit(line[j]))
      && (e == |line| || (!IsDigit(line[e]) && line[e] != '.'))
  {
    var start := if pos < |line| && line[pos] == '-' then pos + 1 else pos;
    var run := RunEnd(line, start, IsDigit);
    if start < e <= |line| && (forall j :: start <= j < e ==> IsDigit(line[j]))
      && (e == |line| || !IsDigit(line[e]))
    {
    }
  }

  /** A string constant is a double quote, text without `"`, `\`, `'` or `,`,
      and a closing double quote. */
  lemma StringMatch(line: string, pos: nat, e: nat)
    requires pos <= |line|
    ensures StringEnd(line, pos) == Some(e) <==>
      pos + 2 <= e <= |line| && line[pos] == '"' && line[e - 1] == '"'
      && forall j :: pos < j < e - 1 ==> !IsStringDelimiterOrForbidden(line[j])
  {
    if pos + 2 <= e <= |line| && line[pos] == '"' && line[e - 1] == '"'
      && forall j :: pos < j < e - 1 ==> !IsStringDelimiterOrForbidden(line[j])
    {
      var run := RunEnd(line, pos + 1, c => !IsStringDelimiterOrForbidden(c));
    }
  }

  /** An identifier starts with a letter, or with `_` and at least one more word
      character, and runs to the end of the word; it never starts with a digit,
      and a lone `_` is not one. */
  lemma IdentifierMatch(line: string, pos: nat, e: nat)
    requires pos <= |line|
    ensures IdentifierEnd(line, pos) == Some(e) <==>
      pos < e <= |line|
      && (IsLetter(line[pos]) || (line[pos] == '_' && pos + 2 <= e))
      && (forall j :: pos <= j < e ==> IsWordChar(line[j]))
      && (e == |line| || !IsWordChar(line[e]))
    ensures IdentifierEnd(line, pos).Some? ==> !IsDigit(line[pos])
  {
    if pos < e <= |line|
      && (IsLetter(line[pos]) || (line[pos] == '_' && pos + 2 <= e))
      && (forall j :: pos <= j < e ==> IsWordChar(line[j]))
      && (e == |line| || !IsWordChar(line[e]))
    {
      var run := RunEnd(line, pos + 1, IsWordChar);
    }
  }
}

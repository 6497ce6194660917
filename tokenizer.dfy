/** The line tokenizer: a cursor over one line that skips white space and, at
    each position, produces a token of the first category (in declaration order)
    whose pattern matches there.

    `Lex` is the token stream a line yields, as a value; the `Tokenizer` class
    advances its `position` in place and is proved to hand out exactly that
    stream. */
module Lexing {
  import opened Wrappers
  import opened Tokens
  import opened Errors

  /** The tokens a line yields, in order, and whether the tokenizer fails with
      `UnknownToken` when asked for the token after the last of them. Because the
      tokenizer is lazy, the failure is only raised when that token is requested. */
  datatype TokenStream = TokenStream(tokens: seq<Token>, failsAfter: bool)

  /** `^//.+` matched against the whole line. */
  predicate IsComment(line: string)
    ensures IsComment(line) ==> |line| >= 3 && line[..2] == "//"
  {
    |line| >= 3 && line[0] == '/' && line[1] == '/'
    && forall j :: 2 <= j < |line| ==> !IsLineTerminator(line[j])
  }

  /** The first position at or after `pos` that is not white space. */
  function SkipWhitespaceFrom(line: string, pos: nat): (p: nat)
    requires pos <= |line|
    ensures pos <= p <= |line|
    ensures forall j :: pos <= j < p ==> IsJavaWhitespace(line[j])
    ensures p == |line| || !IsJavaWhitespace(line[p])
  {
    RunEnd(line, pos, IsJavaWhitespace)
  }

  /** The position in the declaration order of the first category at or after `i` whose
      pattern matches at `pos`. */
  function FirstMatchFrom(line: string, pos: nat, i: nat): (r: Option<nat>)
    requires pos <= |line| && i <= CategoryCount
    ensures r.Some? ==> (i <= r.value < CategoryCount && MatchEnd(PatternOf(Category(r.value)), line, pos).Some?)
    ensures forall j :: i <= j < CategoryCount && (r.None? || j < r.value) ==>
      MatchEnd(PatternOf(Category(j)), line, pos).None?
    decreases CategoryCount - i
  {
    if i == CategoryCount then None
    else if MatchEnd(PatternOf(Category(i)), line, pos).Some? then Some(i)
    else FirstMatchFrom(line, pos, i + 1)
  }

  /** The token for a match of category `k` over `line[start..end]`. */
  function MakeToken(line: string, start: nat, end: nat, k: TokenKind): (t: Token)
    requires start <= end <= |line|
  {
    if CapturesValue(k) then Token(k, Some(line[start..end])) else Token(k, None)
  }

  /** The stream from `pos`, which is not white space. */
  function LexFrom(line: string, pos: nat): (s: TokenStream)
    requires pos <= |line|
    ensures |s.tokens| <= |line| - pos
    ensures forall t :: t in s.tokens ==> !PatternOf(t.kind).NoPattern? && (t.value.Some? <==> CapturesValue(t.kind))
    decreases |line| - pos
  {
    if pos == |line| then TokenStream([], false)
    else match FirstMatchFrom(line, pos, 0)
      case None => TokenStream([], true)
      case Some(i) =>
        var e := MatchEnd(PatternOf(Category(i)), line, pos).value;
        var rest := LexFrom(line, SkipWhitespaceFrom(line, e));
        TokenStream([MakeToken(line, pos, e, Category(i))] + rest.tokens, rest.failsAfter)
  }

  /** The stream of a whole line: nothing for a comment line, otherwise the
      tokens after the leading white space. */
  function Lex(line: string): (s: TokenStream)
    ensures IsComment(line) ==> s == TokenStream([], false)
    ensures |s.tokens| <= |line|
    ensures forall t :: t in s.tokens ==> !PatternOf(t.kind).NoPattern? && (t.value.Some? <==> CapturesValue(t.kind))
  {
    if IsComment(line) then TokenStream([], false) else LexFrom(line, SkipWhitespaceFrom(line, 0))
  }

  /** `validateMethodName`: a routine name may not start with `_`. */
  function ValidateMethodName(name: string): (o: Outcome<Error>)
    ensures o.Fail? <==> |name| > 0 && name[0] == '_'
    ensures o.Fail? ==> o.error == UnknownToken
  {
    if |name| > 0 && name[0] == '_' then Fail(UnknownToken) else Pass
  }

  /** From a position that is not white space, the stream is empty (and does not
      fail) exactly when the line is exhausted. */
  lemma LexFromExhausted(line: string, pos: nat)
    requires pos <= |line|
    ensures var s := LexFrom(line, pos); (s.tokens == [] && !s.failsAfter) <==> pos == |line|
  {
  }

  /** The category chosen at `pos` comes no later than any category that matches there. */
  lemma FirstMatchNoLater(line: string, pos: nat, j: nat)
    requires pos <= |line| && j < CategoryCount
    requires MatchEnd(PatternOf(Category(j)), line, pos).Some?
    ensures FirstMatchFrom(line, pos, 0).Some? && FirstMatchFrom(line, pos, 0).value <= j
  {
  }

  /** A symbol character always becomes its own one-character token, whatever
      follows it: `-7` starts with `-`, and `&&` is two `&` tokens. */
  lemma SymbolLexesAlone(line: string, pos: nat)
    requires pos < |line| && SymbolRank(line[pos]) >= 0
    ensures FirstMatchFrom(line, pos, 0) == Some(SymbolRank(line[pos]))
    ensures PatternOf(Category(SymbolRank(line[pos]))) == Symbol(line[pos])
    ensures MatchEnd(Symbol(line[pos]), line, pos) == Some(pos + 1)
  {
    var r := SymbolRank(line[pos]);
    SymbolRankInverse(line[pos]);
    FirstMatchNoLater(line, pos, r);
    var w := FirstMatchFrom(line, pos, 0).value;
    CategoryPatterns(w);
  }

  /** No symbol category matches at a character that is not a symbol. */
  lemma NoSymbolMatch(line: string, pos: nat, j: nat)
    requires pos < |line| && SymbolRank(line[pos]) < 0 && j < 19
    ensures MatchEnd(PatternOf(Category(j)), line, pos).None?
  {
    CategoryPatterns(j);
  }

  lemma NotStartsWithAt(line: string, pos: nat, w: string)
    requires pos < |line| && |w| > 0 && line[pos] != w[0]
    ensures !StartsWithAt(line, pos, w)
  {
    if pos + |w| <= |line| {
      assert line[pos..pos + |w|][0] == line[pos];
    }
  }

  /** No keyword matches at a character that is not a letter. */
  lemma NoKeywordMatch(line: string, pos: nat, j: nat)
    requires pos < |line| && !IsLetter(line[pos]) && 19 <= j < 40
    ensures MatchEnd(PatternOf(Category(j)), line, pos).None?
  {
    CategoryPatterns(j);
    NotStartsWithAt(line, pos, PatternOf(Category(j)).word);
  }

  /** Categories before `i` that do not match can be skipped. */
  lemma {:induction false} FirstMatchSkip(line: string, pos: nat, i: nat)
    requires pos <= |line| && i <= CategoryCount
    requires forall j :: 0 <= j < i ==> MatchEnd(PatternOf(Category(j)), line, pos).None?
    ensures FirstMatchFrom(line, pos, 0) == FirstMatchFrom(line, pos, i)
  {
    if i > 0 {
      FirstMatchSkip(line, pos, i - 1);
    }
  }

  /** Neither a symbol nor a keyword can match at a character that is neither. */
  lemma SkipSymbolsAndKeywords(line: string, pos: nat)
    requires pos < |line| && SymbolRank(line[pos]) < 0 && !IsLetter(line[pos])
    ensures FirstMatchFrom(line, pos, 0) == FirstMatchFrom(line, pos, 40)
  {
    forall j | 0 <= j < 40
      ensures MatchEnd(PatternOf(Category(j)), line, pos).None?
    {
      if j < 19 { NoSymbolMatch(line, pos, j); } else { NoKeywordMatch(line, pos, j); }
    }
    FirstMatchSkip(line, pos, 40);
  }

  /** No symbol can match at a letter. */
  lemma SkipSymbols(line: string, pos: nat)
    requires pos < |line| && SymbolRank(line[pos]) < 0
    ensures FirstMatchFrom(line, pos, 0) == FirstMatchFrom(line, pos, 19)
  {
    forall j | 0 <= j < 19
      ensures MatchEnd(PatternOf(Category(j)), line, pos).None?
    {
      NoSymbolMatch(line, pos, j);
    }
    FirstMatchSkip(line, pos, 19);
  }

  /** At a digit the only category that can match is the integer constant; when
      it does not (as in `7.2`), the tokenizer fails there. */
  lemma DigitLexing(line: string, pos: nat)
    requires pos < |line| && IsDigit(line[pos])
    ensures FirstMatchFrom(line, pos, 0) == if IntegerEnd(line, pos).Some? then Some(40) else None
  {
    SkipSymbolsAndKeywords(line, pos);
    DigitTail(line, pos);
  }

  lemma DigitTail(line: string, pos: nat)
    requires pos < |line| && IsDigit(line[pos])
    ensures FirstMatchFrom(line, pos, 40) == if IntegerEnd(line, pos).Some? then Some(40) else None
  {
    assert MatchEnd(PatternOf(Category(42)), line, pos) == IdentifierEnd(line, pos) == None;
    assert FirstMatchFrom(line, pos, 42) == None;
    assert MatchEnd(PatternOf(Category(41)), line, pos) == StringEnd(line, pos) == None;
    assert MatchEnd(PatternOf(Category(40)), line, pos) == IntegerEnd(line, pos);
  }

  /** Where a keyword matches, some keyword (the first in declaration order that
      matches) wins over the identifier category: `int` is `INT`, not `ID`. */
  lemma KeywordBeatsIdentifier(line: string, pos: nat, j: nat)
    requires pos <= |line| && 19 <= j < 40
    requires MatchEnd(PatternOf(Category(j)), line, pos).Some?
    ensures FirstMatchFrom(line, pos, 0).Some?
    ensures PatternOf(Category(FirstMatchFrom(line, pos, 0).value)).Keyword?
  {
    FirstMatchNoLater(line, pos, j);
    KeywordStartsWithLetter(line, pos, j);
    SkipSymbols(line, pos);
  }

  lemma KeywordStartsWithLetter(line: string, pos: nat, j: nat)
    requires pos <= |line| && 19 <= j < 40
    requires MatchEnd(PatternOf(Category(j)), line, pos).Some?
    ensures pos < |line| && IsLetter(line[pos]) && SymbolRank(line[pos]) < 0
  {
    CategoryPatterns(j);
    var w := PatternOf(Category(j)).word;
    assert line[pos..pos + |w|][0] == line[pos];
  }

  /** An integer token whose text is all digits. */
  ghost predicate Unsigned(t: Token) {
    t.kind == IntegerConstant ==> t.value.Some? && |t.value.value| > 0 && forall c :: c in t.value.value ==> IsDigit(c)
  }

  /** Because `-` is tried before the integer category, an integer token the
      tokenizer produces never carries a sign: its text is all digits. */
  lemma {:induction false} LexedIntegersUnsigned(line: string, pos: nat)
    requires pos <= |line|
    ensures forall t :: t in LexFrom(line, pos).tokens ==> Unsigned(t)
    decreases |line| - pos
  {
    if pos < |line| && FirstMatchFrom(line, pos, 0).Some? {
      var i := FirstMatchFrom(line, pos, 0).value;
      var e := MatchEnd(PatternOf(Category(i)), line, pos).value;
      LexedIntegersUnsigned(line, SkipWhitespaceFrom(line, e));
      FirstTokenUnsigned(line, pos, i, e);
    }
  }

  /** The token from `pos` to `e`, of the category `i` chosen there, is unsigned. */
  lemma FirstTokenUnsigned(line: string, pos: nat, i: nat, e: nat)
    requires pos < |line| && FirstMatchFrom(line, pos, 0) == Some(i) && MatchEnd(PatternOf(Category(i)), line, pos) == Some(e)
    ensures e <= |line| && Unsigned(MakeToken(line, pos, e, Category(i)))
  {
    if Category(i) == IntegerConstant {
      if line[pos] == '-' {
        MinusIsNotInteger(line, pos);
      }
      IntegerRunDigits(line, pos, e);
    }
  }

  /** A `-` is always lexed as the minus symbol, never as the sign of an integer. */
  lemma MinusIsNotInteger(line: string, pos: nat)
    requires pos < |line| && line[pos] == '-'
    ensures FirstMatchFrom(line, pos, 0) == Some(10) && Category(10) == Minus
  {
    assert SymbolRank('-') == 10;
    SymbolLexesAlone(line, pos);
  }

  /** An integer match at a character other than `-` is a run of digits. */
  lemma IntegerRunDigits(line: string, pos: nat, e: nat)
    requires pos < |line| && line[pos] != '-' && MatchEnd(PatternOf(IntegerConstant), line, pos) == Some(e)
    ensures pos < e <= |line| && forall c :: c in line[pos..e] ==> IsDigit(c)
  {
    IntegerMatch(line, pos, e);
    var text := line[pos..e];
    forall c | c in text ensures IsDigit(c) {
      var j :| 0 <= j < |text| && text[j] == c;
      assert text[j] == line[pos + j];
    }
  }

  class Tokenizer {
    const line: string
    var position: nat

    ghost predicate Valid()
      reads this
    {
      position <= |line| && (position < |line| ==> !IsJavaWhitespace(line[position]))
    }

    /** The tokens still to be handed out. */
    ghost function Remaining(): TokenStream
      reads this
      requires Valid()
    {
      LexFrom(line, position)
    }

    constructor (line: string)
      ensures Valid() && this.line == line
      ensures Remaining() == Lex(line)
    {
      this.line := line;
      position := 0;
      new;
      if IsComment(line) {
        position := |line|;
      } else {
        SkipWhitespace();
      }
    }

    /** True iff another call to `Next` yields a token or fails. */
    function HasNext(): (b: bool)
      reads this
      requires Valid()
      ensures b <==> Remaining().tokens != [] || Remaining().failsAfter
    {
      LexFromExhausted(line, position);
      position < |line|
    }

    /** Hands out the next token of the stream, or fails with `UnknownToken` and
        exhausts the line when no category matches (or nothing is left). */
    method Next() returns (r: Result<Token, Error>)
      requires Valid()
      modifies this`position
      ensures Valid()
      ensures var s := old(Remaining());
        if s.tokens != [] then r == Success(s.tokens[0]) && Remaining() == TokenStream(s.tokens[1..], s.failsAfter)
        else r == Failure(UnknownToken) && position == |line| && Remaining() == TokenStream([], false)
    {
      r := GetTokenFromPosition();
      SkipWhitespace();
    }

    method GetTokenFromPosition() returns (r: Result<Token, Error>)
      requires position <= |line|
      modifies this`position
      ensures position <= |line|
      ensures match FirstMatchFrom(line, old(position), 0)
        case None => r == Failure(UnknownToken) && position == |line|
        case Some(i) =>
          position == MatchEnd(PatternOf(Category(i)), line, old(position)).value
          && r == Success(MakeToken(line, old(position), position, Category(i)))
    {
      var prevPosition := position;
      for i := 0 to CategoryCount
        invariant position == prevPosition
        invariant FirstMatchFrom(line, prevPosition, 0) == FirstMatchFrom(line, prevPosition, i)
      {
        var matched := Match(PatternOf(Category(i)));
        if matched {
          var t := CreateTokenForMatchedPattern(prevPosition, Category(i));
          return Success(t);
        }
      }
      position := |line|;
      return Failure(UnknownToken);
    }

    function CreateTokenForMatchedPattern(prevPosition: nat, k: TokenKind): (t: Token)
      reads this
      requires prevPosition <= position <= |line|
      ensures t.kind == k
      ensures t.value.Some? <==> CapturesValue(k)
      ensures t.value.Some? ==> t.value.value == line[prevPosition..position]
    {
      MakeToken(line, prevPosition, position, k)
    }

    method SkipWhitespace()
      requires position <= |line|
      modifies this`position
      ensures position == SkipWhitespaceFrom(line, old(position))
    {
      while position < |line| && IsJavaWhitespace(line[position])
        invariant old(position) <= position <= |line|
        invariant SkipWhitespaceFrom(line, old(position)) == SkipWhitespaceFrom(line, position)
        decreases |line| - position
      {
        position := position + 1;
      }
    }

    /** Runs `p` anchored at the current position and moves past the match. */
    method Match(p: Pattern) returns (matched: bool)
      requires position <= |line|
      modifies this`position
      ensures matched == MatchEnd(p, line, old(position)).Some?
      ensures position == if matched then MatchEnd(p, line, old(position)).value else old(position)
    {
      var e := MatchEnd(p, line, position);
      matched := e.Some?;
      if matched {
        position := e.value;
      }
    }
  }
}

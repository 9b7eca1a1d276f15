/**
  The SQL rewriter as the source runs it: one pass over the query text with four lexical-state
  flags, proved against the token-level specification and against the character-level one.
 */
module SqlScanner {
  import opened Basics
  import opened SqlRewrite
  import opened SqlCallText

  method SkipWhitespace(text: string, start: nat) returns (pos: nat)
    requires start <= |text|
    ensures pos == start + SpaceLength(text[start..])
    ensures Blank(text[start..pos]) && (pos < |text| ==> !BlankCharacter(text[pos]))
  {
    SkippedIsBlank(text[start..]);
    pos := start;
    while pos < |text| && IsSpace(text[pos])
      invariant start <= pos <= |text|
      invariant pos + SpaceLength(text[pos..]) == start + SpaceLength(text[start..])
    {
      assert text[pos..][1..] == text[pos + 1..];
      pos := pos + 1;
    }
    assert text[start..][..pos - start] == text[start..pos];
    if pos < |text| { SpaceIsBlank(text[pos]); }
  }

  method StartsWithFolded(value: string, prefix: string) returns (yes: bool)
    ensures yes <==> StartsWithIgnoringCase(value, prefix)
    ensures yes <==> |value| >= |prefix| && Spells(value[..|prefix|], prefix)
  {
    FoldedPrefix(value, prefix);
    hide Lower, Spells;
    if |value| < |prefix| { return false; }
    var i := 0;
    while i < |prefix|
      invariant 0 <= i <= |prefix|
      invariant forall j :: 0 <= j < i ==> Lower(value[j]) == Lower(prefix[j])
    {
      if Lower(value[i]) != Lower(prefix[i]) { return false; }
      i := i + 1;
    }
    return true;
  }

  /** `k` characters into the quoted `body`, with `literal` decoded so far. */
  ghost predicate Decoding(body: string, q: char, k: nat, literal: string) {
    && k <= |body|
    && Closes(body, q) == Closes(body[k..], q)
    && Decoded(body, q) == literal + Decoded(body[k..], q)
    && QuotedRest(body, q) == k + QuotedRest(body[k..], q)
  }

  lemma DecodingStep(body: string, q: char, k: nat, literal: string)
    requires k < |body| && Decoding(body, q, k, literal)
    ensures body[k] != q ==> Decoding(body, q, k + 1, literal + [body[k]])
    ensures body[k] == q && k + 1 < |body| && body[k + 1] == q ==> Decoding(body, q, k + 2, literal + [q])
    ensures body[k] == q && !(k + 1 < |body| && body[k + 1] == q) ==>
              Closes(body, q) && Decoded(body, q) == literal && QuotedRest(body, q) == k + 1
  {
    var s := body[k..];
    assert s[1..] == body[k + 1..];
    if body[k] != q {
      Append(literal, s[0], Decoded(s[1..], q));
    } else if k + 1 < |body| && body[k + 1] == q {
      assert s[2..] == body[k + 2..];
      Append(literal, q, Decoded(s[2..], q));
    } else {
      assert literal + "" == literal;
    }
  }

  lemma Append(a: string, c: char, b: string)
    ensures a + ([c] + b) == (a + [c]) + b
  {
  }

  lemma DecodingEnds(body: string, q: char, literal: string)
    requires Decoding(body, q, |body|, literal)
    ensures !Closes(body, q)
  {
    assert body[|body|..] == "";
  }

  /** Between `pos` and `n` stands the value `v` in quotes, and no further quote follows. */
  ghost predicate ReadsLiteral(text: string, pos: nat, v: string, n: nat) {
    pos < n <= |text| && text[pos..n] == "'" + Encoded(v, '\'') + "'" && (n < |text| ==> text[n] != '\'')
  }

  lemma LiteralReadings(text: string, pos: nat)
    ensures pos < |text| && text[pos] == '\'' && Closes(text[pos + 1..], '\'') ==>
              var body := text[pos + 1..];
              ReadsLiteral(text, pos, Decoded(body, '\''), pos + 1 + QuotedRest(body, '\''))
    ensures forall v, n: nat | ReadsLiteral(text, pos, v, n) :: text[pos] == '\'' && Closes(text[pos + 1..], '\'')
  {
    hide Encoded, Decoded, Closes, QuotedRest;
    if pos < |text| && text[pos] == '\'' && Closes(text[pos + 1..], '\'') {
      var body := text[pos + 1..];
      DecodedEncodes(body, '\'');
      var n := pos + 1 + QuotedRest(body, '\'');
      assert text[n..] == body[QuotedRest(body, '\'')..];
      assert text[pos..n] + text[n..] == "'" + Encoded(Decoded(body, '\''), '\'') + "'" + text[n..];
    }
    forall v, n: nat | ReadsLiteral(text, pos, v, n) ensures text[pos] == '\'' && Closes(text[pos + 1..], '\'') {
      EncodedLiteralReadsBack(v, '\'', text[n..]);
      assert text[pos] == text[pos..n][0];
      assert text[pos + 1..] == text[pos..n][1..] + text[n..];
      assert text[pos..n][1..] == Encoded(v, '\'') + ['\''];
    }
  }

  /** The value of the literal at `pos` and the index after it, or nothing. */
  method ParseSingleQuotedLiteral(text: string, pos: nat) returns (r: Option<(string, nat)>)
    ensures pos >= |text| || text[pos] != '\'' ==> r == None
    ensures pos < |text| && text[pos] == '\'' ==>
              (if Closes(text[pos + 1..], '\'')
               then r == Some((Decoded(text[pos + 1..], '\''), pos + 1 + QuotedRest(text[pos + 1..], '\'')))
               else r == None)
    ensures r.Some? ==> ReadsLiteral(text, pos, r.value.0, r.value.1)
    ensures r == None ==> forall v, n: nat :: !ReadsLiteral(text, pos, v, n)
  {
    LiteralReadings(text, pos);
    hide Closes, Decoded, QuotedRest, Decoding;
    if pos >= |text| || text[pos] != '\'' { return None; }
    var literal := "";
    var i := pos + 1;
    ghost var body := text[pos + 1..];
    assert Decoding(body, '\'', 0, literal) by { DecodingStarts(body, '\''); }
    while i < |text|
      invariant pos + 1 <= i <= |text|
      invariant Decoding(body, '\'', i - pos - 1, literal)
    {
      DecodingStep(body, '\'', i - pos - 1, literal);
      if text[i] == '\'' {
        if i + 1 < |text| && text[i + 1] == '\'' {
          literal := literal + ['\''];
          i := i + 2;
          continue;
        }
        return Some((literal, i + 1));
      }
      literal := literal + [text[i]];
      i := i + 1;
    }
    DecodingEnds(body, '\'', literal);
    return None;
  }

  lemma DecodingStarts(body: string, q: char)
    ensures Decoding(body, q, 0, "")
  {
    assert body[0..] == body;
  }

  method ShouldRewriteReadParquetCall(query: string, namePos: nat) returns (yes: bool)
    requires namePos + |NATIVE_FN| <= |query|
    ensures yes <==> ArgumentIsS3(query[namePos + |NATIVE_FN|..])
    ensures yes <==> CallFollows(query[namePos + |NATIVE_FN|..])
  {
    hide S3LiteralAt, SpaceLength, CallFollows, Blank, ArgumentIsS3;
    ghost var s := query[namePos + |NATIVE_FN|..];
    ArgumentIsSpelled(s);
    var pos := SkipWhitespace(query, namePos + |NATIVE_FN|);
    assert query[pos..] == SkipSpaces(s);
    ArgumentOpens(s);
    if pos >= |query| || query[pos] != '(' { return false; }
    assert query[pos + 1..] == SkipSpaces(s)[1..];
    yes := LiteralArgumentIsS3(query, pos + 1);
  }

  lemma ArgumentOpens(s: string)
    ensures var open := SkipSpaces(s);
            ArgumentIsS3(s) <==> open != "" && open[0] == '(' && S3LiteralAt(SkipSpaces(open[1..]))
  {
  }

  method LiteralArgumentIsS3(query: string, start: nat) returns (yes: bool)
    requires start <= |query|
    ensures yes <==> S3LiteralAt(SkipSpaces(query[start..]))
  {
    var pos := SkipWhitespace(query, start);
    ghost var arg := query[pos..];
    assert arg == SkipSpaces(query[start..]);
    assert arg != "" ==> arg[1..] == query[pos + 1..];
    var literal := ParseSingleQuotedLiteral(query, pos);
    if literal == None { return false; }
    yes := StartsWithFolded(literal.value.0, S3_PREFIX);
  }

  /** What the scanner is in the middle of. */
  datatype Mode = Between(qualified: bool) | InWord | InLine | InBlock | InLiteral | InName

  /** Characters of `s` that finish the token the scanner is in. */
  function Pending(mode: Mode, s: string): (n: nat)
    ensures n <= |s|
  {
    match mode
    case Between(_) => 0
    case InWord => WordLength(s)
    case InLine => LineRest(s)
    case InBlock => BlockRest(s)
    case InLiteral => QuotedRest(s, '\'')
    case InName => QuotedRest(s, '"')
  }

  /** The output still owed for the suffix `s`. */
  function Owed(mode: Mode, s: string): string {
    var n := Pending(mode, s);
    s[..n] + RewrittenTail(mode.Between? && mode.qualified, s[n..])
  }

  function AfterCode(c: char): Mode {
    if IsIdentifier(c) then InWord else Between(c == '.')
  }

  /** The four flags and the character before `i` as a mode. */
  function ModeAt(query: string, i: nat, line: bool, block: bool, single: bool, double: bool): Mode
    requires i <= |query|
  {
    if line then InLine else if block then InBlock else if single then InLiteral else if double then InName
    else if i == 0 then Between(false) else AfterCode(query[i - 1])
  }

  /** Consuming `k` characters of the current token leaves the rest of the debt. */
  lemma OwedShift(m: Mode, s: string, k: nat, m': Mode)
    requires k <= Pending(m, s) && Pending(m', s[k..]) == Pending(m, s) - k
    requires (m.Between? && m.qualified) == (m'.Between? && m'.qualified)
    ensures Owed(m, s) == s[..k] + Owed(m', s[k..])
  {
    hide RewrittenTail, Pending;
    var n := Pending(m, s);
    SplitAt(s, k, n, RewrittenTail(m.Between? && m.qualified, s[n..]));
  }

  lemma SplitAt(s: string, k: nat, n: nat, tail: string)
    requires k <= n <= |s|
    ensures s[n..] == s[k..][n - k..]
    ensures s[..n] + tail == s[..k] + (s[k..][..n - k] + tail)
  {
  }

  lemma OwedInLine(s: string)
    requires s != ""
    ensures Owed(InLine, s) == [s[0]] + Owed(if s[0] == '\n' then Between(false) else InLine, s[1..])
  {
    hide Owed, RewrittenTail;
    OwedShift(InLine, s, 1, if s[0] == '\n' then Between(false) else InLine);
  }

  lemma OwedInBlock(s: string)
    requires s != ""
    ensures if |s| >= 2 && s[0] == '*' && s[1] == '/'
            then Owed(InBlock, s) == "*/" + Owed(Between(false), s[2..])
            else Owed(InBlock, s) == [s[0]] + Owed(InBlock, s[1..])
  {
    hide Owed, RewrittenTail;
    if |s| >= 2 && s[0] == '*' && s[1] == '/' {
      OwedShift(InBlock, s, 2, Between(false));
    } else {
      OwedShift(InBlock, s, 1, InBlock);
    }
  }

  lemma OwedInQuotes(mode: Mode, q: char, s: string)
    requires s != "" && ((mode == InLiteral && q == '\'') || (mode == InName && q == '"'))
    ensures s[0] != q ==> Owed(mode, s) == [s[0]] + Owed(mode, s[1..])
    ensures |s| >= 2 && s[0] == q && s[1] == q ==> Owed(mode, s) == [q, q] + Owed(mode, s[2..])
    ensures s[0] == q && !(|s| >= 2 && s[1] == q) ==> Owed(mode, s) == [q] + Owed(Between(false), s[1..])
  {
    hide Owed, RewrittenTail;
    if s[0] != q {
      OwedShift(mode, s, 1, mode);
    } else if |s| >= 2 && s[1] == q {
      OwedShift(mode, s, 2, mode);
    } else {
      OwedShift(mode, s, 1, Between(false));
    }
  }

  lemma OwedOutsideWord(s: string)
    requires s == "" || !IsIdentifier(s[0])
    ensures Owed(InWord, s) == Owed(Between(false), s)
  {
  }

  lemma OwedInWord(s: string)
    requires s != "" && IsIdentifier(s[0])
    ensures Owed(InWord, s) == [s[0]] + Owed(InWord, s[1..])
  {
    hide Owed, RewrittenTail;
    OwedShift(InWord, s, 1, InWord);
  }

  function OpeningLength(kind: Kind): nat {
    if kind == LineComment || kind == BlockComment then 2 else 1
  }

  function Inside(kind: Kind): Mode {
    match kind
    case LineComment => InLine
    case BlockComment => InBlock
    case Literal => InLiteral
    case QuotedName => InName
    case _ => InWord
  }

  lemma OwedBetween(qualified: bool, s: string)
    ensures Owed(Between(qualified), s) == RewrittenTail(qualified, s)
  {
    assert s[0..] == s;
  }

  lemma OwedWhole(qualified: bool, s: string)
    requires s != "" && (qualified || !IsOwnedCall(Lex(s)))
    ensures Owed(Between(qualified), s) ==
            s[..FirstLength(s)] + RewrittenTail(First(s) == DOT, s[FirstLength(s)..])
  {
    hide RewrittenTail, Lex, IsOwnedCall;
    OwedBetween(qualified, s);
    RewrittenTailCons(qualified, s);
  }

  /** Outside a token the debt is the next token, unless it is renamed, and what follows it. */
  lemma OwedToken(qualified: bool, s: string, m: Mode, k: nat)
    requires s != "" && (qualified || !IsOwnedCall(Lex(s)))
    requires k <= FirstLength(s) && Pending(m, s[k..]) == FirstLength(s) - k
    requires (m.Between? && m.qualified) == (First(s) == DOT)
    ensures Owed(Between(qualified), s) == s[..k] + Owed(m, s[k..])
  {
    hide Lex, RewrittenTail, Pending, FirstLength, FirstKind, First, IsOwnedCall;
    var n := FirstLength(s);
    OwedWhole(qualified, s);
    SplitAt(s, k, n, RewrittenTail(First(s) == DOT, s[n..]));
  }

  /** The token that opens here: its opening characters, then the rest owed inside it. */
  lemma OwedOpening(qualified: bool, s: string)
    requires s != "" && FirstKind(s) != Word && FirstKind(s) != Symbol
    ensures var k := OpeningLength(FirstKind(s));
            |s| >= k && Owed(Between(qualified), s) == s[..k] + Owed(Inside(FirstKind(s)), s[k..])
  {
    LexCons(s);
    OwedToken(qualified, s, Inside(FirstKind(s)), OpeningLength(FirstKind(s)));
  }

  lemma OwedAtCall(s: string)
    requires s != "" && IsOwnedCall(Lex(s))
    ensures |s| >= |NATIVE_FN|
    ensures Owed(Between(false), s) == SIRIUS_FN + Owed(InWord, s[|NATIVE_FN|..])
  {
    var rest := s[FirstLength(s)..];
    OwedBetween(false, s);
    RewrittenTailCons(false, s);
    LexCons(s);
    OwedOutsideWord(rest);
    OwedBetween(false, rest);
  }

  lemma OwedAtCode(qualified: bool, s: string)
    requires s != "" && (FirstKind(s) == Word || FirstKind(s) == Symbol)
    requires qualified || !IsOwnedCall(Lex(s))
    ensures Owed(Between(qualified), s) == [s[0]] + Owed(AfterCode(s[0]), s[1..])
  {
    hide Lex, RewrittenTail;
    if FirstKind(s) == Symbol { SymbolFirst(s); }
    OwedToken(qualified, s, AfterCode(s[0]), 1);
  }

  /** A character of code that opens no token and no owned call is copied. */
  lemma OwedCodeCharacter(mode: Mode, s: string)
    requires s != "" && (FirstKind(s) == Word || FirstKind(s) == Symbol)
    requires mode == InWord || (mode.Between? && (mode.qualified || !IsOwnedCall(Lex(s))))
    ensures Owed(mode, s) == [s[0]] + Owed(AfterCode(s[0]), s[1..])
  {
    if mode.Between? {
      OwedAtCode(mode.qualified, s);
    } else if IsIdentifier(s[0]) {
      OwedInWord(s);
    } else {
      OwedOutsideWord(s);
      LexCons(s);
      OwedAtCode(false, s);
    }
  }

  /** A comment, literal or quoted name that opens here, from outside any of them. */
  lemma OwedFromCode(mode: Mode, s: string)
    requires s != "" && FirstKind(s) != Word && FirstKind(s) != Symbol
    requires mode == InWord || mode.Between?
    ensures var k := OpeningLength(FirstKind(s));
            |s| >= k && Owed(mode, s) == s[..k] + Owed(Inside(FirstKind(s)), s[k..])
  {
    if mode == InWord { OwedOutsideWord(s); }
    OwedOpening(mode.Between? && mode.qualified, s);
  }

  lemma OwedEnds(mode: Mode)
    ensures Owed(mode, "") == ""
  {
  }

  /** The scanner's test at `i`: left boundary, name, right boundary, argument. */
  method OwnedCallBeginsAt(query: string, i: nat) returns (yes: bool)
    requires i < |query|
    ensures yes <==> ModeAt(query, i, false, false, false, false) == Between(false) && IsOwnedCall(Lex(query[i..]))
    ensures yes <==> StandsFree(query, i) && BeginsOwned(query[i..])
    ensures yes ==> i + |NATIVE_FN| <= |query| && IsIdentifier(query[i + |NATIVE_FN| - 1])
  {
    ghost var s := query[i..];
    OwnedCallIsSpelled(s);
    hide BeginsOwned;
    if i != 0 { IdentifierIsWordCharacter(query[i - 1]); }
    CallAgrees(s);
    if i != 0 && (IsIdentifier(query[i - 1]) || query[i - 1] == '.') { return false; }
    var named := StartsWithFolded(query[i..], NATIVE_FN);
    if !named { return false; }
    NativeNameIsAWord(s);
    assert query[i + |NATIVE_FN| - 1] == s[|NATIVE_FN| - 1];
    if i + |NATIVE_FN| < |query| {
      assert query[i + |NATIVE_FN|] == s[|NATIVE_FN|];
      if IsIdentifier(query[i + |NATIVE_FN|]) { return false; }
    }
    assert s[|NATIVE_FN|..] == query[i + |NATIVE_FN|..];
    yes := ShouldRewriteReadParquetCall(query, i);
  }

  /** The scanner has written `out` for the first `i` characters and is in the middle of `mode`. */
  ghost predicate Progress(query: string, i: nat, out: string, mode: Mode) {
    i <= |query| && out + Owed(mode, query[i..]) == Rewritten(query)
  }

  lemma Advance(query: string, i: nat, out: string, mode: Mode, paid: string, k: nat, mode': Mode)
    requires Progress(query, i, out, mode) && k <= |query| - i
    requires Owed(mode, query[i..]) == paid + Owed(mode', query[i..][k..])
    ensures Progress(query, i + k, out + paid, mode')
  {
    hide Owed, Rewritten;
    assert query[i..][k..] == query[i + k..];
    assert out + (paid + Owed(mode', query[i + k..])) == (out + paid) + Owed(mode', query[i + k..]);
  }

  lemma ScanStarts(query: string)
    ensures Progress(query, 0, "", Between(false))
  {
    OwedBetween(false, query);
    assert query[0..] == query;
  }

  lemma ScanEnds(query: string, out: string, mode: Mode)
    requires Progress(query, |query|, out, mode)
    ensures out == Rewritten(query)
  {
    OwedEnds(mode);
    assert query[|query|..] == "";
  }

  lemma StepInLine(query: string, i: nat, out: string)
    requires i < |query| && Progress(query, i, out, InLine)
    ensures Progress(query, i + 1, out + [query[i]], if query[i] == '\n' then Between(false) else InLine)
  {
    hide Progress, Owed;
    OwedInLine(query[i..]);
    Advance(query, i, out, InLine, [query[i]], 1, if query[i] == '\n' then Between(false) else InLine);
  }

  lemma StepInBlock(query: string, i: nat, out: string)
    requires i < |query| && Progress(query, i, out, InBlock)
    ensures if query[i] == '*' && i + 1 < |query| && query[i + 1] == '/'
            then Progress(query, i + 2, out + [query[i]] + "/", Between(false))
            else Progress(query, i + 1, out + [query[i]], InBlock)
  {
    hide Progress, Owed;
    OwedInBlock(query[i..]);
    if query[i] == '*' && i + 1 < |query| && query[i + 1] == '/' {
      Advance(query, i, out, InBlock, "*/", 2, Between(false));
      assert out + "*/" == out + [query[i]] + "/";
    } else {
      Advance(query, i, out, InBlock, [query[i]], 1, InBlock);
    }
  }

  lemma StepInQuotes(query: string, i: nat, out: string, mode: Mode, q: char)
    requires i < |query| && Progress(query, i, out, mode)
    requires (mode == InLiteral && q == '\'') || (mode == InName && q == '"')
    ensures if query[i] != q then Progress(query, i + 1, out + [query[i]], mode)
            else if i + 1 < |query| && query[i + 1] == q then Progress(query, i + 2, out + [query[i]] + [q], mode)
            else Progress(query, i + 1, out + [query[i]], Between(false))
  {
    hide Progress, Owed;
    OwedInQuotes(mode, q, query[i..]);
    if query[i] != q {
      Advance(query, i, out, mode, [query[i]], 1, mode);
    } else if i + 1 < |query| && query[i + 1] == q {
      Advance(query, i, out, mode, [q, q], 2, mode);
      assert out + [q, q] == out + [query[i]] + [q];
    } else {
      Advance(query, i, out, mode, [q], 1, Between(false));
    }
  }

  lemma StepOpens(query: string, i: nat, out: string, mode: Mode)
    requires i < |query| && Progress(query, i, out, mode) && (mode == InWord || mode.Between?)
    requires FirstKind(query[i..]) != Word && FirstKind(query[i..]) != Symbol
    ensures var kind := FirstKind(query[i..]);
            var k := OpeningLength(kind);
            i + k <= |query| && Progress(query, i + k, out + query[i..i + k], Inside(kind))
  {
    hide Progress, Owed, FirstLength;
    var s := query[i..];
    OwedFromCode(mode, s);
    var k := OpeningLength(FirstKind(s));
    assert s[..k] == query[i..i + k];
    Advance(query, i, out, mode, s[..k], k, Inside(FirstKind(s)));
  }

  lemma StepOverCall(query: string, i: nat, out: string)
    requires i < |query| && Progress(query, i, out, Between(false)) && IsOwnedCall(Lex(query[i..]))
    ensures i + |NATIVE_FN| <= |query|
    ensures Progress(query, i + |NATIVE_FN|, out + SIRIUS_FN, InWord)
  {
    hide Progress, Owed, Lex, IsOwnedCall;
    OwedAtCall(query[i..]);
    Advance(query, i, out, Between(false), SIRIUS_FN, |NATIVE_FN|, InWord);
  }

  lemma StepOverCode(query: string, i: nat, out: string, mode: Mode)
    requires i < |query| && Progress(query, i, out, mode)
    requires FirstKind(query[i..]) == Word || FirstKind(query[i..]) == Symbol
    requires mode == InWord || (mode.Between? && (mode.qualified || !IsOwnedCall(Lex(query[i..]))))
    ensures Progress(query, i + 1, out + [query[i]], AfterCode(query[i]))
  {
    hide Progress, Owed, Lex, IsOwnedCall, FirstKind;
    OwedCodeCharacter(mode, query[i..]);
    Advance(query, i, out, mode, [query[i]], 1, AfterCode(query[i]));
  }

  lemma ScanTurn(query: string, i: nat, f: Flags)
    requires i < |query|
    ensures var (g, k) := ScanStep(f, query[i..]);
      i + k <= |query| && Scan(f, query[i..]) == Scan(g, query[i + k..])
  {
    var k := ScanStep(f, query[i..]).1;
    assert query[i..][k..] == query[i + k..];
  }

  /** The characters of a renamed call's name raise no flag. */
  lemma ScanOverCall(query: string, i: nat)
    requires i < |query| && IsOwnedCall(Lex(query[i..]))
    ensures i + |NATIVE_FN| <= |query|
    ensures Scan(NO_FLAG, query[i..]) == Scan(NO_FLAG, query[i + |NATIVE_FN|..])
  {
    hide Scan;
    var s := query[i..];
    LexCons(s);
    var name := First(s).text;
    WordsAreIdentifiers(s, 0);
    hide Lex, First;
    assert s == name + query[i + |NATIVE_FN|..] by { FirstSplits(s); }
    ScanWord(name, query[i + |NATIVE_FN|..]);
  }

  lemma FirstSplits(s: string)
    requires s != ""
    ensures s == First(s).text + s[|First(s).text|..]
  {
  }

  /** One pass over the query; the output is the specification's, for every query. */
  method RewriteSiriusOwnedRemoteParquetCalls(query: string) returns (rewritten: string, ghost flags: Flags)
    ensures rewritten == Rewritten(query)
    ensures rewritten == Spliced(query, 0)
    ensures flags == StateAfter(query)
  {
    RewriteIsSplice(query);
    hide Spliced;
    hide Lex, Rewritten, IsOwnedCall, Progress, Scan;
    rewritten := "";
    var inSingleQuote, inDoubleQuote, inLineComment, inBlockComment := false, false, false, false;
    var i := 0;
    ScanStarts(query);
    assert query[0..] == query;
    while i < |query|
      invariant 0 <= i <= |query|
      invariant inLineComment ==> !inBlockComment && !inSingleQuote && !inDoubleQuote
      invariant inBlockComment ==> !inSingleQuote && !inDoubleQuote
      invariant inSingleQuote ==> !inDoubleQuote
      invariant Progress(query, i, rewritten,
                         ModeAt(query, i, inLineComment, inBlockComment, inSingleQuote, inDoubleQuote))
      invariant StateAfter(query) ==
                Scan(Flags(inLineComment, inBlockComment, inSingleQuote, inDoubleQuote), query[i..])
    {
      var c := query[i];
      ScanTurn(query, i, Flags(inLineComment, inBlockComment, inSingleQuote, inDoubleQuote));
      if inLineComment {
        StepInLine(query, i, rewritten);
        rewritten := rewritten + [c];
        if c == '\n' { inLineComment := false; }
        i := i + 1;
        continue;
      }
      if inBlockComment {
        StepInBlock(query, i, rewritten);
        rewritten := rewritten + [c];
        if c == '*' && i + 1 < |query| && query[i + 1] == '/' {
          rewritten := rewritten + "/";
          i := i + 2;
          inBlockComment := false;
        } else {
          i := i + 1;
        }
        continue;
      }
      if inSingleQuote {
        StepInQuotes(query, i, rewritten, InLiteral, '\'');
        rewritten := rewritten + [c];
        if c == '\'' {
          if i + 1 < |query| && query[i + 1] == '\'' {
            rewritten := rewritten + ['\''];
            i := i + 2;
            continue;
          }
          inSingleQuote := false;
        }
        i := i + 1;
        continue;
      }
      if inDoubleQuote {
        StepInQuotes(query, i, rewritten, InName, '"');
        rewritten := rewritten + [c];
        if c == '"' {
          if i + 1 < |query| && query[i + 1] == '"' {
            rewritten := rewritten + ['"'];
            i := i + 2;
            continue;
          }
          inDoubleQuote := false;
        }
        i := i + 1;
        continue;
      }
      ghost var mode := ModeAt(query, i, false, false, false, false);
      if c == '-' && i + 1 < |query| && query[i + 1] == '-' {
        StepOpens(query, i, rewritten, mode);
        assert query[i..i + 2] == "--";
        rewritten := rewritten + "--";
        i := i + 2;
        inLineComment := true;
        continue;
      }
      if c == '/' && i + 1 < |query| && query[i + 1] == '*' {
        StepOpens(query, i, rewritten, mode);
        assert query[i..i + 2] == "/*";
        rewritten := rewritten + "/*";
        i := i + 2;
        inBlockComment := true;
        continue;
      }
      if c == '\'' {
        StepOpens(query, i, rewritten, mode);
        assert query[i..i + 1] == [c];
        rewritten := rewritten + [c];
        i := i + 1;
        inSingleQuote := true;
        continue;
      }
      if c == '"' {
        StepOpens(query, i, rewritten, mode);
        assert query[i..i + 1] == [c];
        rewritten := rewritten + [c];
        i := i + 1;
        inDoubleQuote := true;
        continue;
      }
      var owned := OwnedCallBeginsAt(query, i);
      if owned {
        StepOverCall(query, i, rewritten);
        ScanOverCall(query, i);
        rewritten := rewritten + SIRIUS_FN;
        i := i + |NATIVE_FN|;
        continue;
      }
      StepOverCode(query, i, rewritten, mode);
      rewritten := rewritten + [c];
      i := i + 1;
    }
    ScanEnds(query, rewritten, ModeAt(query, i, inLineComment, inBlockComment, inSingleQuote, inDoubleQuote));
    flags := Flags(inLineComment, inBlockComment, inSingleQuote, inDoubleQuote);
    assert Scan(flags, query[i..]) == flags by { ScanOfNothing(flags, query[i..]); }
  }

  /** Does the query hold a Sirius-owned call? Decided, as in the source, by whether a rewrite changes it. */
  method ReferencesSiriusOwnedS3Parquet(query: string) returns (yes: bool)
    ensures yes <==> exists k :: 0 <= k < |Lex(query)| && OwnedCallAt(false, Lex(query), k)
    ensures yes <==> ReferencesOwnedS3(query)
    ensures yes <==> exists i :: CallStartsAt(query, i)
  {
    ReferencesExactlyCalls(query);
    ReferencesExactlyOwnedCalls(query);
    var rewritten, _ := RewriteSiriusOwnedRemoteParquetCalls(query);
    return rewritten != query;
  }
}

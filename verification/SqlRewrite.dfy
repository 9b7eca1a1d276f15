/**
  The SQL rewriter, specified on tokens: `Lex` splits a text into tokens, `RewriteTokens` renames
  each Sirius-owned `read_parquet` call, `Print` concatenates; and on the four lexical-state flags.
 */
module SqlRewrite {
  const NATIVE_FN: string := "read_parquet"
  const SIRIUS_FN: string := "sirius_read_parquet"
  const S3_PREFIX: string := "s3://"

  // ---------------------------------------------------------------- characters

  predicate IsIdentifier(c: char) {
    'a' <= c <= 'z' || 'A' <= c <= 'Z' || '0' <= c <= '9' || c == '_'
  }

  /** The six characters `isspace` accepts in the C locale: tab to carriage return, and blank. */
  predicate IsSpace(c: char) {
    c == ' ' || 9 as char <= c <= 13 as char
  }

  function Lower(c: char): char {
    if 'A' <= c <= 'Z' then (c as int + 32) as char else c
  }

  /** The same letter in either case; any other character is only like itself. */
  predicate SameLetter(a: char, b: char) {
    || a == b
    || ('a' <= a <= 'z' && a as int == b as int + 32)
    || ('a' <= b <= 'z' && b as int == a as int + 32)
  }

  /** Folding tells characters apart exactly up to the case of a letter. */
  lemma FoldsExactlyCase(a: char, b: char)
    ensures Lower(a) == Lower(b) <==> SameLetter(a, b)
  {
  }

  predicate StartsWithIgnoringCase(value: string, prefix: string) {
    |value| >= |prefix| && forall i :: 0 <= i < |prefix| ==> Lower(value[i]) == Lower(prefix[i])
  }

  // -------------------------------------------------------------------- tokens

  datatype Kind = Word | Symbol | Literal | QuotedName | LineComment | BlockComment

  datatype Token = Token(kind: Kind, text: string)

  const DOT := Token(Symbol, ".")

  /** Length of the identifier run at the front of `s`. */
  function WordLength(s: string): (n: nat)
    ensures n <= |s|
    ensures forall i :: 0 <= i < n ==> IsIdentifier(s[i])
    ensures n < |s| ==> !IsIdentifier(s[n])
  {
    if s == "" || !IsIdentifier(s[0]) then 0 else 1 + WordLength(s[1..])
  }

  /** Length of the rest of a line comment: up to and including the newline, or to the end. */
  function LineRest(s: string): (n: nat)
    ensures n <= |s|
  {
    if s == "" then 0 else if s[0] == '\n' then 1 else 1 + LineRest(s[1..])
  }

  /** Length of the rest of a block comment: up to and including the closing mark, or to the end. */
  function BlockRest(s: string): (n: nat)
    ensures n <= |s|
  {
    if s == "" then 0
    else if s[0] == '*' && |s| >= 2 && s[1] == '/' then 2
    else 1 + BlockRest(s[1..])
  }

  /** Length of the rest of a quoted token; a doubled quote stands for one and does not close it. */
  function QuotedRest(s: string, q: char): (n: nat)
    ensures n <= |s|
  {
    if s == "" then 0
    else if s[0] != q then 1 + QuotedRest(s[1..], q)
    else if |s| >= 2 && s[1] == q then 2 + QuotedRest(s[2..], q)
    else 1
  }

  /** Is there a closing quote? */
  predicate Closes(s: string, q: char) {
    s != "" &&
    if s[0] != q then Closes(s[1..], q)
    else if |s| >= 2 && s[1] == q then Closes(s[2..], q)
    else true
  }

  /** The value between the quotes, with doubled quotes undone. */
  function Decoded(s: string, q: char): string {
    if s == "" then ""
    else if s[0] != q then [s[0]] + Decoded(s[1..], q)
    else if |s| >= 2 && s[1] == q then [q] + Decoded(s[2..], q)
    else ""
  }

  /** How SQL writes a value between quotes: each quote doubled. */
  function Encoded(v: string, q: char): string {
    if v == "" then "" else (if v[0] == q then [q, q] else [v[0]]) + Encoded(v[1..], q)
  }

  function FirstKind(s: string): Kind
    requires s != ""
  {
    if |s| >= 2 && s[0] == '-' && s[1] == '-' then LineComment
    else if |s| >= 2 && s[0] == '/' && s[1] == '*' then BlockComment
    else if s[0] == '\'' then Literal
    else if s[0] == '"' then QuotedName
    else if IsIdentifier(s[0]) then Word
    else Symbol
  }

  function FirstLength(s: string): (n: nat)
    requires s != ""
    ensures 1 <= n <= |s|
  {
    match FirstKind(s)
    case LineComment => 2 + LineRest(s[2..])
    case BlockComment => 2 + BlockRest(s[2..])
    case Literal => 1 + QuotedRest(s[1..], '\'')
    case QuotedName => 1 + QuotedRest(s[1..], '"')
    case Word => WordLength(s)
    case Symbol => 1
  }

  function First(s: string): Token
    requires s != ""
  {
    Token(FirstKind(s), s[..FirstLength(s)])
  }

  function Lex(s: string): seq<Token> {
    if s == "" then [] else [First(s)] + Lex(s[FirstLength(s)..])
  }

  function Print(ts: seq<Token>): string {
    if ts == [] then "" else ts[0].text + Print(ts[1..])
  }

  // ------------------------------------------------- token-level specification

  function DropSpaces(ts: seq<Token>): (r: seq<Token>)
    ensures |r| <= |ts|
  {
    if ts != [] && ts[0].kind == Symbol && |ts[0].text| == 1 && IsSpace(ts[0].text[0])
    then DropSpaces(ts[1..]) else ts
  }

  /** A terminated string literal whose value carries the s3 scheme. */
  predicate IsS3Literal(t: Token) {
    && t.kind == Literal
    && t.text != ""
    && Closes(t.text[1..], '\'')
    && StartsWithIgnoringCase(Decoded(t.text[1..], '\''), S3_PREFIX)
  }

  predicate OpensWithS3Literal(ts: seq<Token>) {
    var open := DropSpaces(ts);
    open != [] && open[0] == Token(Symbol, "(") &&
    var args := DropSpaces(open[1..]);
    args != [] && IsS3Literal(args[0])
  }

  predicate NamesNativeReader(t: Token) {
    t.kind == Word && |t.text| == |NATIVE_FN| && StartsWithIgnoringCase(t.text, NATIVE_FN)
  }

  /** The first of `ts` is the name of a call that Sirius owns, when it is not qualified. */
  predicate IsOwnedCall(ts: seq<Token>) {
    ts != [] && NamesNativeReader(ts[0]) && OpensWithS3Literal(ts[1..])
  }

  function RewriteTokens(qualified: bool, ts: seq<Token>): (r: seq<Token>)
    ensures |r| == |ts|
    decreases |ts|
  {
    if ts == [] then []
    else
      [if !qualified && IsOwnedCall(ts) then Token(Word, SIRIUS_FN) else ts[0]]
      + RewriteTokens(ts[0] == DOT, ts[1..])
  }

  function CallCount(qualified: bool, ts: seq<Token>): nat
    decreases |ts|
  {
    if ts == [] then 0
    else (if !qualified && IsOwnedCall(ts) then 1 else 0) + CallCount(ts[0] == DOT, ts[1..])
  }

  /** The whole specification: lex, rename the owned calls, print. */
  function Rewritten(query: string): string {
    Print(RewriteTokens(false, Lex(query)))
  }

  // ------------------------------------------------------------ facts of lexing

  lemma {:induction false} PrintLex(s: string)
    ensures Print(Lex(s)) == s
    decreases |s|
  {
    if s != "" {
      var rest := s[FirstLength(s)..];
      PrintLex(rest);
      LexCons(s);
      assert s == First(s).text + rest;
    }
  }

  lemma LexCons(s: string)
    requires s != ""
    ensures Lex(s) != [] && Lex(s)[0] == First(s) && Lex(s)[1..] == Lex(s[FirstLength(s)..])
  {
  }

  /** A quoted token's own text decides whether it is closed and what it means. */
  lemma {:induction false} QuotedTextSuffices(s: string, q: char)
    ensures Closes(s[..QuotedRest(s, q)], q) == Closes(s, q)
    ensures Decoded(s[..QuotedRest(s, q)], q) == Decoded(s, q)
    decreases |s|
  {
    var n := QuotedRest(s, q);
    var t := s[..n];
    if s != "" {
      if s[0] != q {
        QuotedTextSuffices(s[1..], q);
        assert t[1..] == s[1..][..n - 1];
      } else if |s| >= 2 && s[1] == q {
        QuotedTextSuffices(s[2..], q);
        assert t[2..] == s[2..][..n - 2];
      }
    }
  }

  /** Writing a value between quotes and lexing it back gives the value, closed, at that length. */
  lemma {:induction false} EncodedLiteralReadsBack(v: string, q: char, rest: string)
    requires rest == "" || rest[0] != q
    ensures Closes(Encoded(v, q) + [q] + rest, q)
    ensures Decoded(Encoded(v, q) + [q] + rest, q) == v
    ensures QuotedRest(Encoded(v, q) + [q] + rest, q) == |Encoded(v, q)| + 1
    decreases |v|
  {
    var s := Encoded(v, q) + [q] + rest;
    if v == "" {
      assert s == [q] + rest;
    } else {
      var tail := Encoded(v[1..], q) + [q] + rest;
      EncodedLiteralReadsBack(v[1..], q, rest);
      if v[0] == q {
        assert s == [q, q] + tail;
        assert s[2..] == tail;
      } else {
        assert s == [v[0]] + tail;
        assert s[1..] == tail;
      }
    }
  }

  function SpaceLength(s: string): (n: nat)
    ensures n <= |s|
    ensures forall i :: 0 <= i < n ==> IsSpace(s[i])
    ensures n < |s| ==> !IsSpace(s[n])
  {
    if s == "" || !IsSpace(s[0]) then 0 else 1 + SpaceLength(s[1..])
  }

  lemma SymbolFirst(s: string)
    requires s != "" && FirstKind(s) == Symbol
    ensures First(s) == Token(Symbol, [s[0]])
    ensures Lex(s) == [Token(Symbol, [s[0]])] + Lex(s[1..])
  {
  }

  lemma {:induction false} SpacesLexToSymbols(s: string)
    ensures DropSpaces(Lex(s)) == Lex(SkipSpaces(s))
    decreases |s|
  {
    if s == "" || !IsSpace(s[0]) {
      assert s[SpaceLength(s)..] == s;
      NoLeadingSpace(s);
    } else {
      SymbolFirst(s);
      SpacesLexToSymbols(s[1..]);
      assert Lex(s)[1..] == Lex(s[1..]);
      assert s[SpaceLength(s)..] == s[1..][SpaceLength(s[1..])..];
    }
  }

  lemma NoLeadingSpace(s: string)
    requires s == "" || !IsSpace(s[0])
    ensures DropSpaces(Lex(s)) == Lex(s)
  {
    if s != "" {
      LexCons(s);
      if FirstKind(s) == Symbol { SymbolFirst(s); }
    }
  }

  function SkipSpaces(s: string): string {
    s[SpaceLength(s)..]
  }

  /** A closed literal with the s3 scheme, read off the characters. */
  predicate S3LiteralAt(s: string) {
    && s != "" && s[0] == '\''
    && Closes(s[1..], '\'')
    && StartsWithIgnoringCase(Decoded(s[1..], '\''), S3_PREFIX)
  }

  /** What follows a name makes it an owned call, read off the characters. */
  predicate ArgumentIsS3(s: string) {
    var open := SkipSpaces(s);
    open != "" && open[0] == '(' && S3LiteralAt(SkipSpaces(open[1..]))
  }

  lemma LiteralTokenAgrees(s: string)
    requires s != "" && s[0] == '\''
    ensures IsS3Literal(First(s)) <==> S3LiteralAt(s)
  {
    QuotedTextSuffices(s[1..], '\'');
    assert First(s).text[1..] == s[1..][..QuotedRest(s[1..], '\'')];
  }

  lemma FirstSymbolIs(s: string, c: char)
    requires c != '-' && c != '/' && c != '\'' && c != '"' && !IsIdentifier(c)
    ensures (s != "" && s[0] == c) <==> (Lex(s) != [] && Lex(s)[0] == Token(Symbol, [c]))
    ensures s != "" && s[0] == c ==> Lex(s)[1..] == Lex(s[1..])
  {
    if s != "" {
      LexCons(s);
      if FirstKind(s) == Symbol { SymbolFirst(s); }
    }
  }

  lemma FirstLiteralIsS3(s: string)
    ensures (Lex(s) != [] && IsS3Literal(Lex(s)[0])) <==> S3LiteralAt(s)
  {
    if s != "" {
      LexCons(s);
      if s[0] == '\'' { LiteralTokenAgrees(s); }
    }
  }

  lemma ArgumentAgrees(s: string)
    ensures ArgumentIsS3(s) <==> OpensWithS3Literal(Lex(s))
  {
    SpacesLexToSymbols(s);
    var open := SkipSpaces(s);
    FirstSymbolIs(open, '(');
    if open != "" && open[0] == '(' {
      SpacesLexToSymbols(open[1..]);
      FirstLiteralIsS3(SkipSpaces(open[1..]));
    }
  }

  lemma NativeNameIsAWord(s: string)
    requires StartsWithIgnoringCase(s, NATIVE_FN)
    ensures forall i :: 0 <= i < |NATIVE_FN| ==> IsIdentifier(s[i])
    ensures FirstKind(s) == Word
  {
    var name := NATIVE_FN;
    assert forall i :: 0 <= i < |name| ==> 'a' <= name[i] <= 'z' || name[i] == '_';
    forall i | 0 <= i < |name| ensures IsIdentifier(s[i]) {
      assert Lower(s[i]) == Lower(name[i]);
    }
  }

  lemma WordLengthAtBoundary(s: string, n: nat)
    requires n <= |s| && forall i :: 0 <= i < n ==> IsIdentifier(s[i])
    ensures WordLength(s) == n <==> (|s| == n || !IsIdentifier(s[n]))
  {
  }

  /** Word-bounded by characters, as the scanner tests it, is word-bounded by tokens. */
  lemma NativeWordAgrees(s: string)
    requires s != ""
    ensures NamesNativeReader(First(s)) <==>
            && StartsWithIgnoringCase(s, NATIVE_FN)
            && (|s| == |NATIVE_FN| || !IsIdentifier(s[|NATIVE_FN|]))
  {
    var n := |NATIVE_FN|;
    if StartsWithIgnoringCase(s, NATIVE_FN) {
      NativeNameIsAWord(s);
      WordLengthAtBoundary(s, n);
      forall i | 0 <= i < n && WordLength(s) == n ensures First(s).text[i] == s[i] {}
    } else if NamesNativeReader(First(s)) {
      forall i | 0 <= i < n ensures Lower(s[i]) == Lower(NATIVE_FN[i]) {
        assert First(s).text[i] == s[i];
      }
    }
  }

  /** The scanner's test of a call, by characters, is the specification's, by tokens. */
  lemma CallAgrees(s: string)
    requires s != ""
    ensures IsOwnedCall(Lex(s)) <==>
            && StartsWithIgnoringCase(s, NATIVE_FN)
            && (|s| == |NATIVE_FN| || !IsIdentifier(s[|NATIVE_FN|]))
            && ArgumentIsS3(s[|NATIVE_FN|..])
  {
    LexCons(s);
    NativeWordAgrees(s);
    if NamesNativeReader(First(s)) {
      ArgumentAgrees(s[|NATIVE_FN|..]);
    }
  }

  // ----------------------------------------- the output lexes as it was rewritten

  /** `b` is empty, or starts as `a` does up to the choice of an identifier character. */
  predicate SameHead(a: string, b: string) {
    b != "" ==> a != "" && (a[0] == b[0] || (IsIdentifier(a[0]) && IsIdentifier(b[0])))
  }

  lemma {:induction false} LineRestStable(u: string, a: string, b: string)
    requires SameHead(a, b) && LineRest(u + a) == |u|
    ensures LineRest(u + b) == |u|
    decreases |u|
  {
    if u == "" {
      assert u + a == a && u + b == b;
    } else {
      assert (u + a)[1..] == u[1..] + a && (u + b)[1..] == u[1..] + b;
      if u[0] != '\n' { LineRestStable(u[1..], a, b); }
    }
  }

  lemma {:induction false} BlockRestStable(u: string, a: string, b: string)
    requires SameHead(a, b) && BlockRest(u + a) == |u|
    ensures BlockRest(u + b) == |u|
    decreases |u|
  {
    if u == "" {
      assert u + a == a && u + b == b;
    } else {
      assert (u + a)[1..] == u[1..] + a && (u + b)[1..] == u[1..] + b;
      if |u| == 1 {
        assert (u + a)[1..] == a;
      } else if !(u[0] == '*' && u[1] == '/') {
        BlockRestStable(u[1..], a, b);
      }
    }
  }

  lemma {:induction false} QuotedRestStable(u: string, a: string, b: string, q: char)
    requires !IsIdentifier(q) && SameHead(a, b) && QuotedRest(u + a, q) == |u|
    ensures QuotedRest(u + b, q) == |u|
    decreases |u|
  {
    if u == "" {
      assert u + a == a && u + b == b;
    } else {
      assert (u + a)[1..] == u[1..] + a && (u + b)[1..] == u[1..] + b;
      if u[0] != q {
        QuotedRestStable(u[1..], a, b, q);
      } else if |u| == 1 {
        assert a != "" ==> (u + a)[1] == a[0];
        assert b != "" ==> (u + b)[1] == b[0];
      } else if u[1] == q {
        assert (u + a)[2..] == u[2..] + a && (u + b)[2..] == u[2..] + b;
        QuotedRestStable(u[2..], a, b, q);
      }
    }
  }

  lemma WordLengthOf(u: string, a: string)
    requires forall i :: 0 <= i < |u| ==> IsIdentifier(u[i])
    requires a == "" || !IsIdentifier(a[0])
    ensures WordLength(u + a) == |u|
  {
    assert a != "" ==> (u + a)[|u|] == a[0];
  }

  lemma FirstKindStable(s: string, b: string)
    requires s != "" && SameHead(s[FirstLength(s)..], b)
    ensures FirstKind(First(s).text + b) == FirstKind(s)
  {
    hide LineRest, BlockRest, QuotedRest, WordLength;
    var n := FirstLength(s);
    var s' := s[..n] + b;
    assert s'[0] == s[0];
    if n == 1 {
      assert |s| > 1 ==> s[1] == s[n..][0];
      assert b != "" ==> s'[1] == b[0];
    } else {
      assert s'[1] == s[1];
    }
  }

  /** A token ends where it does because of its own text and the class of the next character. */
  lemma FirstStable(s: string, b: string)
    requires s != "" && SameHead(s[FirstLength(s)..], b)
    ensures var s' := First(s).text + b;
            FirstKind(s') == FirstKind(s) && FirstLength(s') == FirstLength(s)
  {
    FirstKindStable(s, b);
    var n := FirstLength(s);
    var u, a := s[..n], s[n..];
    match FirstKind(s) {
      case LineComment => CutBoth(s, n, 2, b); LineRestStable(u[2..], a, b);
      case BlockComment => CutBoth(s, n, 2, b); BlockRestStable(u[2..], a, b);
      case Literal => CutBoth(s, n, 1, b); QuotedRestStable(u[1..], a, b, '\'');
      case QuotedName => CutBoth(s, n, 1, b); QuotedRestStable(u[1..], a, b, '"');
      case Word => WordLengthOf(u, b);
      case Symbol =>
    }
  }

  lemma CutBoth(s: string, n: nat, k: nat, b: string)
    requires k <= n <= |s|
    ensures s[k..] == s[..n][k..] + s[n..]
    ensures (s[..n] + b)[k..] == s[..n][k..] + b
  {
  }

  /** The first token of `s` before any text that starts alike is still a token. */
  lemma LexGlue(s: string, tail: string)
    requires s != "" && SameHead(s[FirstLength(s)..], tail)
    ensures Lex(First(s).text + tail) == [First(s)] + Lex(tail)
    ensures SameHead(s, First(s).text + tail)
  {
    hide LineRest, BlockRest, QuotedRest, WordLength;
    FirstStable(s, tail);
    var n, s' := FirstLength(s), First(s).text + tail;
    assert s'[..n] == First(s).text && s'[n..] == tail;
    LexCons(s');
  }

  lemma SiriusNameIsAWord(b: string)
    requires b == "" || !IsIdentifier(b[0])
    ensures Lex(SIRIUS_FN + b) == [Token(Word, SIRIUS_FN)] + Lex(b)
  {
    var name: string := SIRIUS_FN;
    var s' := name + b;
    assert forall i :: 0 <= i < |name| ==> 'a' <= name[i] <= 'z' || name[i] == '_';
    WordLengthOf(name, b);
    assert s'[0] == name[0] == 's';
    assert s'[..|name|] == name && s'[|name|..] == b;
    LexCons(s');
    assert Lex(s') == [First(s')] + Lex(b);
  }

  function RewrittenTail(qualified: bool, s: string): string {
    Print(RewriteTokens(qualified, Lex(s)))
  }

  /** The rewritten text of a suffix: its first token, renamed or not, and then the rest. */
  lemma RewrittenTailCons(qualified: bool, s: string)
    requires s != ""
    ensures var rest := RewrittenTail(First(s) == DOT, s[FirstLength(s)..]);
            RewrittenTail(qualified, s) ==
            (if !qualified && IsOwnedCall(Lex(s)) then SIRIUS_FN else First(s).text) + rest
  {
    LexCons(s);
    var r := RewriteTokens(qualified, Lex(s));
    assert r[1..] == RewriteTokens(First(s) == DOT, Lex(s)[1..]);
  }

  lemma RewrittenTailHead(qualified: bool, s: string)
    ensures SameHead(s, RewrittenTail(qualified, s))
  {
    if s != "" {
      RewrittenTailCons(qualified, s);
      LexCons(s);
      assert First(s).text[0] == s[0];
      if IsOwnedCall(Lex(s)) { assert IsIdentifier(s[0]); }
    }
  }

  /** Lexing the output gives exactly the rewritten tokens: no token is split, joined or recast. */
  lemma {:induction false} RewrittenLexes(qualified: bool, s: string)
    ensures Lex(RewrittenTail(qualified, s)) == RewriteTokens(qualified, Lex(s))
    decreases |s|
  {
    if s != "" {
      var n := FirstLength(s);
      var tail := RewrittenTail(First(s) == DOT, s[n..]);
      RewrittenLexes(First(s) == DOT, s[n..]);
      RewrittenTailHead(First(s) == DOT, s[n..]);
      RewrittenTailCons(qualified, s);
      LexCons(s);
      if !qualified && IsOwnedCall(Lex(s)) {
        assert FirstKind(s) == Word;
        SiriusNameIsAWord(tail);
      } else {
        LexGlue(s, tail);
      }
    }
  }

  // ------------------------------------------------------------- main theorems

  /** Is the `k`-th token the name of a call to rename? `qualified` says what precedes the first. */
  predicate OwnedCallAt(qualified: bool, ts: seq<Token>, k: nat)
    requires k < |ts|
  {
    (if k == 0 then !qualified else ts[k - 1] != DOT) && IsOwnedCall(ts[k..])
  }

  lemma OwnedCallShift(qualified: bool, ts: seq<Token>, k: nat)
    requires 0 < k < |ts|
    ensures OwnedCallAt(qualified, ts, k) == OwnedCallAt(ts[0] == DOT, ts[1..], k - 1)
  {
    assert ts[1..][k - 1..] == ts[k..];
  }

  lemma {:induction false} RewriteTokensAt(qualified: bool, ts: seq<Token>, k: nat)
    requires k < |ts|
    ensures RewriteTokens(qualified, ts)[k] ==
            if OwnedCallAt(qualified, ts, k) then Token(Word, SIRIUS_FN) else ts[k]
    decreases k
  {
    if k == 0 {
      assert ts[0..] == ts;
    } else {
      RewriteTokensAt(ts[0] == DOT, ts[1..], k - 1);
      OwnedCallShift(qualified, ts, k);
    }
  }

  /**
    Token by token, the output is the input with the owned names replaced and nothing else
    changed; in particular comments, literals and quoted names keep their text and order.
   */
  lemma RewriteChangesOnlyOwnedNames(query: string)
    ensures var ins, outs := Lex(query), Lex(Rewritten(query));
            && |outs| == |ins|
            && (forall k :: 0 <= k < |ins| ==>
                  outs[k] == if OwnedCallAt(false, ins, k) then Token(Word, SIRIUS_FN) else ins[k])
            && (forall k :: 0 <= k < |ins| ==> outs[k].kind == ins[k].kind)
  {
    hide Lex, RewriteTokens, OpensWithS3Literal;
    RewrittenLexes(false, query);
    var ins := Lex(query);
    forall k | 0 <= k < |ins|
      ensures RewriteTokens(false, ins)[k] ==
              if OwnedCallAt(false, ins, k) then Token(Word, SIRIUS_FN) else ins[k]
    {
      RewriteTokensAt(false, ins, k);
    }
    assert forall k :: 0 <= k < |ins| && OwnedCallAt(false, ins, k) ==> ins[k..][0] == ins[k];
  }

  // ------------------------------------- the lexical state at every character position

  /** The scanner's four flags. */
  datatype Flags = Flags(line: bool, block: bool, single: bool, double: bool)

  const NO_FLAG := Flags(false, false, false, false)

  /** One turn of the scanner: the flags after it, and how many characters it takes. */
  function ScanStep(f: Flags, s: string): (r: (Flags, nat))
    requires s != ""
    ensures 1 <= r.1 <= |s|
  {
    if f.line then (f.(line := s[0] != '\n'), 1)
    else if f.block then
      if s[0] == '*' && |s| >= 2 && s[1] == '/' then (f.(block := false), 2) else (f, 1)
    else if f.single then
      if s[0] == '\'' && |s| >= 2 && s[1] == '\'' then (f, 2) else (f.(single := s[0] != '\''), 1)
    else if f.double then
      if s[0] == '"' && |s| >= 2 && s[1] == '"' then (f, 2) else (f.(double := s[0] != '"'), 1)
    else if |s| >= 2 && s[0] == '-' && s[1] == '-' then (f.(line := true), 2)
    else if |s| >= 2 && s[0] == '/' && s[1] == '*' then (f.(block := true), 2)
    else if s[0] == '\'' then (f.(single := true), 1)
    else if s[0] == '"' then (f.(double := true), 1)
    else (f, 1)
  }

  /** The flags after scanning the whole of `s`, starting with `f`. */
  function Scan(f: Flags, s: string): Flags
    decreases |s|
  {
    if s == "" then f else Scan(ScanStep(f, s).0, s[ScanStep(f, s).1..])
  }

  /** Which flag is up after the text `s`. */
  function StateAfter(s: string): Flags {
    Scan(NO_FLAG, s)
  }

  /** Which flag a token leaves up when the text ends with it. */
  function OpenAfter(t: Token): Flags {
    Scan(NO_FLAG, t.text)
  }

  lemma ScanOfNothing(f: Flags, s: string)
    requires s == ""
    ensures Scan(f, s) == f
  {
  }

  lemma {:induction false} ScanLine(u: string, a: string)
    requires LineRest(u + a) == |u| && a != ""
    ensures Scan(NO_FLAG.(line := true), u + a) == Scan(NO_FLAG, a)
    decreases |u|
  {
    assert u == "" ==> u + a == a;
    if u != "" {
      assert (u + a)[1..] == u[1..] + a;
      if u[0] != '\n' { ScanLine(u[1..], a); } else { assert u[1..] + a == a by { assert |u| == 1; } }
    }
  }

  lemma {:induction false} ScanBlock(u: string, a: string)
    requires BlockRest(u + a) == |u| && a != ""
    ensures Scan(NO_FLAG.(block := true), u + a) == Scan(NO_FLAG, a)
    decreases |u|
  {
    assert u == "" ==> u + a == a;
    if u != "" {
      assert (u + a)[1..] == u[1..] + a;
      if u[0] == '*' && |u + a| >= 2 && (u + a)[1] == '/' {
        assert (u + a)[2..] == a;
      } else {
        ScanBlock(u[1..], a);
      }
    }
  }

  lemma {:induction false} ScanQuoted(u: string, a: string, q: char, f: Flags)
    requires (q == '\'' && f == NO_FLAG.(single := true)) || (q == '"' && f == NO_FLAG.(double := true))
    requires QuotedRest(u + a, q) == |u| && a != ""
    ensures Scan(f, u + a) == Scan(NO_FLAG, a)
    decreases |u|
  {
    assert u == "" ==> u + a == a;
    if u != "" {
      assert (u + a)[1..] == u[1..] + a;
      if u[0] != q {
        ScanQuoted(u[1..], a, q, f);
      } else if |u + a| >= 2 && (u + a)[1] == q {
        assert (u + a)[2..] == u[2..] + a;
        ScanQuoted(u[2..], a, q, f);
      } else {
        assert u[1..] + a == a by { assert |u| == 1; }
      }
    }
  }

  lemma {:induction false} ScanWord(u: string, a: string)
    requires forall i :: 0 <= i < |u| ==> IsIdentifier(u[i])
    ensures Scan(NO_FLAG, u + a) == Scan(NO_FLAG, a)
    decreases |u|
  {
    if u == "" {
      assert u + a == a;
    } else {
      assert (u + a)[1..] == u[1..] + a;
      ScanWord(u[1..], a);
    }
  }

  /** A token with text behind it leaves no flag up. */
  lemma ScanToken(s: string)
    requires s != "" && FirstLength(s) < |s|
    ensures StateAfter(s) == StateAfter(s[FirstLength(s)..])
  {
    var n := FirstLength(s);
    var u, a := s[..n], s[n..];
    match FirstKind(s) {
      case LineComment => CutBoth(s, n, 2, a); ScanLine(u[2..], a);
      case BlockComment => CutBoth(s, n, 2, a); ScanBlock(u[2..], a);
      case Literal => CutBoth(s, n, 1, a); ScanQuoted(u[1..], a, '\'', NO_FLAG.(single := true));
      case QuotedName => CutBoth(s, n, 1, a); ScanQuoted(u[1..], a, '"', NO_FLAG.(double := true));
      case Word => assert s == u + a; ScanWord(u, a);
      case Symbol =>
    }
  }

  /** The state after a text is the state its last token leaves. */
  lemma {:induction false} StateOfTokens(s: string)
    ensures s != "" ==> Lex(s) != [] && StateAfter(s) == OpenAfter(Lex(s)[|Lex(s)| - 1])
    decreases |s|
  {
    if s != "" {
      LexCons(s);
      var n := FirstLength(s);
      if n < |s| {
        ScanToken(s);
        StateOfTokens(s[n..]);
      } else {
        assert s[..n] == s && s[n..] == "";
      }
    }
  }

  /** The text of the first `k` tokens and `n` characters of the next. */
  function Cut(ts: seq<Token>, k: nat, n: nat): string
    requires k < |ts| && n <= |ts[k].text|
  {
    Print(ts[..k]) + ts[k].text[..n]
  }

  lemma CutCons(t: Token, ts: seq<Token>, k: nat, n: nat)
    requires k < |ts| && n <= |ts[k].text|
    ensures Cut([t] + ts, k + 1, n) == t.text + Cut(ts, k, n)
  {
    assert ([t] + ts)[..k + 1] == [t] + ts[..k];
    assert ([t] + ts[..k])[1..] == ts[..k];
  }

  lemma CutFirst(s: string, n: nat)
    requires s != "" && n <= |First(s).text|
    ensures Cut(Lex(s), 0, n) == First(s).text[..n] && SameHead(s, First(s).text[..n])
  {
    LexCons(s);
    assert Lex(s)[..0] == [];
    assert Print([]) + First(s).text[..n] == First(s).text[..n];
    if n > 0 { assert First(s).text[..n][0] == s[0]; }
  }

  predicate CutLexes(s: string, ts: seq<Token>, k: nat, n: nat)
    requires k < |ts| && n <= |ts[k].text|
  {
    Lex(Cut(ts, k, n)) == ts[..k] + Lex(ts[k].text[..n]) && SameHead(s, Cut(ts, k, n))
  }

  lemma CutLexesOneMore(s: string, ts: seq<Token>, k: nat, n: nat)
    requires s != "" && k < |ts| && n <= |ts[k].text| && CutLexes(s[FirstLength(s)..], ts, k, n)
    ensures CutLexes(s, [First(s)] + ts, k + 1, n)
  {
    hide Cut, Lex, First, FirstLength;
    var t := First(s);
    CutCons(t, ts, k, n);
    LexGlue(s, Cut(ts, k, n));
    var piece := Lex(ts[k].text[..n]);
    assert ([t] + ts)[..k + 1] == [t] + ts[..k];
    assert [t] + (ts[..k] + piece) == [t] + ts[..k] + piece;
  }

  lemma CutLexesFirst(s: string, n: nat)
    requires s != "" && n <= |First(s).text|
    ensures Lex(s) != [] && Lex(s)[0] == First(s) && CutLexes(s, Lex(s), 0, n)
  {
    LexCons(s);
    CutFirst(s, n);
    hide Lex, Cut, First;
    assert Lex(s)[..0] + Lex(First(s).text[..n]) == Lex(First(s).text[..n]);
  }

  /** Cut anywhere in a token, a text lexes into the tokens before it and those of the piece. */
  lemma {:induction false} LexCut(s: string, k: nat, n: nat)
    requires k < |Lex(s)| && n <= |Lex(s)[k].text|
    ensures CutLexes(s, Lex(s), k, n)
    decreases k
  {
    LexCons(s);
    hide CutLexes, Lex, First, FirstLength;
    if k == 0 {
      CutLexesFirst(s, n);
    } else {
      var rest := Lex(s[FirstLength(s)..]);
      assert Lex(s) == [First(s)] + rest;
      LexCut(s[FirstLength(s)..], k - 1, n);
      CutLexesOneMore(s, rest, k - 1, n);
    }
  }

  /** The state inside a text, from the token it is cut in or the one before. */
  lemma StateAtCut(s: string, k: nat, n: nat)
    requires k < |Lex(s)| && n <= |Lex(s)[k].text|
    ensures StateAfter(Cut(Lex(s), k, n)) ==
      if n > 0 then StateAfter(Lex(s)[k].text[..n]) else if k == 0 then NO_FLAG else OpenAfter(Lex(s)[k - 1])
  {
    hide Lex, Scan;
    var piece := Lex(s)[k].text[..n];
    var prefix := Cut(Lex(s), k, n);
    LexCut(s, k, n);
    StateOfTokens(prefix);
    StateOfTokens(piece);
    assert Lex("") == [] && Scan(NO_FLAG, "") == NO_FLAG by { LexOfNothing(); }
    if n == 0 { assert Lex(prefix) == Lex(s)[..k]; }
  }

  lemma LexOfNothing()
    ensures Lex("") == [] && Scan(NO_FLAG, "") == NO_FLAG
  {
  }

  /**
    Position `p` of the query and position `q` of the output are `n` and `m` characters into the
    same token, at the same character unless the token was renamed.
   */
  predicate InToken(query: string, p: nat, q: nat, k: nat, n: nat, m: nat) {
    var ins, outs := Lex(query), Lex(Rewritten(query));
    && k < |ins| && k < |outs| && n <= |ins[k].text| && m <= |outs[k].text|
    && (n == 0 <==> m == 0) && (ins[k] == outs[k] ==> n == m)
    && p == |Print(ins[..k])| + n && q == |Print(outs[..k])| + m
  }

  ghost predicate Matching(query: string, p: nat, q: nat) {
    (p == 0 && q == 0) || exists k, n, m :: InToken(query, p, q, k, n, m)
  }

  lemma {:induction false} PrintSplits(ts: seq<Token>, k: nat)
    requires k < |ts|
    ensures Print(ts) == Print(ts[..k]) + ts[k].text + Print(ts[k + 1..])
    decreases k
  {
    if k == 0 {
      assert ts[..0] == [];
    } else {
      PrintSplits(ts[1..], k - 1);
      assert ts[1..][..k - 1] == ts[..k][1..] && ts[1..][k..] == ts[k + 1..];
    }
  }

  lemma CutIsPrefix(s: string, k: nat, n: nat)
    requires k < |Lex(s)| && n <= |Lex(s)[k].text|
    ensures |Print(Lex(s)[..k])| + n <= |s| && Cut(Lex(s), k, n) == s[..|Print(Lex(s)[..k])| + n]
  {
    hide Lex, Print;
    PrintLex(s);
    PrintSplits(Lex(s), k);
  }

  lemma {:induction false} WordsAreIdentifiers(s: string, k: nat)
    requires k < |Lex(s)| && Lex(s)[k].kind == Word
    ensures forall i :: 0 <= i < |Lex(s)[k].text| ==> IsIdentifier(Lex(s)[k].text[i])
    decreases k
  {
    LexCons(s);
    if k > 0 { WordsAreIdentifiers(s[FirstLength(s)..], k - 1); }
  }

  lemma NoFlagInWord(w: string, n: nat)
    requires (forall i :: 0 <= i < |w| ==> IsIdentifier(w[i])) && n <= |w|
    ensures StateAfter(w[..n]) == NO_FLAG
  {
    ScanWord(w[..n], "");
    assert w[..n] + "" == w[..n];
  }

  /** Input and output token `k` leave the same flag up, as a whole and cut at matching places. */
  lemma TokensOpenAlike(query: string, k: nat, n: nat, m: nat)
    requires k < |Lex(query)| && k < |Lex(Rewritten(query))|
    requires n <= |Lex(query)[k].text| && m <= |Lex(Rewritten(query))[k].text|
    requires Lex(query)[k] == Lex(Rewritten(query))[k] ==> n == m
    ensures OpenAfter(Lex(query)[k]) == OpenAfter(Lex(Rewritten(query))[k])
    ensures StateAfter(Lex(query)[k].text[..n]) == StateAfter(Lex(Rewritten(query))[k].text[..m])
  {
    hide Lex, Rewritten, Scan, IsOwnedCall;
    RewriteChangesOnlyOwnedNames(query);
    var t, u := Lex(query)[k], Lex(Rewritten(query))[k];
    if t != u {
      assert u.kind == t.kind == Word;
      WordsAreIdentifiers(query, k);
      WordsAreIdentifiers(Rewritten(query), k);
      NoFlagInWord(t.text, n);
      NoFlagInWord(u.text, m);
      NoFlagInWord(t.text, |t.text|);
      NoFlagInWord(u.text, |u.text|);
      assert t.text[..|t.text|] == t.text && u.text[..|u.text|] == u.text;
    }
  }

  lemma StatesMatchInToken(query: string, p: nat, q: nat, k: nat, n: nat, m: nat)
    requires InToken(query, p, q, k, n, m)
    ensures p <= |query| && q <= |Rewritten(query)|
    ensures StateAfter(query[..p]) == StateAfter(Rewritten(query)[..q])
  {
    hide Lex, Rewritten, Scan, StateAfter, OpenAfter, Print;
    CutIsPrefix(query, k, n);
    CutIsPrefix(Rewritten(query), k, m);
    StateAtCut(query, k, n);
    StateAtCut(Rewritten(query), k, m);
    TokensOpenAlike(query, k, n, m);
    if k > 0 && n == 0 { TokensOpenAlike(query, k - 1, 0, 0); }
  }

  /** After every prefix of the input, and the matching prefix of the output, the same flags are up. */
  lemma StatesMatchEverywhere(query: string, p: nat, q: nat)
    requires Matching(query, p, q)
    ensures p <= |query| && q <= |Rewritten(query)|
    ensures StateAfter(query[..p]) == StateAfter(Rewritten(query)[..q])
  {
    hide InToken, Rewritten, Scan;
    if p != 0 || q != 0 {
      var k, n, m :| InToken(query, p, q, k, n, m);
      StatesMatchInToken(query, p, q, k, n, m);
    } else {
      assert query[..0] == Rewritten(query)[..0];
    }
  }

  lemma {:induction false} LocateInTokens(ts: seq<Token>, p: nat) returns (k: nat, n: nat)
    requires 0 < p <= |Print(ts)|
    ensures k < |ts| && 0 < n <= |ts[k].text| && p == |Print(ts[..k])| + n
    decreases |ts|
  {
    if p <= |ts[0].text| {
      k, n := 0, p;
      assert ts[..0] == [];
    } else {
      k, n := LocateInTokens(ts[1..], p - |ts[0].text|);
      assert ts[..k + 1][1..] == ts[1..][..k];
      k := k + 1;
    }
  }

  lemma {:induction false} TokensAreNotEmpty(s: string, k: nat)
    requires k < |Lex(s)|
    ensures Lex(s)[k].text != ""
    decreases k
  {
    LexCons(s);
    if k > 0 { TokensAreNotEmpty(s[FirstLength(s)..], k - 1); }
  }

  lemma SameTokenCount(query: string)
    ensures |Lex(Rewritten(query))| == |Lex(query)|
  {
    hide Lex, Rewritten;
    RewriteChangesOnlyOwnedNames(query);
  }

  /** Every position of the input has a match in the output. */
  lemma InputPositionMatches(query: string, p: nat)
    requires p <= |query|
    ensures exists q :: Matching(query, p, q)
  {
    hide Lex, Rewritten, Print;
    if p == 0 {
      assert Matching(query, 0, 0);
    } else {
      SameTokenCount(query);
      PrintLex(query);
      var k, n := LocateInTokens(Lex(query), p);
      TokensAreNotEmpty(Rewritten(query), k);
      var outs := Lex(Rewritten(query));
      var m := if Lex(query)[k] == outs[k] then n else 1;
      assert InToken(query, p, |Print(outs[..k])| + m, k, n, m);
      assert Matching(query, p, |Print(outs[..k])| + m);
    }
  }

  /** Every position of the output has a match in the input. */
  lemma OutputPositionMatches(query: string, q: nat)
    requires q <= |Rewritten(query)|
    ensures exists p :: Matching(query, p, q)
  {
    hide Lex, Rewritten, Print;
    if q == 0 {
      assert Matching(query, 0, 0);
    } else {
      SameTokenCount(query);
      PrintLex(Rewritten(query));
      var k, m := LocateInTokens(Lex(Rewritten(query)), q);
      TokensAreNotEmpty(query, k);
      var ins := Lex(query);
      var n := if ins[k] == Lex(Rewritten(query))[k] then m else 1;
      assert InToken(query, |Print(ins[..k])| + n, q, k, n, m);
      assert Matching(query, |Print(ins[..k])| + n, q);
    }
  }

  /** A pass over rewritten tokens sees the same arguments, so it finds no call left to rename. */
  lemma {:induction false} DropSpacesCommutes(qualified: bool, ts: seq<Token>) returns (q: bool)
    ensures DropSpaces(RewriteTokens(qualified, ts)) == RewriteTokens(q, DropSpaces(ts))
    decreases |ts|
  {
    q := qualified;
    if ts != [] {
      var r := RewriteTokens(qualified, ts);
      assert r[1..] == RewriteTokens(ts[0] == DOT, ts[1..]);
      if ts[0].kind == Symbol && |ts[0].text| == 1 && IsSpace(ts[0].text[0]) {
        q := DropSpacesCommutes(ts[0] == DOT, ts[1..]);
      }
    }
  }

  lemma ArgumentUnchanged(qualified: bool, ts: seq<Token>)
    ensures OpensWithS3Literal(RewriteTokens(qualified, ts)) <==> OpensWithS3Literal(ts)
  {
    var q := DropSpacesCommutes(qualified, ts);
    var open := DropSpaces(ts);
    if open != [] {
      var r := RewriteTokens(q, open);
      assert r[1..] == RewriteTokens(open[0] == DOT, open[1..]);
      var q' := DropSpacesCommutes(open[0] == DOT, open[1..]);
    }
  }

  lemma {:induction false} RewriteTokensIdempotent(qualified: bool, ts: seq<Token>)
    ensures RewriteTokens(qualified, RewriteTokens(qualified, ts)) == RewriteTokens(qualified, ts)
    decreases |ts|
  {
    if ts != [] {
      var r := RewriteTokens(qualified, ts);
      assert r[1..] == RewriteTokens(ts[0] == DOT, ts[1..]);
      assert r[0] == DOT <==> ts[0] == DOT;
      RewriteTokensIdempotent(ts[0] == DOT, ts[1..]);
      ArgumentUnchanged(ts[0] == DOT, ts[1..]);
      assert |SIRIUS_FN| != |NATIVE_FN|;
    }
  }

  lemma RewriteIdempotent(query: string)
    ensures Rewritten(Rewritten(query)) == Rewritten(query)
  {
    RewrittenLexes(false, query);
    RewriteTokensIdempotent(false, Lex(query));
  }

  lemma {:induction false} RewrittenTokensLength(qualified: bool, ts: seq<Token>)
    ensures |Print(RewriteTokens(qualified, ts))| == |Print(ts)| + 7 * CallCount(qualified, ts)
    ensures CallCount(qualified, ts) == 0 ==> RewriteTokens(qualified, ts) == ts
    decreases |ts|
  {
    if ts != [] {
      var r := RewriteTokens(qualified, ts);
      assert r[1..] == RewriteTokens(ts[0] == DOT, ts[1..]);
      RewrittenTokensLength(ts[0] == DOT, ts[1..]);
    }
  }

  /** Seven characters more for each renamed call. */
  lemma RewrittenLength(query: string)
    ensures |Rewritten(query)| == |query| + 7 * CallCount(false, Lex(query))
  {
    PrintLex(query);
    RewrittenTokensLength(false, Lex(query));
  }

  predicate ReferencesOwnedS3(query: string) {
    Rewritten(query) != query
  }

  lemma {:induction false} CallCountZero(qualified: bool, ts: seq<Token>)
    ensures CallCount(qualified, ts) == 0 <==> forall k :: 0 <= k < |ts| ==> !OwnedCallAt(qualified, ts, k)
    decreases |ts|
  {
    if ts != [] {
      var q, rest := ts[0] == DOT, ts[1..];
      CallCountZero(q, rest);
      assert ts[0..] == ts;
      assert OwnedCallAt(qualified, ts, 0) <==> !qualified && IsOwnedCall(ts);
      forall k | 0 < k < |ts| ensures OwnedCallAt(qualified, ts, k) == OwnedCallAt(q, rest, k - 1) {
        OwnedCallShift(qualified, ts, k);
      }
      forall j | 0 <= j < |rest| ensures OwnedCallAt(q, rest, j) == OwnedCallAt(qualified, ts, j + 1) {
        OwnedCallShift(qualified, ts, j + 1);
      }
    }
  }

  /** The rewrite changes the text exactly when the query holds an owned call. */
  lemma ReferencesExactlyOwnedCalls(query: string)
    ensures Rewritten(query) != query <==>
            exists k :: 0 <= k < |Lex(query)| && OwnedCallAt(false, Lex(query), k)
  {
    var ts := Lex(query);
    PrintLex(query);
    RewrittenTokensLength(false, ts);
    CallCountZero(false, ts);
  }
}

/**
  The rewrite described on characters alone: where a call begins, how it is spelled, and what the
  output is. Nothing here mentions tokens except the proofs.
 */
module SqlCallText {
  import opened SqlRewrite

  // ----------------------------------------------------------------- how a call is spelled

  predicate Spells(text: string, name: string) {
    |text| == |name| && forall i :: 0 <= i < |name| ==> SameLetter(text[i], name[i])
  }

  predicate BlankCharacter(c: char) {
    c == ' ' || c == '\t' || c == '\n' || c == '\r' || c == '\U{000B}' || c == '\U{000C}'
  }

  predicate Blank(s: string) {
    forall i :: 0 <= i < |s| ==> BlankCharacter(s[i])
  }

  predicate WordCharacter(c: char) {
    'a' <= c <= 'z' || 'A' <= c <= 'Z' || '0' <= c <= '9' || c == '_'
  }

  /** A name, an opening parenthesis, a string literal, blanks between them, and the rest. */
  datatype Call = Call(name: string, gap: string, inner: string, value: string, rest: string)

  /** A value between quotes, and what follows. */
  function Quoted(value: string, rest: string): string {
    "'" + (Encoded(value, '\'') + "'" + rest)
  }

  function Written(c: Call): string {
    c.name + (c.gap + ("(" + (c.inner + Quoted(c.value, c.rest))))
  }

  predicate Owned(c: Call) {
    && Spells(c.name, "read_parquet") && Blank(c.gap) && Blank(c.inner) && S3Value(c.value)
    && (c.rest == "" || c.rest[0] != '\'')
  }

  /** The text begins with an owned call. */
  ghost predicate BeginsOwned(s: string) {
    exists c :: Owned(c) && s == Written(c)
  }

  lemma SpaceIsBlank(c: char)
    ensures IsSpace(c) <==> BlankCharacter(c)
  {
  }

  lemma IdentifierIsWordCharacter(c: char)
    ensures IsIdentifier(c) <==> WordCharacter(c)
  {
  }

  lemma FoldedPrefix(s: string, prefix: string)
    ensures StartsWithIgnoringCase(s, prefix) <==> |s| >= |prefix| && Spells(s[..|prefix|], prefix)
  {
    hide Lower, SameLetter;
    forall i | 0 <= i < |s| && i < |prefix|
      ensures Lower(s[i]) == Lower(prefix[i]) <==> SameLetter(s[i], prefix[i])
    {
      FoldsExactlyCase(s[i], prefix[i]);
    }
  }

  lemma {:induction false} BlanksAreSkipped(gap: string, t: string)
    requires Blank(gap) && (t == "" || !BlankCharacter(t[0]))
    ensures SpaceLength(gap + t) == |gap| && SkipSpaces(gap + t) == t
    decreases |gap|
  {
    if gap == "" {
      assert gap + t == t;
      if t != "" { SpaceIsBlank(t[0]); }
    } else {
      SpaceIsBlank(gap[0]);
      BlanksAreSkipped(gap[1..], t);
      assert (gap + t)[1..] == gap[1..] + t;
    }
  }

  lemma SkippedIsBlank(s: string)
    ensures Blank(s[..SpaceLength(s)])
  {
    hide IsSpace, BlankCharacter;
    forall i | 0 <= i < SpaceLength(s) ensures BlankCharacter(s[i]) { SpaceIsBlank(s[i]); }
  }

  /** A closed quoted text is what encoding its value gives, and the quote that closes it. */
  ghost predicate ReadsAs(s: string, q: char, v: string, rest: string) {
    s == Encoded(v, q) + [q] + rest && (rest == "" || rest[0] != q)
  }

  lemma ReadsAsOneMore(c: char, s: string, q: char, v: string, rest: string)
    requires ReadsAs(s, q, v, rest)
    ensures ReadsAs((if c == q then [q, q] else [c]) + s, q, [c] + v, rest)
  {
    assert ([c] + v)[1..] == v;
  }

  lemma {:induction false} DecodedEncodes(s: string, q: char)
    requires Closes(s, q)
    ensures ReadsAs(s, q, Decoded(s, q), s[QuotedRest(s, q)..])
    decreases |s|
  {
    hide ReadsAs;
    var n := QuotedRest(s, q);
    if s[0] != q {
      DecodedEncodes(s[1..], q);
      assert s[1..][n - 1..] == s[n..];
      ReadsAsOneMore(s[0], s[1..], q, Decoded(s[1..], q), s[n..]);
      assert s == [s[0]] + s[1..];
    } else if |s| >= 2 && s[1] == q {
      DecodedEncodes(s[2..], q);
      assert s[2..][n - 2..] == s[n..];
      ReadsAsOneMore(q, s[2..], q, Decoded(s[2..], q), s[n..]);
      assert s == [q, q] + s[2..];
    } else {
      ReadsAsNothing(s, q);
    }
  }

  lemma ReadsAsNothing(s: string, q: char)
    requires s != "" && s[0] == q && (|s| == 1 || s[1] != q)
    ensures ReadsAs(s, q, "", s[1..])
  {
    assert s == "" + [q] + s[1..];
  }

  predicate S3Value(value: string) {
    |value| >= 5 && Spells(value[..5], "s3://")
  }

  lemma S3ValueIs(value: string)
    ensures S3Value(value) <==> StartsWithIgnoringCase(value, S3_PREFIX)
  {
    FoldedPrefix(value, S3_PREFIX);
  }

  lemma LiteralIsSpelled(value: string, rest: string)
    requires S3Value(value) && (rest == "" || rest[0] != '\'')
    ensures S3LiteralAt(Quoted(value, rest)) && Quoted(value, rest)[0] == '\''
  {
    hide S3Value, Encoded, StartsWithIgnoringCase;
    EncodedLiteralReadsBack(value, '\'', rest);
    S3ValueIs(value);
    assert Quoted(value, rest)[1..] == Encoded(value, '\'') + ['\''] + rest;
  }

  lemma LiteralSplits(s: string) returns (value: string, rest: string)
    requires S3LiteralAt(s)
    ensures S3Value(value) && (rest == "" || rest[0] != '\'') && s == Quoted(value, rest)
  {
    hide S3Value, Encoded, StartsWithIgnoringCase;
    var body := s[1..];
    DecodedEncodes(body, '\'');
    value, rest := Decoded(body, '\''), body[QuotedRest(body, '\'')..];
    S3ValueIs(value);
    hide Decoded, QuotedRest;
    assert s == "'" + body;
  }

  /** A text is its leading blanks and the rest. */
  lemma BlanksSplit(s: string) returns (gap: string)
    ensures Blank(gap) && s == gap + SkipSpaces(s)
  {
    gap := s[..SpaceLength(s)];
    SkippedIsBlank(s);
  }

  /** What may follow the name of an owned call. */
  ghost predicate CallFollows(after: string) {
    exists gap, inner, value, rest :: ArgumentText(after, gap, inner, value, rest)
  }

  predicate ArgumentText(after: string, gap: string, inner: string, value: string, rest: string) {
    && Blank(gap) && Blank(inner) && S3Value(value) && (rest == "" || rest[0] != '\'')
    && after == gap + ("(" + (inner + Quoted(value, rest)))
  }

  lemma SpelledArgument(after: string, gap: string, inner: string, value: string, rest: string)
    requires ArgumentText(after, gap, inner, value, rest)
    ensures ArgumentIsS3(after) && !IsIdentifier(after[0])
  {
    var literal := Quoted(value, rest);
    LiteralIsSpelled(value, rest);
    hide Quoted, S3LiteralAt, SpaceLength, S3Value;
    var argument := inner + literal;
    BlanksAreSkipped(inner, literal);
    var open := "(" + argument;
    BlanksAreSkipped(gap, open);
    assert open[1..] == argument;
    SpaceIsBlank(after[0]);
  }

  /** The argument test holds exactly of the texts spelled as an s3 literal in an open parenthesis. */
  lemma ArgumentIsSpelled(after: string)
    ensures ArgumentIsS3(after) <==> CallFollows(after)
  {
    hide ArgumentText, ArgumentIsS3;
    if ArgumentIsS3(after) {
      var gap, inner, value, rest := CallSplits(after);
    }
    if gap, inner, value, rest :| ArgumentText(after, gap, inner, value, rest) {
      SpelledArgument(after, gap, inner, value, rest);
    }
  }

  lemma CallSplits(after: string) returns (gap: string, inner: string, value: string, rest: string)
    requires ArgumentIsS3(after)
    ensures ArgumentText(after, gap, inner, value, rest)
  {
    hide S3LiteralAt, SkipSpaces, S3Value, Quoted, Blank;
    gap := BlanksSplit(after);
    var argument := SkipSpaces(after)[1..];
    inner := BlanksSplit(argument);
    value, rest := LiteralSplits(SkipSpaces(argument));
    assert SkipSpaces(after) == "(" + argument;
  }

  lemma SpelledIsOwned(c: Call)
    requires Owned(c)
    ensures IsOwnedCall(Lex(Written(c)))
  {
    var s, n := Written(c), |NATIVE_FN|;
    var after := c.gap + ("(" + (c.inner + Quoted(c.value, c.rest)));
    assert s[..n] == c.name && s[n..] == after;
    FoldedPrefix(s, NATIVE_FN);
    hide Quoted, Blank, S3Value, Spells, ArgumentIsS3;
    SpelledArgument(after, c.gap, c.inner, c.value, c.rest);
    assert s[n] == s[n..][0];
    CallAgrees(s);
  }

  lemma NameSplits(s: string) returns (name: string, after: string)
    requires s != "" && IsOwnedCall(Lex(s))
    ensures Spells(name, "read_parquet") && ArgumentIsS3(after) && s == name + after
  {
    hide Lex, IsOwnedCall, ArgumentIsS3, Spells, StartsWithIgnoringCase, IsIdentifier;
    CallAgrees(s);
    FoldedPrefix(s, NATIVE_FN);
    name, after := s[..|NATIVE_FN|], s[|NATIVE_FN|..];
  }

  lemma OwnedIsSpelled(s: string) returns (c: Call)
    requires s != "" && IsOwnedCall(Lex(s))
    ensures Owned(c) && s == Written(c)
  {
    hide Lex, IsOwnedCall, ArgumentIsS3, Spells, Quoted, Blank, S3Value;
    var name, after := NameSplits(s);
    var gap, inner, value, rest := CallSplits(after);
    c := Call(name, gap, inner, value, rest);
  }

  /** The scanner's test of a call holds exactly of the texts spelled as one, in any capitalisation. */
  lemma OwnedCallIsSpelled(s: string)
    requires s != ""
    ensures IsOwnedCall(Lex(s)) <==> BeginsOwned(s)
  {
    hide Lex, IsOwnedCall, Written, Owned;
    if IsOwnedCall(Lex(s)) {
      var c := OwnedIsSpelled(s);
    }
    if BeginsOwned(s) {
      var c :| Owned(c) && s == Written(c);
      SpelledIsOwned(c);
    }
  }

  // ------------------------------------------------------------ what the flags mean

  /** The closing mark of a block comment stands at position `i`. */
  predicate MarkAt(s: string, i: nat) {
    i + 1 < |s| && s[i] == '*' && s[i + 1] == '/'
  }

  lemma PlainCharacter(c: char, s: string)
    requires c != '\'' && c != '"' && !(c == '-' && s != "" && s[0] == '-') && !(c == '/' && s != "" && s[0] == '*')
    ensures StateAfter([c] + s) == StateAfter(s)
  {
    assert ([c] + s)[1..] == s;
  }

  lemma {:induction false} LineStaysOpen(body: string)
    requires '\n' !in body
    ensures Scan(NO_FLAG.(line := true), body) == NO_FLAG.(line := true)
    decreases |body|
  {
    if body != "" { LineStaysOpen(body[1..]); }
  }

  lemma {:induction false} LineCloses(body: string, s: string)
    requires '\n' !in body
    ensures Scan(NO_FLAG.(line := true), body + "\n" + s) == Scan(NO_FLAG, s)
    decreases |body|
  {
    var text := body + "\n" + s;
    if body == "" {
      assert text[1..] == s;
    } else {
      LineCloses(body[1..], s);
      assert text[1..] == body[1..] + "\n" + s;
    }
  }

  /** A line comment lasts to the first newline and no longer. */
  lemma LineCommentLaw(body: string, s: string)
    requires '\n' !in body
    ensures StateAfter("--" + body) == Flags(true, false, false, false)
    ensures StateAfter("--" + body + "\n" + s) == StateAfter(s)
  {
    LineStaysOpen(body);
    LineCloses(body, s);
    assert ("--" + body)[2..] == body;
    assert ("--" + body + "\n" + s)[2..] == body + "\n" + s;
  }

  lemma {:induction false} BlockStaysOpen(body: string)
    requires forall i :: 0 <= i < |body| ==> !MarkAt(body, i)
    ensures Scan(NO_FLAG.(block := true), body) == NO_FLAG.(block := true)
    decreases |body|
  {
    if body != "" {
      assert !MarkAt(body, 0);
      forall i | 0 <= i < |body[1..]| ensures !MarkAt(body[1..], i) {
        assert !MarkAt(body, i + 1);
      }
      BlockStaysOpen(body[1..]);
    }
  }

  lemma {:induction false} BlockCloses(body: string, s: string)
    requires forall i :: 0 <= i < |body| ==> !MarkAt(body + "*/", i)
    ensures Scan(NO_FLAG.(block := true), body + "*/" + s) == Scan(NO_FLAG, s)
    decreases |body|
  {
    var text := body + "*/" + s;
    if body == "" {
      assert text[2..] == s;
    } else {
      assert !MarkAt(body + "*/", 0);
      assert text[..2] == (body + "*/")[..2];
      forall i | 0 <= i < |body[1..]| ensures !MarkAt(body[1..] + "*/", i) {
        assert !MarkAt(body + "*/", i + 1);
      }
      BlockCloses(body[1..], s);
      assert text[1..] == body[1..] + "*/" + s;
    }
  }

  /** A block comment lasts to the first closing mark; opening marks inside it do not nest. */
  lemma BlockCommentLaw(body: string, s: string)
    ensures (forall i :: 0 <= i < |body| ==> !MarkAt(body, i)) ==>
            StateAfter("/*" + body) == Flags(false, true, false, false)
    ensures (forall i :: 0 <= i < |body| ==> !MarkAt(body + "*/", i)) ==>
            StateAfter("/*" + body + "*/" + s) == StateAfter(s)
  {
    assert ("/*" + body)[2..] == body;
    assert ("/*" + body + "*/" + s)[2..] == body + "*/" + s;
    if forall i :: 0 <= i < |body| ==> !MarkAt(body, i) { BlockStaysOpen(body); }
    if forall i :: 0 <= i < |body| ==> !MarkAt(body + "*/", i) { BlockCloses(body, s); }
  }

  predicate QuoteFlag(q: char, f: Flags) {
    (q == '\'' && f == Flags(false, false, true, false)) || (q == '"' && f == Flags(false, false, false, true))
  }

  lemma LineOpens(u: string)
    ensures StateAfter("--" + u) == Scan(NO_FLAG.(line := true), u)
  {
    assert ("--" + u)[2..] == u;
  }

  lemma BlockOpens(u: string)
    ensures StateAfter("/*" + u) == Scan(NO_FLAG.(block := true), u)
  {
    assert ("/*" + u)[2..] == u;
  }

  lemma QuoteOpens(q: char, f: Flags, u: string)
    requires QuoteFlag(q, f)
    ensures StateAfter([q] + u) == Scan(f, u)
  {
    assert ([q] + u)[1..] == u;
  }

  lemma QuoteGoesOn(c: char, q: char, f: Flags, s: string)
    requires QuoteFlag(q, f)
    ensures Scan(f, (if c == q then [q, q] else [c]) + s) == Scan(f, s)
  {
    if c == q { assert ([q, q] + s)[2..] == s; } else { assert ([c] + s)[1..] == s; }
  }

  lemma {:induction false} QuoteStaysOpen(v: string, q: char, f: Flags, s: string)
    requires QuoteFlag(q, f)
    ensures Scan(f, Encoded(v, q) + s) == Scan(f, s)
    decreases |v|
  {
    hide Scan;
    if v == "" {
      assert Encoded(v, q) + s == s;
    } else {
      QuoteStaysOpen(v[1..], q, f, s);
      var rest := Encoded(v[1..], q) + s;
      QuoteGoesOn(v[0], q, f, rest);
      assert Encoded(v, q) + s == (if v[0] == q then [q, q] else [v[0]]) + rest;
    }
  }

  lemma QuoteCloses(q: char, f: Flags, s: string)
    requires QuoteFlag(q, f) && (s == "" || s[0] != q)
    ensures Scan(f, [q] + s) == StateAfter(s)
  {
    assert ([q] + s)[1..] == s;
  }

  /** Between quotes every value can be written; the quote that ends it is the first single one. */
  lemma QuotedLaw(v: string, q: char, f: Flags, s: string)
    requires QuoteFlag(q, f)
    ensures StateAfter([q] + Encoded(v, q)) == f
    ensures s == "" || s[0] != q ==> StateAfter([q] + (Encoded(v, q) + ([q] + s))) == StateAfter(s)
  {
    var e := Encoded(v, q);
    hide Encoded, Scan, StateAfter;
    ScanOfNothing(f, "");
    QuoteStaysOpen(v, q, f, "");
    assert e + "" == e;
    QuoteOpens(q, f, e);
    if s == "" || s[0] != q {
      QuoteStaysOpen(v, q, f, [q] + s);
      QuoteCloses(q, f, s);
      QuoteOpens(q, f, e + ([q] + s));
    }
  }

  // -------------------------------------------------------------- where a call begins

  /** Neither a word character nor a dot stands before position `i`. */
  predicate StandsFree(query: string, i: nat)
    requires i <= |query|
  {
    i > 0 ==> !WordCharacter(query[i - 1]) && query[i - 1] != '.'
  }

  /** Outside comments and quotes, not behind a word character or a dot, an owned call is spelled. */
  ghost predicate CallStartsAt(query: string, i: nat) {
    i < |query| && StateAfter(query[..i]) == NO_FLAG && StandsFree(query, i) && BeginsOwned(query[i..])
  }

  /** The text from `i` on, each call's name replaced. */
  ghost function Spliced(query: string, i: nat): string
    requires i <= |query|
    decreases |query| - i
  {
    if i == |query| then ""
    else if CallStartsAt(query, i) && i + 12 <= |query| then "sirius_read_parquet" + Spliced(query, i + 12)
    else [query[i]] + Spliced(query, i + 1)
  }

  /** Where the `k`-th token starts. */
  function Offset(query: string, k: nat): nat
    requires k <= |Lex(query)|
  {
    |Print(Lex(query)[..k])|
  }

  lemma {:induction false} SuffixLexes(query: string, k: nat)
    requires k <= |Lex(query)|
    ensures Offset(query, k) <= |query| && Lex(query[Offset(query, k)..]) == Lex(query)[k..]
    decreases k
  {
    if k == 0 {
      assert Lex(query)[..0] == [] && query[0..] == query;
    } else {
      LexCons(query);
      var n := FirstLength(query);
      var rest := query[n..];
      SuffixLexes(rest, k - 1);
      assert Lex(query)[..k] == [First(query)] + Lex(rest)[..k - 1];
      assert ([First(query)] + Lex(rest)[..k - 1])[1..] == Lex(rest)[..k - 1];
      assert query[Offset(query, k)..] == rest[Offset(rest, k - 1)..];
    }
  }

  lemma TokenStandsThere(query: string, k: nat)
    requires k < |Lex(query)|
    ensures Offset(query, k) < |query|
    ensures First(query[Offset(query, k)..]) == Lex(query)[k]
    ensures Offset(query, k + 1) == Offset(query, k) + |Lex(query)[k].text| <= |query|
  {
    SuffixLexes(query, k);
    var s := query[Offset(query, k)..];
    LexCons(s);
    OffsetStep(Lex(query), k);
    SuffixLexes(query, k + 1);
  }

  lemma {:induction false} OffsetStep(ts: seq<Token>, k: nat)
    requires k < |ts|
    ensures |Print(ts[..k + 1])| == |Print(ts[..k])| + |ts[k].text|
    decreases k
  {
    PrintSplits(ts[..k + 1], k);
    assert ts[..k + 1][..k] == ts[..k] && ts[..k + 1][k + 1..] == [];
  }

  // ---- a token with text behind it is complete, and how it ends

  lemma {:induction false} LineAlone(u: string, a: string)
    requires LineRest(u + a) == |u|
    ensures a != "" ==> Scan(NO_FLAG.(line := true), u) == NO_FLAG && u != "" && u[|u| - 1] == '\n'
    ensures forall n :: 0 <= n < |u| ==> Scan(NO_FLAG.(line := true), u[..n]) != NO_FLAG
    decreases |u|
  {
    if u == "" {
      assert u + a == a;
    } else {
      assert (u + a)[1..] == u[1..] + a;
      if u[0] != '\n' {
        LineAlone(u[1..], a);
        forall n | 0 < n < |u| ensures u[..n][1..] == u[1..][..n - 1] {}
      }
    }
  }

  lemma {:induction false} BlockAlone(u: string, a: string)
    requires BlockRest(u + a) == |u|
    ensures a != "" ==> Scan(NO_FLAG.(block := true), u) == NO_FLAG && u != "" && u[|u| - 1] == '/'
    ensures forall n :: 0 <= n < |u| ==> Scan(NO_FLAG.(block := true), u[..n]) != NO_FLAG
    decreases |u|
  {
    if u == "" {
      assert u + a == a;
    } else {
      assert (u + a)[1..] == u[1..] + a;
      if u[0] == '*' && |u + a| >= 2 && (u + a)[1] == '/' {
        assert u == "*/";
      } else {
        BlockAlone(u[1..], a);
        forall n | 0 < n < |u| ensures u[..n][1..] == u[1..][..n - 1] {}
      }
    }
  }

  lemma TailOfSum(u: string, a: string, k: nat)
    requires k <= |u|
    ensures (u + a)[k..] == u[k..] + a
  {
  }

  lemma {:induction false} QuotedEnds(u: string, a: string, q: char, f: Flags)
    requires QuoteFlag(q, f) && QuotedRest(u + a, q) == |u| && a != ""
    ensures Scan(f, u) == NO_FLAG && u != "" && u[|u| - 1] == q
    decreases |u|
  {
    assert u != "" by { assert u == "" ==> u + a == a; }
    TailOfSum(u, a, 1);
    if u[0] != q {
      QuotedEnds(u[1..], a, q, f);
    } else if |u + a| >= 2 && (u + a)[1] == q {
      assert QuotedRest(u + a, q) >= 2;
      TailOfSum(u, a, 2);
      QuotedEnds(u[2..], a, q, f);
    } else {
      QuoteCloses(q, f, "");
      assert u == [q] + "";
      ScanOfNothing(NO_FLAG, "");
    }
  }

  lemma {:induction false} QuotedCut(u: string, q: char, f: Flags, n: nat)
    requires QuoteFlag(q, f) && QuotedRest(u, q) == |u| && n < |u| && Scan(f, u[..n]) == NO_FLAG
    ensures u[n] == q
    decreases n
  {
    if u[0] != q {
      if n > 0 {
        assert u[..n][1..] == u[1..][..n - 1];
        QuotedCut(u[1..], q, f, n - 1);
      }
    } else if |u| >= 2 && u[1] == q && n >= 2 {
      assert u[..n][2..] == u[2..][..n - 2];
      QuotedCut(u[2..], q, f, n - 2);
    }
  }

  /** Inside a token that is no word, with no flag up, the next character is no word character. */
  predicate NoWordInside(t: Token) {
    t.kind != Word ==>
      forall n :: 0 < n < |t.text| && StateAfter(t.text[..n]) == NO_FLAG ==> !IsIdentifier(t.text[n])
  }

  /** A token with text behind it leaves no flag up; if it is no word, it does not end like one. */
  predicate Complete(t: Token) {
    && OpenAfter(t) == NO_FLAG && t.text != ""
    && (t.kind != Word ==> var last := t.text[|t.text| - 1]; !IsIdentifier(last) && (last == '.' ==> t == DOT))
  }

  lemma LineIsComplete(u: string, a: string)
    requires LineRest(u + a) == |u|
    ensures var t := Token(LineComment, "--" + u); NoWordInside(t) && (a != "" ==> Complete(t))
  {
    LineAlone(u, a);
    hide LineRest, Scan, StateAfter;
    LineOpens(u);
    assert Scan(NO_FLAG, "--" + u) == StateAfter("--" + u) by { StateIsScan("--" + u); }
    forall m | 2 <= m < 2 + |u| ensures StateAfter(("--" + u)[..m]) != NO_FLAG {
      LineOpens(u[..m - 2]);
      assert ("--" + u)[..m] == "--" + u[..m - 2];
    }
  }

  lemma BlockIsComplete(u: string, a: string)
    requires BlockRest(u + a) == |u|
    ensures var t := Token(BlockComment, "/*" + u); NoWordInside(t) && (a != "" ==> Complete(t))
  {
    BlockAlone(u, a);
    hide BlockRest, Scan, StateAfter;
    BlockOpens(u);
    assert Scan(NO_FLAG, "/*" + u) == StateAfter("/*" + u) by { StateIsScan("/*" + u); }
    forall m | 2 <= m < 2 + |u| ensures StateAfter(("/*" + u)[..m]) != NO_FLAG {
      BlockOpens(u[..m - 2]);
      assert ("/*" + u)[..m] == "/*" + u[..m - 2];
    }
  }

  lemma QuotedIsComplete(u: string, a: string, q: char, f: Flags, kind: Kind)
    requires QuoteFlag(q, f) && QuotedRest(u + a, q) == |u|
    ensures var t := Token(kind, [q] + u); NoWordInside(t) && (a != "" ==> Complete(t))
  {
    QuotedRestStable(u, a, "", q);
    assert u + "" == u;
    NoWordInQuotes(u, q, f, kind);
    hide Scan, StateAfter, NoWordInside;
    if a != "" { QuotedEnds(u, a, q, f); }
    hide QuotedRest;
    QuoteOpens(q, f, u);
    StateIsScan([q] + u);
  }

  lemma NoWordInQuotes(u: string, q: char, f: Flags, kind: Kind)
    requires QuoteFlag(q, f) && QuotedRest(u, q) == |u|
    ensures NoWordInside(Token(kind, [q] + u))
  {
    hide Scan, StateAfter, QuotedRest;
    forall m | 1 <= m < 1 + |u| && StateAfter(([q] + u)[..m]) == NO_FLAG ensures ([q] + u)[m] == q {
      QuoteOpens(q, f, u[..m - 1]);
      assert ([q] + u)[..m] == [q] + u[..m - 1];
      QuotedCut(u, q, f, m - 1);
    }
  }

  lemma StateIsScan(s: string)
    ensures Scan(NO_FLAG, s) == StateAfter(s)
  {
  }

  lemma OpeningSplits(s: string, k: nat, n: nat)
    requires k <= n <= |s|
    ensures s[k..] == s[k..n] + s[n..] && s[..n] == s[..k] + s[k..n]
  {
  }

  lemma WordIsComplete(u: string)
    requires u != "" && forall i :: 0 <= i < |u| ==> IsIdentifier(u[i])
    ensures NoWordInside(Token(Word, u)) && Complete(Token(Word, u))
  {
    NoFlagInWord(u, |u|);
    assert u[..|u|] == u;
  }

  lemma SymbolIsComplete(c: char)
    requires c != '\'' && c != '"' && !IsIdentifier(c)
    ensures NoWordInside(Token(Symbol, [c])) && Complete(Token(Symbol, [c]))
  {
    PlainCharacter(c, "");
    assert [c] == [c] + "";
  }

  lemma TokenIsComplete(s: string)
    requires s != ""
    ensures NoWordInside(First(s)) && (FirstLength(s) < |s| ==> Complete(First(s)))
  {
    hide NoWordInside, Complete, LineRest, BlockRest, QuotedRest;
    var n := FirstLength(s);
    OpeningSplits(s, 1, n);
    if n >= 2 { OpeningSplits(s, 2, n); }
    match FirstKind(s) {
      case LineComment =>
        assert s[..2] == "--";
        LineIsComplete(s[2..n], s[n..]);
      case BlockComment =>
        assert s[..2] == "/*";
        BlockIsComplete(s[2..n], s[n..]);
      case Literal =>
        assert s[..1] == ['\''];
        QuotedIsComplete(s[1..n], s[n..], '\'', Flags(false, false, true, false), Literal);
      case QuotedName =>
        assert s[..1] == ['"'];
        QuotedIsComplete(s[1..n], s[n..], '"', Flags(false, false, false, true), QuotedName);
      case Word => WordIsComplete(s[..n]);
      case Symbol =>
        assert s[..1] == [s[0]];
        SymbolIsComplete(s[0]);
    }
  }

  // ---- positions and tokens

  lemma TokenBefore(query: string, k: nat)
    requires 0 < k < |Lex(query)|
    ensures Complete(Lex(query)[k - 1]) && 0 < Offset(query, k) <= |query|
    ensures query[Offset(query, k) - 1] == Lex(query)[k - 1].text[|Lex(query)[k - 1].text| - 1]
  {
    hide Lex, Offset, Complete, NoWordInside, FirstLength;
    TokenStandsThere(query, k - 1);
    TokenStandsThere(query, k);
    TokenIsComplete(query[Offset(query, k - 1)..]);
    assert |First(query[Offset(query, k - 1)..]).text| == FirstLength(query[Offset(query, k - 1)..]);
  }

  lemma StateInToken(query: string, k: nat, n: nat)
    requires k < |Lex(query)| && n < |Lex(query)[k].text|
    ensures Offset(query, k) + n < |query| && query[Offset(query, k) + n] == Lex(query)[k].text[n]
    ensures StateAfter(query[..Offset(query, k) + n]) ==
            if n > 0 then StateAfter(Lex(query)[k].text[..n]) else NO_FLAG
  {
    hide Lex, Scan, Print;
    TokenStandsThere(query, k);
    CutIsPrefix(query, k, n);
    StateAtCut(query, k, n);
    if n == 0 && k > 0 { TokenBefore(query, k); }
  }

  lemma WordBeforeWord(query: string, k: nat)
    requires 0 < k < |Lex(query)| && Lex(query)[k].kind == Word
    ensures Lex(query)[k - 1].kind != Word
  {
    TokenStandsThere(query, k - 1);
    TokenStandsThere(query, k);
    hide Lex;
    var s := query[Offset(query, k - 1)..];
    assert s[FirstLength(s)] == query[Offset(query, k)];
  }

  /** A call starts exactly where a token begins that is the name of an owned call. */
  lemma CallsAreTokens(query: string, k: nat, n: nat)
    requires k < |Lex(query)| && n < |Lex(query)[k].text|
    ensures CallStartsAt(query, Offset(query, k) + n) <==> n == 0 && OwnedCallAt(false, Lex(query), k)
  {
    var i := Offset(query, k) + n;
    StateInToken(query, k, n);
    if n == 0 {
      CallAtToken(query, k);
    } else if CallStartsAt(query, i) {
      NoCallInside(query, k, n);
    }
  }

  lemma CallAtToken(query: string, k: nat)
    requires k < |Lex(query)|
    requires Offset(query, k) < |query| && StateAfter(query[..Offset(query, k)]) == NO_FLAG
    ensures CallStartsAt(query, Offset(query, k)) <==> OwnedCallAt(false, Lex(query), k)
  {
    hide Lex, Scan, Print, BeginsOwned, OpensWithS3Literal;
    var i := Offset(query, k);
    SuffixLexes(query, k);
    OwnedCallIsSpelled(query[i..]);
    if k > 0 {
      TokenBefore(query, k);
      IdentifierIsWordCharacter(query[i - 1]);
      if IsOwnedCall(Lex(query)[k..]) { WordBeforeWord(query, k); }
    } else {
      NothingBefore(query);
    }
  }

  lemma NothingBefore(query: string)
    ensures Offset(query, 0) == 0
  {
    assert Lex(query)[..0] == [];
  }

  lemma NoCallInside(query: string, k: nat, n: nat)
    requires k < |Lex(query)| && 0 < n < |Lex(query)[k].text|
    ensures !CallStartsAt(query, Offset(query, k) + n)
  {
    hide Lex, Scan, Print, Offset;
    var i := Offset(query, k) + n;
    StateInToken(query, k, n);
    StateInToken(query, k, n - 1);
    TokenStandsThere(query, k);
    TokenIsComplete(query[Offset(query, k)..]);
    if CallStartsAt(query, i) {
      if Lex(query)[k].kind == Word {
        WordsAreIdentifiers(query, k);
        IdentifierIsWordCharacter(query[i - 1]);
      } else {
        CallBeginsWithLetter(query[i..]);
      }
    }
  }

  lemma CallBeginsWithLetter(s: string)
    requires BeginsOwned(s)
    ensures |s| >= 12 && IsIdentifier(s[0])
  {
    var c :| Owned(c) && s == Written(c);
    assert s[0] == c.name[0];
  }

  lemma CopyOne(query: string, i: nat)
    requires i < |query| && !CallStartsAt(query, i)
    ensures Spliced(query, i) == [query[i]] + Spliced(query, i + 1)
  {
    hide CallStartsAt;
  }

  /** Where no call starts, the text is copied. */
  lemma {:induction false} CopyRun(query: string, i: nat, j: nat)
    requires i <= j <= |query| && forall m :: i <= m < j ==> !CallStartsAt(query, m)
    ensures Spliced(query, i) == query[i..j] + Spliced(query, j)
    decreases j - i
  {
    hide CallStartsAt, Spliced;
    if i < j {
      CopyOne(query, i);
      CopyRun(query, i + 1, j);
      assert query[i..j] == [query[i]] + query[i + 1..j];
    } else {
      assert query[i..j] == "";
    }
  }

  lemma SplicedToken(query: string, k: nat)
    requires k < |Lex(query)|
    ensures Offset(query, k) <= |query| && Offset(query, k + 1) <= |query|
    ensures Spliced(query, Offset(query, k)) ==
            (if OwnedCallAt(false, Lex(query), k) then "sirius_read_parquet" else Lex(query)[k].text)
            + Spliced(query, Offset(query, k + 1))
  {
    hide Lex, CallStartsAt, Offset, IsOwnedCall;
    TokenStandsThere(query, k);
    TokensAreNotEmpty(query, k);
    var i, j := Offset(query, k), Offset(query, k + 1);
    CallsAreTokens(query, k, 0);
    if OwnedCallAt(false, Lex(query), k) {
      NameIsTwelveLong(query, k);
    } else {
      forall m | i <= m < j ensures !CallStartsAt(query, m) { CallsAreTokens(query, k, m - i); }
      CopyRun(query, i, j);
      assert query[i..j] == Lex(query)[k].text;
    }
  }

  lemma NameIsTwelveLong(query: string, k: nat)
    requires k < |Lex(query)| && OwnedCallAt(false, Lex(query), k)
    ensures |Lex(query)[k].text| == 12
  {
    assert Lex(query)[k..][0] == Lex(query)[k];
  }

  lemma {:induction false} SplicedFrom(query: string, k: nat)
    requires k <= |Lex(query)|
    ensures Offset(query, k) <= |query|
    ensures Spliced(query, Offset(query, k)) == Print(RewriteTokens(false, Lex(query))[k..])
    decreases |Lex(query)| - k
  {
    hide Lex, Offset, IsOwnedCall, CallStartsAt, RewriteTokens;
    var outs := RewriteTokens(false, Lex(query));
    if k == |Lex(query)| {
      EndOffset(query);
    } else {
      SplicedToken(query, k);
      SplicedFrom(query, k + 1);
      RewriteTokensAt(false, Lex(query), k);
      assert outs[k..][0] == outs[k] && outs[k..][1..] == outs[k + 1..];
    }
  }

  lemma EndOffset(query: string)
    ensures Offset(query, |Lex(query)|) == |query|
  {
    PrintLex(query);
    assert Lex(query)[..|Lex(query)|] == Lex(query);
  }

  /** The rewrite, on characters: every call's name is replaced and every other character copied. */
  lemma RewriteIsSplice(query: string)
    ensures Rewritten(query) == Spliced(query, 0)
  {
    hide Lex;
    NothingBefore(query);
    SplicedFrom(query, 0);
    assert RewriteTokens(false, Lex(query))[0..] == RewriteTokens(false, Lex(query));
  }

  /** A query refers to an owned file exactly when a call starts somewhere in it. */
  lemma ReferencesExactlyCalls(query: string)
    ensures ReferencesOwnedS3(query) <==> exists i :: CallStartsAt(query, i)
  {
    hide Lex, OwnedCallAt, CallStartsAt, Rewritten, Offset;
    ReferencesExactlyOwnedCalls(query);
    if k :| 0 <= k < |Lex(query)| && OwnedCallAt(false, Lex(query), k) {
      TokensAreNotEmpty(query, k);
      CallsAreTokens(query, k, 0);
    }
    if i :| CallStartsAt(query, i) {
      CallIsInToken(query, i);
    }
  }

  lemma CallIsInToken(query: string, i: nat)
    requires CallStartsAt(query, i)
    ensures exists k :: 0 <= k < |Lex(query)| && OwnedCallAt(false, Lex(query), k)
  {
    hide Lex, Scan, IsOwnedCall, BeginsOwned;
    PrintLex(query);
    var k, n := LocateInTokens(Lex(query), i + 1);
    CallsAreTokens(query, k, n - 1);
  }

  /** Every spelling of an owned call is renamed, in any capitalisation and with any blanks. */
  lemma EverySpellingIsRenamed(c: Call)
    requires Owned(c)
    ensures |Written(c)| >= 12 && Rewritten(Written(c)) == "sirius_read_parquet" + Spliced(Written(c), 12)
  {
    var query := Written(c);
    assert BeginsOwned(query);
    CallBeginsWithLetter(query);
    hide Owned, Written, BeginsOwned, Rewritten;
    RewriteIsSplice(query);
    assert query[..0] == "" && query[0..] == query;
    ScanOfNothing(NO_FLAG, "");
    assert CallStartsAt(query, 0);
    hide CallStartsAt;
  }
}

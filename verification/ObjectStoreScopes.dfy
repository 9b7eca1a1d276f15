/**
  The published object-store scopes of a context: a list kept longest prefix first, edited copy
  by copy, and the lookup that serves a URI from the longest published prefix.

  A `Scope` stands for one published snapshot. How a key is judged unmatchable and how the
  scheme is lowered are left as functions.
 */
module ObjectStoreScopes {
  import opened Basics

  datatype Scope = Scope(prefix: string, id: nat)

  datatype Resolution = Nothing | Refused | Serves(scope: Scope)

  // ------------------------------------------------------------------ the list

  /** Longest first, and no prefix twice. */
  predicate Ordered(s: seq<Scope>) {
    forall i, j :: 0 <= i < j < |s| ==> |s[i].prefix| >= |s[j].prefix|
  }

  predicate Distinct(s: seq<Scope>) {
    forall i, j :: 0 <= i < j < |s| ==> s[i].prefix != s[j].prefix
  }

  function Erased(s: seq<Scope>, key: string): seq<Scope> {
    if s == [] then []
    else if s[0].prefix == key then Erased(s[1..], key)
    else [s[0]] + Erased(s[1..], key)
  }

  /** Insert behind every element that is at least as long. */
  function Insert(x: Scope, s: seq<Scope>): seq<Scope> {
    if s == [] || |s[0].prefix| < |x.prefix| then [x] + s else [s[0]] + Insert(x, s[1..])
  }

  /** A stable sort, longest prefix first. */
  function Sorted(s: seq<Scope>): seq<Scope> {
    if s == [] then [] else Insert(s[|s| - 1], Sorted(s[..|s| - 1]))
  }

  function Added(s: seq<Scope>, cfg: Option<Scope>): seq<Scope> {
    if cfg.Some? then s + [cfg.value] else s
  }

  /** `with_scope`: the scope under `key` replaced by `cfg`, or removed. */
  function WithScope(s: seq<Scope>, key: string, cfg: Option<Scope>): seq<Scope> {
    Sorted(Added(Erased(s, key), cfg))
  }

  /** The scope published under exactly `key`. */
  function Lookup(s: seq<Scope>, key: string): (r: Option<Scope>)
    ensures r.Some? ==> r.value in s && r.value.prefix == key
    ensures r.None? ==> forall x :: x in s ==> x.prefix != key
  {
    if s == [] then None else if s[0].prefix == key then Some(s[0]) else Lookup(s[1..], key)
  }

  // ------------------------------------------------------------- what the edits keep

  lemma {:induction false} LookupUnique(s: seq<Scope>, x: Scope)
    requires Distinct(s) && x in s
    ensures Lookup(s, x.prefix) == Some(x)
    decreases |s|
  {
    var i :| 0 <= i < |s| && s[i] == x;
    if i > 0 {
      assert s[0].prefix != s[i].prefix;
      assert s[1..][i - 1] == x;
      LookupUnique(s[1..], x);
    }
  }

  lemma {:induction false} ErasedMembers(s: seq<Scope>, key: string)
    ensures forall x :: x in Erased(s, key) <==> x in s && x.prefix != key
    decreases |s|
  {
    if s != [] {
      ErasedMembers(s[1..], key);
      assert forall x :: x in s <==> x == s[0] || x in s[1..];
    }
  }

  lemma {:induction false} ErasedDistinct(s: seq<Scope>, key: string)
    requires Distinct(s)
    ensures Distinct(Erased(s, key))
    decreases |s|
  {
    if s != [] {
      var t := s[1..];
      ErasedDistinct(t, key);
      ErasedMembers(t, key);
      DistinctCons(s[0], t, Erased(t, key));
    }
  }

  lemma DistinctCons(x: Scope, t: seq<Scope>, r: seq<Scope>)
    requires Distinct([x] + t) && Distinct(r) && forall y :: y in r ==> y in t
    ensures Distinct([x] + r)
  {
    var s := [x] + t;
    forall j | 0 <= j < |r| ensures x.prefix != r[j].prefix {
      assert r[j] in t;
      var k :| 0 <= k < |t| && t[k] == r[j];
      assert s[0] == x && s[k + 1] == t[k];
    }
  }

  lemma {:induction false} InsertKeeps(x: Scope, s: seq<Scope>)
    requires Ordered(s)
    ensures Ordered(Insert(x, s))
    ensures forall y :: y in Insert(x, s) <==> y == x || y in s
    decreases |s|
  {
    if s != [] && |s[0].prefix| >= |x.prefix| {
      var t := s[1..];
      InsertKeeps(x, t);
      var r := Insert(x, t);
      assert s == [s[0]] + t;
      forall j | 0 <= j < |r| ensures |s[0].prefix| >= |r[j].prefix| {
        assert r[j] == x || r[j] in t;
        if r[j] in t { var k :| 0 <= k < |t| && t[k] == r[j]; assert s[k + 1] == t[k]; }
      }
    }
  }

  lemma {:induction false} InsertDistinct(x: Scope, s: seq<Scope>)
    requires Ordered(s) && Distinct(s) && forall y :: y in s ==> y.prefix != x.prefix
    ensures Distinct(Insert(x, s))
    decreases |s|
  {
    if s != [] && |s[0].prefix| >= |x.prefix| {
      var t := s[1..];
      InsertKeeps(x, t);
      InsertDistinct(x, t);
      assert [s[0]] + ([x] + t) == [s[0], x] + t;
      forall j | 0 <= j < |t| ensures s[0].prefix != t[j].prefix { assert t[j] == s[j + 1]; }
      DistinctCons(s[0], [x] + t, Insert(x, t));
    }
  }

  lemma {:induction false} SortedKeeps(s: seq<Scope>)
    ensures Ordered(Sorted(s))
    ensures forall x :: x in Sorted(s) <==> x in s
    ensures Distinct(s) ==> Distinct(Sorted(s))
    decreases |s|
  {
    if s != [] {
      var t, x := s[..|s| - 1], s[|s| - 1];
      SortedKeeps(t);
      InsertKeeps(x, Sorted(t));
      assert s == t + [x];
      if Distinct(s) {
        forall y | y in Sorted(t) ensures y.prefix != x.prefix {
          var k :| 0 <= k < |t| && t[k] == y;
          assert s[k] == y && s[|s| - 1] == x;
        }
        InsertDistinct(x, Sorted(t));
      }
    }
  }

  /** Every edit leaves a list that is ordered and distinct, and changes the scope under `key` alone. */
  lemma WithScopeEdits(s: seq<Scope>, key: string, cfg: Option<Scope>)
    requires Distinct(s) && (cfg.Some? ==> cfg.value.prefix == key)
    ensures var r := WithScope(s, key, cfg);
      && Ordered(r) && Distinct(r)
      && forall k :: Lookup(r, k) == if k == key then cfg else Lookup(s, k)
  {
    ErasedMembers(s, key);
    ErasedDistinct(s, key);
    var e := Added(Erased(s, key), cfg);
    SortedKeeps(e);
    var r := WithScope(s, key, cfg);
    forall k ensures Lookup(r, k) == if k == key then cfg else Lookup(s, k) {
      SameLookup(s, r, key, cfg, k);
    }
  }

  lemma SameLookup(s: seq<Scope>, r: seq<Scope>, key: string, cfg: Option<Scope>, k: string)
    requires Distinct(s) && Distinct(r) && (cfg.Some? ==> cfg.value.prefix == key)
    requires forall x :: x in r <==> (x in s && x.prefix != key) || cfg == Some(x)
    ensures Lookup(r, k) == if k == key then cfg else Lookup(s, k)
  {
    var want := if k == key then cfg else Lookup(s, k);
    if want.Some? {
      assert want.value in r;
      LookupUnique(r, want.value);
    }
  }

  // ---------------------------------------------------------------------- lookup

  predicate Matches(prefix: string, lowered: string) {
    prefix <= lowered
  }

  /** `scope` has the longest of the published prefixes that match. */
  predicate LongestMatch(s: seq<Scope>, lowered: string, scope: Scope) {
    && scope in s && Matches(scope.prefix, lowered)
    && forall x :: x in s && Matches(x.prefix, lowered) && x != scope ==> |x.prefix| < |scope.prefix|
  }

  /** What a lookup must answer, said without the order of the list. */
  predicate Answers(s: seq<Scope>, uri: string, defeats: string -> bool, lower: string -> string, r: Resolution) {
    if s == [] then r == Nothing
    else if defeats(uri) then r == Refused
    else match r
      case Refused => false
      case Nothing => forall x :: x in s ==> !Matches(x.prefix, lower(uri))
      case Serves(scope) => LongestMatch(s, lower(uri), scope)
  }

  method ResolveScope(s: seq<Scope>, uri: string, defeats: string -> bool, lower: string -> string)
    returns (r: Resolution)
    requires Ordered(s) && Distinct(s)
    ensures Answers(s, uri, defeats, lower, r)
    ensures r.Serves? && r.scope.prefix == "" ==> forall x :: x in s && x != r.scope ==> !Matches(x.prefix, lower(uri))
  {
    if s == [] { return Nothing; }
    if defeats(uri) { return Refused; }
    var lowered, i := lower(uri), 0;
    while i < |s|
      invariant i <= |s|
      invariant forall k :: 0 <= k < i ==> !Matches(s[k].prefix, lowered)
    {
      if s[i].prefix == "" || s[i].prefix <= lowered {
        FirstIsLongest(s, lowered, i);
        return Serves(s[i]);
      }
      i := i + 1;
    }
    return Nothing;
  }

  lemma FirstIsLongest(s: seq<Scope>, lowered: string, i: nat)
    requires Ordered(s) && Distinct(s) && i < |s| && Matches(s[i].prefix, lowered)
    requires forall k :: 0 <= k < i ==> !Matches(s[k].prefix, lowered)
    ensures LongestMatch(s, lowered, s[i])
  {
    forall x | x in s && Matches(x.prefix, lowered) && x != s[i] ensures |x.prefix| < |s[i].prefix| {
      var k :| 0 <= k < |s| && s[k] == x;
      assert i < k;
    }
  }

  /** There is only one right answer, and it depends on what is published, not on the list. */
  lemma AnswerIsUnique(s: seq<Scope>, t: seq<Scope>, uri: string, defeats: string -> bool, lower: string -> string,
                       a: Resolution, b: Resolution)
    requires Distinct(s) && Distinct(t) && forall k :: Lookup(s, k) == Lookup(t, k)
    requires Answers(s, uri, defeats, lower, a) && Answers(t, uri, defeats, lower, b)
    ensures a == b
  {
    forall x ensures x in s <==> x in t {
      if x in s { LookupUnique(s, x); }
      if x in t { LookupUnique(t, x); }
      assert Lookup(s, x.prefix) == Lookup(t, x.prefix);
    }
    assert |s| > 0 ==> s[0] in t;
    assert |t| > 0 ==> t[0] in s;
  }

  /** Puts and drops of different keys commute for every lookup. */
  lemma EditsCommute(s: seq<Scope>, k1: string, c1: Option<Scope>, k2: string, c2: Option<Scope>,
                     uri: string, defeats: string -> bool, lower: string -> string, a: Resolution, b: Resolution)
    requires Distinct(s) && k1 != k2
    requires (c1.Some? ==> c1.value.prefix == k1) && (c2.Some? ==> c2.value.prefix == k2)
    requires Answers(WithScope(WithScope(s, k1, c1), k2, c2), uri, defeats, lower, a)
    requires Answers(WithScope(WithScope(s, k2, c2), k1, c1), uri, defeats, lower, b)
    ensures a == b
  {
    WithScopeEdits(s, k1, c1);
    WithScopeEdits(s, k2, c2);
    WithScopeEdits(WithScope(s, k1, c1), k2, c2);
    WithScopeEdits(WithScope(s, k2, c2), k1, c1);
    hide WithScope, Answers;
    AnswerIsUnique(WithScope(WithScope(s, k1, c1), k2, c2), WithScope(WithScope(s, k2, c2), k1, c1),
                   uri, defeats, lower, a, b);
  }
}

/**
 The string key of a cached recall, and the prefix test that finds the keys of one scope.

 The query goes into the key unescaped and may contain '|'; the four fields after it cannot, and the
 four before it do not when the scope is pipe-free, so the key still parses from both ends.
 */
module RecallKeys {
  import opened Scopes

  datatype RecallRequest = RecallRequest(
    query: string,
    topK: int,
    tokenBudget: int,
    memoryTokenBudget: int,
    allowStaleCache: bool,
    consistencyLevel: string)

  /** The part of a request that its cache key is meant to pin down. */
  datatype KeyFields = KeyFields(
    query: string, topK: int, tokenBudget: int, memoryTokenBudget: int, allowStaleCache: bool)

  const DEFAULT_TOP_K := 8
  const MAX_TOP_K := 50

  /** The characters that count as space to `strings.TrimSpace`. */
  predicate IsSpace(c: char) {
    c in {'\t', '\n', '\U{B}', '\U{C}', '\r', ' ', '\U{85}', '\U{A0}', '\U{1680}', '\U{2028}', '\U{2029}',
          '\U{202F}', '\U{205F}', '\U{3000}'}
    || '\U{2000}' <= c <= '\U{200A}'
  }

  function TrimSpace(s: string): string
  {
    if s == "" then ""
    else if IsSpace(s[0]) then TrimSpace(s[1..])
    else if IsSpace(s[|s| - 1]) then TrimSpace(s[..|s| - 1])
    else s
  }

  function FieldsOf(r: RecallRequest): KeyFields
  {
    KeyFields(TrimSpace(r.query), if r.topK == 0 then DEFAULT_TOP_K else r.topK, r.tokenBudget, r.memoryTokenBudget,
              r.allowStaleCache)
  }

  function Digits(n: nat): string
  {
    if n < 10 then [('0' as int + n) as char] else Digits(n / 10) + [('0' as int + n % 10) as char]
  }

  function Decimal(n: int): string
  {
    if n < 0 then "-" + Digits(-n) else Digits(n)
  }

  function Bool(b: bool): string
  {
    if b then "true" else "false"
  }

  function ScopePrefix(s: Scope): string
  {
    ScopeKey(s) + "|"
  }

  /** The four fields after the query, each behind its separator. */
  function Suffix(f: KeyFields): string
  {
    "|" + Decimal(f.topK) + "|" + Decimal(f.tokenBudget) + "|" + Decimal(f.memoryTokenBudget) + "|" +
    Bool(f.allowStaleCache)
  }

  function Tail(f: KeyFields): string
  {
    f.query + Suffix(f)
  }

  function BuildRecallCacheKey(s: Scope, r: RecallRequest): string
  {
    ScopePrefix(s) + Tail(FieldsOf(r))
  }

  predicate HasScopePrefix(key: string, s: Scope)
  {
    ScopePrefix(s) <= key
  }

  /** Reads a decimal rendering back. */
  function DigitsValue(s: string): int
  {
    if s == "" then 0 else 10 * DigitsValue(s[..|s| - 1]) + (s[|s| - 1] as int - '0' as int)
  }

  lemma {:induction false} DigitsRoundTrip(n: nat)
    ensures DigitsValue(Digits(n)) == n
    ensures Digits(n) != "" && forall i :: 0 <= i < |Digits(n)| ==> '0' <= Digits(n)[i] <= '9'
  {
    if n >= 10 {
      DigitsRoundTrip(n / 10);
      assert Digits(n)[..|Digits(n)| - 1] == Digits(n / 10);
    } else {
      assert Digits(n)[..0] == "";
    }
  }

  lemma DecimalInjective(m: int, n: int)
    ensures '|' !in Decimal(m)
    ensures Decimal(m) == Decimal(n) ==> m == n
  {
    DigitsRoundTrip(if m < 0 then -m else m);
    DigitsRoundTrip(if n < 0 then -n else n);
    if Decimal(m) == Decimal(n) {
      assert Digits(if m < 0 then -m else m)[0] != '-' && Digits(if n < 0 then -n else n)[0] != '-';
      if m < 0 {
        assert Digits(-m) == Decimal(m)[1..] && Digits(-n) == Decimal(n)[1..];
      }
    }
  }

  /** The last '|' splits a string in one way only. */
  lemma LastPipeSplits(a: string, x: string, b: string, y: string)
    requires '|' !in x && '|' !in y
    requires a + "|" + x == b + "|" + y
    ensures a == b && x == y
  {
    var l, r := a + "|" + x, b + "|" + y;
    assert l[|a|] == '|' && r[|b|] == '|';
    assert forall k :: |a| < k < |l| ==> l[k] == x[k - |a| - 1] != '|';
    assert forall k :: |b| < k < |r| ==> r[k] == y[k - |b| - 1] != '|';
    assert a == l[..|a|] && b == r[..|b|];
    assert x == l[|a| + 1..] && y == r[|b| + 1..];
  }

  lemma RegroupBehind(p: string, x: string, y: string)
    ensures p + (x + "|" + y) == (p + x) + "|" + y
  {
  }

  /** The last field behind its separator splits off in one way only. */
  lemma LastFieldSplits(p: string, x: string, y: string, p': string, x': string, y': string)
    requires '|' !in y && '|' !in y'
    requires p + (x + "|" + y) == p' + (x' + "|" + y')
    ensures p + x == p' + x' && y == y'
  {
    RegroupBehind(p, x, y);
    RegroupBehind(p', x', y');
    LastPipeSplits(p + x, y, p' + x', y');
  }

  /** The four fields parse from the end, whatever text is in front of them. */
  lemma SuffixParses(p: string, f: KeyFields, p': string, g: KeyFields)
    requires p + Suffix(f) == p' + Suffix(g)
    ensures p == p' && f == g.(query := f.query)
  {
    DecimalInjective(f.topK, g.topK);
    DecimalInjective(f.tokenBudget, g.tokenBudget);
    DecimalInjective(f.memoryTokenBudget, g.memoryTokenBudget);
    DecimalInjective(g.topK, f.topK);
    DecimalInjective(g.tokenBudget, f.tokenBudget);
    DecimalInjective(g.memoryTokenBudget, f.memoryTokenBudget);
    var x1, y1 := "|" + Decimal(f.topK), "|" + Decimal(g.topK);
    var x2, y2 := x1 + "|" + Decimal(f.tokenBudget), y1 + "|" + Decimal(g.tokenBudget);
    var x3, y3 := x2 + "|" + Decimal(f.memoryTokenBudget), y2 + "|" + Decimal(g.memoryTokenBudget);
    LastFieldSplits(p, x3, Bool(f.allowStaleCache), p', y3, Bool(g.allowStaleCache));
    LastFieldSplits(p, x2, Decimal(f.memoryTokenBudget), p', y2, Decimal(g.memoryTokenBudget));
    LastFieldSplits(p, x1, Decimal(f.tokenBudget), p', y1, Decimal(g.tokenBudget));
    assert x1 == "" + "|" + Decimal(f.topK) && y1 == "" + "|" + Decimal(g.topK);
    LastFieldSplits(p, "", Decimal(f.topK), p', "", Decimal(g.topK));
    assert p + "" == p && p' + "" == p';
  }

  lemma TailInjective(f: KeyFields, g: KeyFields)
    requires Tail(f) == Tail(g)
    ensures f == g
  {
    SuffixParses(f.query, f, g.query, g);
  }

  /** The scope part is delimited: two pipe-free prefixes that start the same text are the same prefix. */
  lemma PrefixDelimits(s: Scope, x: string, s': Scope, x': string)
    requires PipeFree(s) && PipeFree(s')
    requires ScopePrefix(s) + x == ScopePrefix(s') + x'
    ensures s == s' && x == x'
  {
    var c, c' := s.sessionId + "|" + x, s'.sessionId + "|" + x';
    var b, b' := s.projectId + "|" + c, s'.projectId + "|" + c';
    var a, a' := s.userId + "|" + b, s'.userId + "|" + b';
    assert ScopePrefix(s) + x == s.tenantId + "|" + a;
    assert ScopePrefix(s') + x' == s'.tenantId + "|" + a';
    FirstPipeSplits(s.tenantId, a, s'.tenantId, a');
    FirstPipeSplits(s.userId, b, s'.userId, b');
    FirstPipeSplits(s.projectId, c, s'.projectId, c');
    FirstPipeSplits(s.sessionId, x, s'.sessionId, x');
  }

  /** Between pipe-free scopes a key determines the scope and every normalised request field, and nothing else. */
  lemma CacheKeyIdentifies(s: Scope, r: RecallRequest, s': Scope, r': RecallRequest)
    requires PipeFree(s) && PipeFree(s')
    ensures BuildRecallCacheKey(s, r) == BuildRecallCacheKey(s', r') <==> s == s' && FieldsOf(r) == FieldsOf(r')
  {
    if BuildRecallCacheKey(s, r) == BuildRecallCacheKey(s', r') {
      PrefixDelimits(s, Tail(FieldsOf(r)), s', Tail(FieldsOf(r')));
      TailInjective(FieldsOf(r), FieldsOf(r'));
    }
  }

  /** Between pipe-free scopes the prefix test accepts a key exactly when the key is that scope's own. */
  lemma PrefixTestExact(s: Scope, s': Scope, r: RecallRequest)
    requires PipeFree(s) && PipeFree(s')
    ensures HasScopePrefix(BuildRecallCacheKey(s', r), s) <==> s' == s
  {
    var key := BuildRecallCacheKey(s', r);
    if HasScopePrefix(key, s) {
      assert key == ScopePrefix(s) + key[|ScopePrefix(s)|..];
      PrefixDelimits(s', Tail(FieldsOf(r)), s, key[|ScopePrefix(s)|..]);
    }
  }

  // When the key of one request belongs to one scope.

  /** The handler refuses a blank query and a top-k outside its range, before it builds a key. */
  predicate Accepted(r: RecallRequest)
  {
    TrimSpace(r.query) != "" && 0 <= r.topK <= MAX_TOP_K
  }

  /** No scope but `s`, whatever its request, builds the key of this request. */
  ghost predicate KeyOwned(s: Scope, r: RecallRequest)
  {
    forall s', r' :: BuildRecallCacheKey(s', r') == BuildRecallCacheKey(s, r) ==> s' == s
  }

  /** No scope but `s` builds it for a request that the handler accepts. */
  ghost predicate KeyOwnedInUse(s: Scope, r: RecallRequest)
  {
    forall s', r' :: Accepted(r') && BuildRecallCacheKey(s', r') == BuildRecallCacheKey(s, r) ==> s' == s
  }

  /** The text after `query[i]` is a query of its own: trimming leaves it as it is. */
  predicate SplitsAt(query: string, i: nat)
  {
    i < |query| && query[i] == '|' && (i + 1 == |query| || !IsSpace(query[i + 1]))
  }

  /** Every '|' of the query is followed by a space. */
  predicate PipesSpaced(query: string)
  {
    forall i: nat :: i < |query| ==> !SplitsAt(query, i)
  }

  /** Every '|' but a last one is followed by a space. */
  predicate InnerPipesSpaced(query: string)
  {
    forall i: nat :: i < |query| && SplitsAt(query, i) ==> i + 1 == |query|
  }

  lemma {:induction false} TrimEnds(q: string)
    ensures TrimSpace(q) != "" ==> !IsSpace(TrimSpace(q)[0]) && !IsSpace(TrimSpace(q)[|TrimSpace(q)| - 1])
  {
    if q != "" && IsSpace(q[0]) {
      TrimEnds(q[1..]);
    } else if q != "" && IsSpace(q[|q| - 1]) {
      TrimEnds(q[..|q| - 1]);
    }
  }

  /** What is cut off at either end is space. */
  lemma {:induction false} TrimCutsSpace(q: string) returns (i: nat, j: nat)
    ensures i <= j <= |q| && TrimSpace(q) == q[i..j]
    ensures forall k :: 0 <= k < i || j <= k < |q| ==> IsSpace(q[k])
  {
    if q == "" {
      i, j := 0, 0;
    } else if IsSpace(q[0]) {
      i, j := TrimCutsSpace(q[1..]);
      assert forall k :: 0 < k < |q| ==> q[k] == q[1..][k - 1];
      assert q[1..][i..j] == q[i + 1..j + 1];
      i, j := i + 1, j + 1;
    } else if IsSpace(q[|q| - 1]) {
      i, j := TrimCutsSpace(q[..|q| - 1]);
      assert forall k :: 0 <= k < |q| - 1 ==> q[k] == q[..|q| - 1][k];
      assert q[..|q| - 1][i..j] == q[i..j];
    } else {
      i, j := 0, |q|;
    }
  }

  lemma {:induction false} TrimKeeps(q: string)
    requires q != "" ==> !IsSpace(q[0]) && !IsSpace(q[|q| - 1])
    ensures TrimSpace(q) == q
  {
  }

  lemma KeyIsPrefixQuerySuffix(s: Scope, r: RecallRequest)
    ensures BuildRecallCacheKey(s, r) == (ScopePrefix(s) + TrimSpace(r.query)) + Suffix(FieldsOf(r))
  {
  }

  /** Two requests with one key agree on the scope and the query taken together. */
  lemma KeyParses(s: Scope, r: RecallRequest, s': Scope, r': RecallRequest)
    requires BuildRecallCacheKey(s, r) == BuildRecallCacheKey(s', r')
    ensures ScopePrefix(s) + TrimSpace(r.query) == ScopePrefix(s') + TrimSpace(r'.query)
  {
    KeyIsPrefixQuerySuffix(s, r);
    KeyIsPrefixQuerySuffix(s', r');
    SuffixParses(ScopePrefix(s) + TrimSpace(r.query), FieldsOf(r), ScopePrefix(s') + TrimSpace(r'.query), FieldsOf(r'));
  }

  /** Whatever the scopes, requests with one key have the same budgets and limits. */
  lemma SameKeySameBudget(s: Scope, r: RecallRequest, s': Scope, r': RecallRequest)
    requires BuildRecallCacheKey(s, r) == BuildRecallCacheKey(s', r')
    ensures FieldsOf(r').(query := FieldsOf(r).query) == FieldsOf(r)
  {
    KeyIsPrefixQuerySuffix(s, r);
    KeyIsPrefixQuerySuffix(s', r');
    SuffixParses(ScopePrefix(s) + TrimSpace(r.query), FieldsOf(r), ScopePrefix(s') + TrimSpace(r'.query), FieldsOf(r'));
  }

  lemma AtLeastThreePipes(s: Scope)
    ensures multiset(ScopeKey(s))['|'] >= 3
  {
    PipesAdd(s.tenantId, s.userId);
    PipesAdd(s.tenantId + "|" + s.userId, s.projectId);
    PipesAdd(s.tenantId + "|" + s.userId + "|" + s.projectId, s.sessionId);
  }

  /** A scope whose key is cut shorter than a pipe-free one's has too many pipes to fit in it. */
  lemma NoShorterPrefix(s: Scope, s': Scope, x: string, x': string)
    requires PipeFree(s) && ScopeKey(s) + "|" + x == ScopeKey(s') + "|" + x'
    ensures |ScopeKey(s)| <= |ScopeKey(s')|
  {
    var k, k' := ScopeKey(s), ScopeKey(s');
    if |k'| < |k| {
      var whole := k + "|" + x;
      assert k == whole[..|k|] && k' + "|" == whole[..|k'| + 1];
      assert k == k' + "|" + k[|k'| + 1..];
      PipesAdd(k', k[|k'| + 1..]);
      PipesInKey(s);
      AtLeastThreePipes(s');
      assert false;
    }
  }

  lemma LongerPrefixSplits(k: string, q: string, k': string, q': string)
    requires k + "|" + q == k' + "|" + q' && |k| <= |k'| && k != k'
    ensures |k| < |k'| && var i := |k'| - |k| - 1; i < |q| && q[i] == '|' && q' == q[i + 1..]
  {
    var whole, i := k + "|" + q, |k'| - |k| - 1;
    assert k == whole[..|k|] && k' == whole[..|k'|];
    assert whole[|k'|] == '|' && q' == whole[|k'| + 1..];
    assert q == whole[|k| + 1..];
    assert q[i] == whole[|k'|] && q[i + 1..] == whole[|k'| + 1..];
  }

  /** Another scope's key for a pipe-free one's request: its query is what follows a pipe of the request's query. */
  lemma ForeignKeySplits(s: Scope, r: RecallRequest, s': Scope, r': RecallRequest)
    requires PipeFree(s) && s' != s && BuildRecallCacheKey(s', r') == BuildRecallCacheKey(s, r)
    ensures exists i: nat :: SplitsAt(TrimSpace(r.query), i) && TrimSpace(r'.query) == TrimSpace(r.query)[i + 1..]
  {
    var k, k', q, q' := ScopeKey(s), ScopeKey(s'), TrimSpace(r.query), TrimSpace(r'.query);
    KeyParses(s, r, s', r');
    NoShorterPrefix(s, s', q, q');
    ScopeKeyUnique(s);
    LongerPrefixSplits(k, q, k', q');
    TrimEnds(r'.query);
    assert SplitsAt(q, |k'| - |k| - 1);
  }

  /** Moves the query up to an unspaced pipe into the session: another scope's request with the same key. */
  lemma UnspacedPipeCollides(s: Scope, r: RecallRequest, i: nat)
    requires SplitsAt(TrimSpace(r.query), i)
    ensures var q := TrimSpace(r.query);
            var s', r' := s.(sessionId := s.sessionId + "|" + q[..i]), r.(query := q[i + 1..]);
            && s' != s && BuildRecallCacheKey(s', r') == BuildRecallCacheKey(s, r)
            && (Accepted(r) && i + 1 < |q| ==> Accepted(r'))
  {
    var q := TrimSpace(r.query);
    var s', r' := s.(sessionId := s.sessionId + "|" + q[..i]), r.(query := q[i + 1..]);
    TrimEnds(r.query);
    TrimKeeps(q[i + 1..]);
    assert q == q[..i] + "|" + q[i + 1..];
    assert ScopePrefix(s') == ScopePrefix(s) + (q[..i] + "|");
    assert ScopePrefix(s') + q[i + 1..] == ScopePrefix(s) + q;
    assert Suffix(FieldsOf(r')) == Suffix(FieldsOf(r));
    KeyIsPrefixQuerySuffix(s, r);
    KeyIsPrefixQuerySuffix(s', r');
    assert |s'.sessionId| > |s.sessionId|;
  }

  lemma ShiftedSharesKey(s: Scope, r: RecallRequest)
    requires !PipeFree(s)
    ensures Shifted(s) != s && BuildRecallCacheKey(Shifted(s), r) == BuildRecallCacheKey(s, r)
  {
    ShiftedCollides(s);
  }

  /**
   The key of a request belongs to its scope alone exactly when the scope is pipe-free and every '|' of the
   trimmed query is followed by a space: no other '|' could end the session of another scope.
   */
  lemma CacheKeyOwnedByOneScope(s: Scope, r: RecallRequest)
    ensures KeyOwned(s, r) <==> PipeFree(s) && PipesSpaced(TrimSpace(r.query))
  {
    if !PipeFree(s) {
      ShiftedSharesKey(s, r);
    } else if !PipesSpaced(TrimSpace(r.query)) {
      var i: nat :| SplitsAt(TrimSpace(r.query), i);
      UnspacedPipeCollides(s, r, i);
    } else {
      forall s', r' | BuildRecallCacheKey(s', r') == BuildRecallCacheKey(s, r)
        ensures s' == s
      {
        if s' != s {
          ForeignKeySplits(s, r, s', r');
        }
      }
    }
  }

  /**
   Among the requests that the handler accepts, a last '|' does no harm: what follows it is blank, and a blank
   query is refused.
   */
  lemma CacheKeyOwnedInUse(s: Scope, r: RecallRequest)
    requires Accepted(r)
    ensures KeyOwnedInUse(s, r) <==> PipeFree(s) && InnerPipesSpaced(TrimSpace(r.query))
  {
    if !PipeFree(s) {
      ShiftedSharesKey(s, r);
    } else if !InnerPipesSpaced(TrimSpace(r.query)) {
      var i: nat :| SplitsAt(TrimSpace(r.query), i) && i + 1 != |TrimSpace(r.query)|;
      UnspacedPipeCollides(s, r, i);
    } else {
      forall s', r' | Accepted(r') && BuildRecallCacheKey(s', r') == BuildRecallCacheKey(s, r)
        ensures s' == s
      {
        if s' != s {
          ForeignKeySplits(s, r, s', r');
        }
      }
    }
  }

  lemma SameScopeSameFields(s: Scope, r: RecallRequest, r': RecallRequest)
    requires BuildRecallCacheKey(s, r') == BuildRecallCacheKey(s, r)
    ensures FieldsOf(r') == FieldsOf(r)
  {
    var k, p := BuildRecallCacheKey(s, r), ScopePrefix(s);
    assert Tail(FieldsOf(r)) == k[|p|..] == Tail(FieldsOf(r'));
    TailInjective(FieldsOf(r), FieldsOf(r'));
  }

  /** The smallest case: a pipe-free scope asking for "a|q" and another asking for "q". */
  lemma PipeFreeScopeSharesKey(r: RecallRequest)
    ensures var s, s' := Scope("t", "u", "p", "x"), Scope("t", "u", "p", "x|a");
            PipeFree(s) && s' != s
              && BuildRecallCacheKey(s, r.(query := "a|q")) == BuildRecallCacheKey(s', r.(query := "q"))
  {
    var s, q := Scope("t", "u", "p", "x"), r.(query := "a|q");
    TrimKeeps("a|q");
    assert SplitsAt("a|q", 1);
    UnspacedPipeCollides(s, q, 1);
    assert "a|q"[..1] == "a" && "a|q"[2..] == "q" && "x" + "|" + "a" == "x|a";
  }

  ghost predicate CatchesEveryKeyOf(s: Scope, s': Scope)
  {
    forall r :: HasScopePrefix(BuildRecallCacheKey(s', r), s)
  }

  /** The other scope has to be pipe-free too: invalidating any scope also catches keys of a scope with a pipe. */
  lemma ForeignKeysCaught(s: Scope)
    ensures exists s' :: s' != s && CatchesEveryKeyOf(s, s')
  {
    var s' := Scope(s.tenantId + "|" + s.userId, s.projectId, s.sessionId, "");
    assert |s'.tenantId| > |s.tenantId|;
    forall r
      ensures HasScopePrefix(BuildRecallCacheKey(s', r), s)
    {
      assert ScopePrefix(s') == ScopePrefix(s) + "|";
      assert BuildRecallCacheKey(s', r) == ScopePrefix(s) + ("|" + Tail(FieldsOf(r)));
    }
    assert CatchesEveryKeyOf(s, s') && s' != s;
  }
}

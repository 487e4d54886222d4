/**
 Tenant scopes and the string under which a scope's session state and version token are stored.

 `ScopeKey` joins the four fields with '|' and escapes nothing, so two scopes can share a key.
 The module settles exactly which scopes have a key of their own.
 */
module Scopes {

  datatype Scope = Scope(tenantId: string, userId: string, projectId: string, sessionId: string)

  function ScopeKey(s: Scope): string
  {
    s.tenantId + "|" + s.userId + "|" + s.projectId + "|" + s.sessionId
  }

  predicate PipeFree(s: Scope)
  {
    '|' !in s.tenantId && '|' !in s.userId && '|' !in s.projectId && '|' !in s.sessionId
  }

  /** The first '|' splits a string in one way only. */
  lemma FirstPipeSplits(a: string, x: string, b: string, y: string)
    requires '|' !in a && '|' !in b
    requires a + "|" + x == b + "|" + y
    ensures a == b && x == y
  {
    var l, r := a + "|" + x, b + "|" + y;
    assert l[|a|] == '|' && r[|b|] == '|';
    assert forall k :: 0 <= k < |a| ==> l[k] == a[k] != '|';
    assert forall k :: 0 <= k < |b| ==> r[k] == b[k] != '|';
    assert a == l[..|a|] && b == r[..|b|];
    assert x == l[|a| + 1..] && y == r[|b| + 1..];
  }

  lemma ScopeKeyInjective(s: Scope, s': Scope)
    requires PipeFree(s) && PipeFree(s')
    requires ScopeKey(s) == ScopeKey(s')
    ensures s == s'
  {
    var x, x' := s.userId + "|" + s.projectId + "|" + s.sessionId, s'.userId + "|" + s'.projectId + "|" + s'.sessionId;
    assert ScopeKey(s) == s.tenantId + "|" + x && ScopeKey(s') == s'.tenantId + "|" + x';
    FirstPipeSplits(s.tenantId, x, s'.tenantId, x');
    var y, y' := s.projectId + "|" + s.sessionId, s'.projectId + "|" + s'.sessionId;
    assert x == s.userId + "|" + y && x' == s'.userId + "|" + y';
    FirstPipeSplits(s.userId, y, s'.userId, y');
    FirstPipeSplits(s.projectId, s.sessionId, s'.projectId, s'.sessionId);
  }

  lemma PipesAdd(a: string, b: string)
    ensures multiset(a + "|" + b)['|'] == multiset(a)['|'] + 1 + multiset(b)['|']
  {
    assert multiset(a + "|" + b) == multiset(a) + multiset{'|'} + multiset(b);
  }

  /** A key holds the three separators and nothing else that is a pipe, exactly when no field has one. */
  lemma PipesInKey(s: Scope)
    ensures PipeFree(s) <==> multiset(ScopeKey(s))['|'] == 3
  {
    PipesAdd(s.tenantId, s.userId);
    PipesAdd(s.tenantId + "|" + s.userId, s.projectId);
    PipesAdd(s.tenantId + "|" + s.userId + "|" + s.projectId, s.sessionId);
    assert forall f: string :: '|' in f <==> multiset(f)['|'] > 0;
  }

  function IndexOfPipe(a: string): (i: nat)
    requires '|' in a
    ensures i < |a| && a[i] == '|'
  {
    if a[0] == '|' then 0 else 1 + IndexOfPipe(a[1..])
  }

  /** Reads the separators one pipe earlier, or the first one later: another scope with the same key. */
  function Shifted(s: Scope): Scope
    requires !PipeFree(s)
  {
    if '|' in s.tenantId then
      var i := IndexOfPipe(s.tenantId);
      Scope(s.tenantId[..i], s.tenantId[i + 1..], s.userId, s.projectId + "|" + s.sessionId)
    else if '|' in s.userId then
      var i := IndexOfPipe(s.userId);
      Scope(s.tenantId, s.userId[..i], s.userId[i + 1..], s.projectId + "|" + s.sessionId)
    else if '|' in s.projectId then
      var i := IndexOfPipe(s.projectId);
      Scope(s.tenantId, s.userId, s.projectId[..i], s.projectId[i + 1..] + "|" + s.sessionId)
    else
      var i := IndexOfPipe(s.sessionId);
      Scope(s.tenantId, s.userId, s.projectId + "|" + s.sessionId[..i], s.sessionId[i + 1..])
  }

  lemma Regroup(a: string, b: string, c: string)
    ensures a + "|" + (b + "|" + c) == a + "|" + b + "|" + c
  {
  }

  lemma CutAtPipe(f: string)
    requires '|' in f
    ensures f == f[..IndexOfPipe(f)] + "|" + f[IndexOfPipe(f) + 1..]
  {
  }

  lemma ShiftedCollides(s: Scope)
    requires !PipeFree(s)
    ensures Shifted(s) != s && ScopeKey(Shifted(s)) == ScopeKey(s)
  {
    var f := if '|' in s.tenantId then s.tenantId else if '|' in s.userId then s.userId
             else if '|' in s.projectId then s.projectId else s.sessionId;
    var h, w := f[..IndexOfPipe(f)], f[IndexOfPipe(f) + 1..];
    CutAtPipe(f);
    if '|' in s.tenantId {
      Regroup(h + "|" + w + "|" + s.userId, s.projectId, s.sessionId);
      assert |h| < |s.tenantId|;
    } else if '|' in s.userId {
      Regroup(s.tenantId, h, w);
      Regroup(s.tenantId + "|" + h + "|" + w, s.projectId, s.sessionId);
      assert |h| < |s.userId|;
    } else if '|' in s.projectId {
      Regroup(s.tenantId + "|" + s.userId, h, w);
      Regroup(s.tenantId + "|" + s.userId + "|" + h, w, s.sessionId);
      assert |h| < |s.projectId|;
    } else {
      Regroup(s.tenantId + "|" + s.userId, s.projectId, h);
      Regroup(s.tenantId + "|" + s.userId + "|" + s.projectId, h, w);
      assert |w| < |s.sessionId|;
    }
  }

  /** A scope shares its key with no other scope exactly when none of its fields contains '|'. */
  lemma ScopeKeyUnique(s: Scope)
    ensures (forall s' :: ScopeKey(s') == ScopeKey(s) ==> s' == s) <==> PipeFree(s)
  {
    if PipeFree(s) {
      forall s' | ScopeKey(s') == ScopeKey(s)
        ensures s' == s
      {
        PipesInKey(s);
        PipesInKey(s');
        ScopeKeyInjective(s, s');
      }
    } else {
      ShiftedCollides(s);
    }
  }

  // Sessions: only scopes that name a session are closed or kept alive.

  /** The one pipe in the scope ends its session id. */
  predicate OnlyPipeEndsSession(s: Scope)
  {
    s.sessionId != "" && s.sessionId[|s.sessionId| - 1] == '|'
      && PipeFree(s.(sessionId := s.sessionId[..|s.sessionId| - 1]))
  }

  /** No other scope that names a session has this scope's key. */
  ghost predicate SessionOwned(s: Scope)
  {
    forall t :: ScopeKey(t) == ScopeKey(s) && t.sessionId != "" ==> t == s
  }

  lemma DropLast(s: Scope)
    requires s.sessionId != ""
    ensures var front := s.(sessionId := s.sessionId[..|s.sessionId| - 1]);
            ScopeKey(front) == ScopeKey(s)[..|ScopeKey(s)| - 1]
            && ScopeKey(s)[|ScopeKey(s)| - 1] == s.sessionId[|s.sessionId| - 1]
  {
  }

  lemma EndingPipeKeepsSessionOwned(s: Scope, t: Scope)
    requires OnlyPipeEndsSession(s) && ScopeKey(t) == ScopeKey(s) && t.sessionId != ""
    ensures t == s
  {
    DropLast(s);
    DropLast(t);
    var s', t' := s.(sessionId := s.sessionId[..|s.sessionId| - 1]), t.(sessionId := t.sessionId[..|t.sessionId| - 1]);
    ScopeKeyUnique(s');
    assert s.sessionId == s'.sessionId + "|" && t.sessionId == t'.sessionId + "|";
  }

  lemma ShiftedNamesSession(s: Scope)
    requires !PipeFree(s) && !OnlyPipeEndsSession(s)
    ensures Shifted(s).sessionId != ""
  {
    if '|' !in s.tenantId && '|' !in s.userId && '|' !in s.projectId {
      FirstPipeIsFirst(s.sessionId);
    }
  }

  lemma {:induction false} FirstPipeIsFirst(a: string)
    requires '|' in a
    ensures '|' !in a[..IndexOfPipe(a)] && (IndexOfPipe(a) == |a| - 1 ==> '|' !in a[..|a| - 1])
  {
    if a[0] != '|' {
      FirstPipeIsFirst(a[1..]);
      assert a[..IndexOfPipe(a)] == [a[0]] + a[1..][..IndexOfPipe(a[1..])];
    }
  }

  /** A session key belongs to one session exactly when the scope is pipe-free or its one pipe ends the session id. */
  lemma SessionOwnedExactly(s: Scope)
    ensures SessionOwned(s) <==> PipeFree(s) || OnlyPipeEndsSession(s)
  {
    if PipeFree(s) {
      ScopeKeyUnique(s);
    } else if OnlyPipeEndsSession(s) {
      forall t | ScopeKey(t) == ScopeKey(s) && t.sessionId != ""
        ensures t == s
      {
        EndingPipeKeepsSessionOwned(s, t);
      }
    } else {
      ShiftedCollides(s);
      ShiftedNamesSession(s);
    }
  }
}

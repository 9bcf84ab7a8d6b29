/** Which updates are rejected by configuration: matching of update paths against rejection paths. */
module Rejections {
  import opened Options

  /** A path element; an absent key map is not the same as an empty one. */
  datatype Elem = Elem(name: string, key: Option<map<string, string>>)

  type Path = seq<Elem>

  predicate KeysMatch(key: map<string, string>, wanted: map<string, string>) {
    forall k <- wanted :: k in key && key[k] == wanted[k]
  }

  predicate ElemMatches(elem: Elem, wanted: Elem) {
    && elem.name == wanted.name
    && (wanted.key.Some? ==> elem.key.Some? && KeysMatch(elem.key.value, wanted.key.value))
  }

  /** Every element of `toMatch` is found at its place in `path`. */
  predicate Matches(path: Path, toMatch: Path) {
    |toMatch| <= |path| && forall i :: 0 <= i < |toMatch| ==> ElemMatches(path[i], toMatch[i])
  }

  method MatchPath(path: Path, toMatch: Path) returns (matched: bool)
    ensures matched <==> Matches(path, toMatch)
    ensures matched <==>
      && |toMatch| <= |path|
      && forall i :: 0 <= i < |toMatch| ==>
           && path[i].name == toMatch[i].name
           && (toMatch[i].key.Some? ==>
                 && path[i].key.Some?
                 && forall k <- toMatch[i].key.value ::
                      k in path[i].key.value && path[i].key.value[k] == toMatch[i].key.value[k])
  {
    if |path| < |toMatch| {
      return false;
    }
    for i := 0 to |toMatch|
      invariant forall j :: 0 <= j < i ==> ElemMatches(path[j], toMatch[j])
    {
      var elem := toMatch[i];
      if path[i].name != elem.name {
        return false;
      }
      if elem.key.Some? {
        if path[i].key.None? {
          return false;
        }
        var rest := elem.key.value.Keys;
        while rest != {}
          invariant rest <= elem.key.value.Keys
          invariant forall k <- elem.key.value :: k in rest || (k in path[i].key.value && path[i].key.value[k] == elem.key.value[k])
        {
          var k :| k in rest;
          rest := rest - {k};
          if k !in path[i].key.value || elem.key.value[k] != path[i].key.value[k] {
            return false;
          }
        }
      }
    }
    return true;
  }

  predicate Rejected(updates: seq<Path>, rejections: seq<Path>) {
    exists u <- updates, r <- rejections :: Matches(u, r)
  }

  method RejectUpdate(updates: seq<Path>, rejections: seq<Path>) returns (rejected: bool)
    ensures rejected <==> Rejected(updates, rejections)
    ensures rejected <==> exists u <- updates, r <- rejections :: Matches(u, r)
  {
    for i := 0 to |updates|
      invariant forall k, r <- rejections :: 0 <= k < i ==> !Matches(updates[k], r)
    {
      for j := 0 to |rejections|
        invariant forall k :: 0 <= k < j ==> !Matches(updates[i], rejections[k])
      {
        var matched := MatchPath(updates[i], rejections[j]);
        if matched {
          assert updates[i] in updates && rejections[j] in rejections;
          return true;
        }
      }
    }
    return false;
  }

  // ----- matching is a partial order, and extending a path keeps its matches -----

  lemma MatchIsReflexive(p: Path)
    ensures Matches(p, p)
  {
  }

  lemma MatchIsTransitive(p: Path, q: Path, r: Path)
    requires Matches(p, q) && Matches(q, r)
    ensures Matches(p, r)
  {
    forall i | 0 <= i < |r|
      ensures ElemMatches(p[i], r[i])
    {
      assert ElemMatches(p[i], q[i]) && ElemMatches(q[i], r[i]);
    }
  }

  lemma MatchIsAntisymmetric(p: Path, q: Path)
    requires Matches(p, q) && Matches(q, p)
    ensures p == q
  {
    forall i | 0 <= i < |p|
      ensures p[i] == q[i]
    {
      assert ElemMatches(p[i], q[i]) && ElemMatches(q[i], p[i]);
      if p[i].key.Some? {
        assert p[i].key.value.Keys == q[i].key.value.Keys;
        assert p[i].key.value == q[i].key.value;
      }
    }
  }

  lemma MatchSurvivesExtension(p: Path, more: Path, q: Path)
    requires Matches(p, q)
    ensures Matches(p + more, q)
  {
    forall i | 0 <= i < |q|
      ensures ElemMatches((p + more)[i], q[i])
    {
      assert ElemMatches(p[i], q[i]);
    }
  }

  /** Dropping a rejection path changes nothing, for any update, exactly when another one covers it. */
  lemma RedundantIffCovered(rejections: seq<Path>, extra: Path)
    ensures (forall updates :: Rejected(updates, rejections + [extra]) <==> Rejected(updates, rejections))
      <==> exists r <- rejections :: Matches(extra, r)
  {
    if exists r <- rejections :: Matches(extra, r) {
      var r :| r in rejections && Matches(extra, r);
      forall updates
        ensures Rejected(updates, rejections + [extra]) <==> Rejected(updates, rejections)
      {
        if Rejected(updates, rejections + [extra]) {
          var u, q :| u in updates && q in rejections + [extra] && Matches(u, q);
          if q == extra {
            MatchIsTransitive(u, extra, r);
          }
        }
        forall u <- updates, q <- rejections | Matches(u, q)
          ensures Rejected(updates, rejections + [extra])
        {
          assert q in rejections + [extra];
        }
      }
    } else {
      MatchIsReflexive(extra);
      assert extra in [extra] && extra in rejections + [extra];
      assert Rejected([extra], rejections + [extra]);
      assert !Rejected([extra], rejections);
    }
  }
}

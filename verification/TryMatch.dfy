/**
 The wildcard pattern matcher of the message type system: a recursive matcher whose cursor
 into the output slots remembers a single fallback position, although wildcards nest.
 */
module TryMatch {

  datatype Option<T> = None | Some(value: T)

  datatype MatchFun = MatchElement | MatchAtomConstant

  // One element of a pattern; `rtti` is absent for built-in types, which have a type number.
  datatype MetaElement = MetaElement(v: nat, typenr: nat, rtti: Option<string>, fun: MatchFun)

  // One element of a message; `atom` is its value when it is an atom.
  datatype Element = Element(typenr: nat, rtti: string, atom: nat)

  // The number of `atom_value` in the list of built-in types.
  const ATOM_TYPE_NR: nat := 5

  predicate IsWildcard(me: MetaElement) {
    me.typenr == 0 && me.rtti.None?
  }

  predicate HasType(e: Element, typenr: nat, rtti: Option<string>) {
    e.typenr == typenr && (e.typenr != 0 || rtti == Some(e.rtti))
  }

  predicate Accepts(me: MetaElement, e: Element) {
    match me.fun
    case MatchElement => HasType(e, me.typenr, me.rtti)
    case MatchAtomConstant => HasType(e, ATOM_TYPE_NR, None) && me.v == e.atom
  }

  predicate AllWild(pat: seq<MetaElement>, j: nat)
    requires j <= |pat|
  {
    forall k :: j <= k < |pat| ==> IsWildcard(pat[k])
  }

  // ----- what a match is -----

  // `lens` splits the message from position i on: pattern element k from j on takes the next
  // lens[k - j] elements, any number for a wildcard and exactly one accepted element otherwise.
  ghost predicate Splits(msg: seq<Element>, i: nat, pat: seq<MetaElement>, j: nat, lens: seq<nat>)
    requires j <= |pat|
    decreases |pat| - j
  {
    && |lens| == |pat| - j
    && if j == |pat| then i == |msg| else
         && i + lens[0] <= |msg|
         && (IsWildcard(pat[j]) || (lens[0] == 1 && Accepts(pat[j], msg[i])))
         && Splits(msg, i + lens[0], pat, j + 1, lens[1..])
  }

  ghost predicate Matches(msg: seq<Element>, i: nat, pat: seq<MetaElement>, j: nat)
    requires j <= |pat|
  {
    exists lens :: Splits(msg, i, pat, j, lens)
  }

  // Where a split puts the elements that are not wildcards.
  ghost function Positions(i: nat, pat: seq<MetaElement>, j: nat, lens: seq<nat>): seq<nat>
    requires j <= |pat| && |lens| == |pat| - j
    decreases |pat| - j
  {
    if j == |pat| then []
    else (if IsWildcard(pat[j]) then [] else [i]) + Positions(i + lens[0], pat, j + 1, lens[1..])
  }

  function Plain(pat: seq<MetaElement>, j: nat): seq<MetaElement>
    requires j <= |pat|
    decreases |pat| - j
  {
    if j == |pat| then []
    else (if IsWildcard(pat[j]) then [] else [pat[j]]) + Plain(pat, j + 1)
  }

  // Strictly increasing message positions whose elements match the plain pattern elements in order.
  ghost predicate Captures(msg: seq<Element>, plain: seq<MetaElement>, ps: seq<nat>) {
    && |ps| == |plain|
    && (forall a, b :: 0 <= a < b < |ps| ==> ps[a] < ps[b])
    && (forall a :: 0 <= a < |ps| ==> ps[a] < |msg| && Accepts(plain[a], msg[ps[a]]))
  }

  lemma {:induction false} SplitCaptures(msg: seq<Element>, i: nat, pat: seq<MetaElement>, j: nat, lens: seq<nat>)
    requires j <= |pat| && Splits(msg, i, pat, j, lens)
    ensures Captures(msg, Plain(pat, j), Positions(i, pat, j, lens))
    ensures forall a :: 0 <= a < |Positions(i, pat, j, lens)| ==> i <= Positions(i, pat, j, lens)[a]
    decreases |pat| - j
  {
    if j < |pat| {
      SplitCaptures(msg, i + lens[0], pat, j + 1, lens[1..]);
    }
  }

  // ----- which split is found -----

  predicate LexLe(a: seq<nat>, b: seq<nat>)
    requires |a| == |b|
  {
    a == [] || a[0] < b[0] || (a[0] == b[0] && LexLe(a[1..], b[1..]))
  }

  // Every wildcard takes as few elements as it can, the first one before all others.
  ghost predicate Least(msg: seq<Element>, i: nat, pat: seq<MetaElement>, j: nat, lens: seq<nat>)
    requires j <= |pat|
  {
    && Splits(msg, i, pat, j, lens)
    && forall other :: Splits(msg, i, pat, j, other) ==> LexLe(lens, other)
  }

  lemma {:induction false} LexLeBoth(a: seq<nat>, b: seq<nat>)
    requires |a| == |b| && LexLe(a, b) && LexLe(b, a)
    ensures a == b
  {
    if a != [] {
      LexLeBoth(a[1..], b[1..]);
      assert a == [a[0]] + a[1..] && b == [b[0]] + b[1..];
    }
  }

  // So the split that is found, and what it captures, is determined by message and pattern.
  lemma LeastIsUnique(msg: seq<Element>, i: nat, pat: seq<MetaElement>, j: nat, a: seq<nat>, b: seq<nat>)
    requires j <= |pat| && Least(msg, i, pat, j, a) && Least(msg, i, pat, j, b)
    ensures a == b
  {
    LexLeBoth(a, b);
  }

  lemma LeastPlain(msg: seq<Element>, i: nat, pat: seq<MetaElement>, j: nat, lens: seq<nat>)
    requires i < |msg| && j < |pat| && !IsWildcard(pat[j]) && Accepts(pat[j], msg[i])
    requires Least(msg, i + 1, pat, j + 1, lens)
    ensures Least(msg, i, pat, j, [1] + lens)
  {
    SplitPlain(msg, i, pat, j, lens);
    forall other | Splits(msg, i, pat, j, other) ensures LexLe([1] + lens, other) {
      assert Splits(msg, i + 1, pat, j + 1, other[1..]);
      assert ([1] + lens)[1..] == lens;
    }
  }

  lemma LeastWild(msg: seq<Element>, i: nat, pat: seq<MetaElement>, j: nat, next: nat, k: nat, lens: seq<nat>)
    requires j < |pat| && next == j + 1 && IsWildcard(pat[j]) && i <= k <= |msg| && Least(msg, k, pat, next, lens)
    requires forall l :: i <= l < k ==> !Matches(msg, l, pat, next)
    ensures Least(msg, i, pat, j, [k - i] + lens)
  {
    SplitWild(msg, i, pat, j, k, lens);
    forall other | Splits(msg, i, pat, j, other) ensures LexLe([k - i] + lens, other) {
      var l := i + other[0];
      assert Splits(msg, l, pat, next, other[1..]) && Matches(msg, l, pat, next);
      assert ([k - i] + lens)[1..] == lens;
    }
  }

  // There is one way only to split nothing.
  lemma {:induction false} EndSplit(msg: seq<Element>, pat: seq<MetaElement>, j: nat, a: seq<nat>, b: seq<nat>)
    requires j <= |pat| && Splits(msg, |msg|, pat, j, a) && Splits(msg, |msg|, pat, j, b)
    ensures LexLe(a, b)
    decreases |pat| - j
  {
    if j < |pat| {
      EndSplit(msg, pat, j + 1, a[1..], b[1..]);
    }
  }

  lemma EndIsLeast(msg: seq<Element>, pat: seq<MetaElement>, j: nat, lens: seq<nat>)
    requires j <= |pat| && Splits(msg, |msg|, pat, j, lens)
    ensures Least(msg, |msg|, pat, j, lens)
  {
    forall other | Splits(msg, |msg|, pat, j, other) ensures LexLe(lens, other) {
      EndSplit(msg, pat, j, lens, other);
    }
  }

  lemma LastWildIsLeast(msg: seq<Element>, i: nat, pat: seq<MetaElement>, j: nat)
    requires i <= |msg| && j < |pat| && IsWildcard(pat[j]) && j + 1 == |pat|
    ensures Least(msg, i, pat, j, [|msg| - i]) && Positions(i, pat, j, [|msg| - i]) == []
  {
    SplitWild(msg, i, pat, j, |msg|, []);
    assert [|msg| - i] + [] == [|msg| - i];
    forall other | Splits(msg, i, pat, j, other) ensures LexLe([|msg| - i], other) {
      assert Splits(msg, i + other[0], pat, j + 1, other[1..]);
    }
  }

  // ----- how Matches unfolds -----

  lemma MatchesPlain(msg: seq<Element>, i: nat, pat: seq<MetaElement>, j: nat)
    requires j < |pat| && !IsWildcard(pat[j])
    ensures Matches(msg, i, pat, j) <==> i < |msg| && Accepts(pat[j], msg[i]) && Matches(msg, i + 1, pat, j + 1)
  {
    if Matches(msg, i, pat, j) {
      var lens :| Splits(msg, i, pat, j, lens);
      assert Splits(msg, i + 1, pat, j + 1, lens[1..]);
    }
    if i < |msg| && Accepts(pat[j], msg[i]) && Matches(msg, i + 1, pat, j + 1) {
      var lens :| Splits(msg, i + 1, pat, j + 1, lens);
      SplitPlain(msg, i, pat, j, lens);
    }
  }

  lemma SplitWild(msg: seq<Element>, i: nat, pat: seq<MetaElement>, j: nat, k: nat, lens: seq<nat>)
    requires j < |pat| && IsWildcard(pat[j]) && i <= k <= |msg| && Splits(msg, k, pat, j + 1, lens)
    ensures Splits(msg, i, pat, j, [k - i] + lens)
    ensures Positions(i, pat, j, [k - i] + lens) == Positions(k, pat, j + 1, lens)
  {
    assert ([k - i] + lens)[1..] == lens;
  }

  // No start from i on can match the rest of the pattern.
  ghost predicate Hopeless(msg: seq<Element>, i: nat, pat: seq<MetaElement>, j: nat)
    requires j <= |pat|
  {
    forall k :: i <= k <= |msg| ==> !Matches(msg, k, pat, j)
  }

  lemma MatchesWild(msg: seq<Element>, i: nat, pat: seq<MetaElement>, j: nat)
    requires j < |pat| && IsWildcard(pat[j]) && i <= |msg|
    ensures Matches(msg, i, pat, j) <==> !Hopeless(msg, i, pat, j + 1)
  {
    if Matches(msg, i, pat, j) {
      var lens :| Splits(msg, i, pat, j, lens);
      assert Splits(msg, i + lens[0], pat, j + 1, lens[1..]);
      assert Matches(msg, i + lens[0], pat, j + 1);
    }
    if !Hopeless(msg, i, pat, j + 1) {
      var next := j + 1;
      var k :| i <= k <= |msg| && Matches(msg, k, pat, next);
      var lens :| Splits(msg, k, pat, next, lens);
      SplitWild(msg, i, pat, j, k, lens);
    }
  }

  // A pattern of wildcards matches anything; at the end of the message nothing else matches.
  lemma {:induction false} WildSplit(msg: seq<Element>, i: nat, pat: seq<MetaElement>, j: nat) returns (lens: seq<nat>)
    requires j <= |pat| && i <= |msg| && AllWild(pat, j) && (j == |pat| ==> i == |msg|)
    ensures Splits(msg, i, pat, j, lens) && Positions(i, pat, j, lens) == []
    decreases |pat| - j
  {
    if j == |pat| {
      lens := [];
    } else {
      var rest := WildSplit(msg, |msg|, pat, j + 1);
      SplitWild(msg, i, pat, j, |msg|, rest);
      lens := [|msg| - i] + rest;
    }
  }

  lemma {:induction false} OnlyWildAtEnd(msg: seq<Element>, pat: seq<MetaElement>, j: nat, lens: seq<nat>)
    requires j <= |pat| && Splits(msg, |msg|, pat, j, lens)
    ensures AllWild(pat, j)
    decreases |pat| - j
  {
    if j < |pat| {
      OnlyWildAtEnd(msg, pat, j + 1, lens[1..]);
    }
  }

  lemma WildAtEnd(msg: seq<Element>, pat: seq<MetaElement>, j: nat) returns (lens: seq<nat>)
    requires j <= |pat| && AllWild(pat, j)
    ensures Least(msg, |msg|, pat, j, lens) && Positions(|msg|, pat, j, lens) == []
  {
    lens := WildSplit(msg, |msg|, pat, j);
    EndIsLeast(msg, pat, j, lens);
  }

  // ----- a run of plain elements -----

  ghost predicate NoWild(pat: seq<MetaElement>, j0: nat, j: nat)
    requires j <= |pat|
  {
    forall k :: j0 <= k < j ==> !IsWildcard(pat[k])
  }

  ghost predicate PlainRun(msg: seq<Element>, i0: nat, pat: seq<MetaElement>, j0: nat, j: nat) {
    && j0 <= j <= |pat|
    && i0 + (j - j0) <= |msg|
    && NoWild(pat, j0, j)
    && forall k :: j0 <= k < j ==> Accepts(pat[k], msg[i0 + (k - j0)])
  }

  lemma SplitPlain(msg: seq<Element>, i: nat, pat: seq<MetaElement>, j: nat, lens: seq<nat>)
    requires i < |msg| && j < |pat| && !IsWildcard(pat[j]) && Accepts(pat[j], msg[i])
    requires Splits(msg, i + 1, pat, j + 1, lens)
    ensures Splits(msg, i, pat, j, [1] + lens)
    ensures Positions(i, pat, j, [1] + lens) == [i] + Positions(i + 1, pat, j + 1, lens)
  {
    assert ([1] + lens)[1..] == lens;
  }

  lemma {:induction false} SplitRun(msg: seq<Element>, i0: nat, pat: seq<MetaElement>, j0: nat, j: nat, lens: seq<nat>)
    returns (all: seq<nat>)
    requires PlainRun(msg, i0, pat, j0, j) && Least(msg, i0 + (j - j0), pat, j, lens)
    ensures Least(msg, i0, pat, j0, all)
    ensures Positions(i0, pat, j0, all) == Count(i0, j - j0) + Positions(i0 + (j - j0), pat, j, lens)
    decreases j - j0
  {
    if j0 == j {
      return lens;
    }
    assert PlainRun(msg, i0 + 1, pat, j0 + 1, j);
    assert Accepts(pat[j0], msg[i0]);
    all := SplitRun(msg, i0 + 1, pat, j0 + 1, j, lens);
    SplitPlain(msg, i0, pat, j0, all);
    LeastPlain(msg, i0, pat, j0, all);
    CountFrom(i0, j - j0, Positions(i0 + (j - j0), pat, j, lens));
    all := [1] + all;
  }

  ghost function Count(i: nat, n: nat): seq<nat> {
    seq(n, t requires 0 <= t => i + t)
  }

  lemma CountFrom(i: nat, n: nat, rest: seq<nat>)
    requires n > 0
    ensures Count(i, n) + rest == [i] + (Count(i + 1, n - 1) + rest)
  {
  }

  // The argument that saves the single fallback position: if the rest behind a wildcard is
  // hopeless, then so is every pattern that leads to this wildcard through plain elements.
  lemma {:induction false} HopelessSpreads(msg: seq<Element>, i0: nat, pat: seq<MetaElement>, j0: nat, j: nat)
    requires j0 <= j < |pat| && IsWildcard(pat[j]) && Hopeless(msg, i0 + (j - j0), pat, j + 1)
    requires NoWild(pat, j0, j)
    ensures Hopeless(msg, i0, pat, j0)
    decreases j - j0
  {
    if j0 < j {
      HopelessSpreads(msg, i0 + 1, pat, j0 + 1, j);
    }
    forall k | i0 <= k <= |msg| ensures !Matches(msg, k, pat, j0) {
      if j0 == j {
        MatchesWild(msg, k, pat, j0);
      } else {
        MatchesPlain(msg, k, pat, j0);
      }
    }
  }

  // ----- the matcher -----

  // The cursor into the output slots. `data` maps a slot to the message position stored there.
  class SetCommitRollback {
    var data: map<nat, nat>
    var pos: nat
    var fallbackPos: nat

    constructor ()
      ensures data == map[] && pos == 0 && fallbackPos == 0
    {
      data, pos, fallbackPos := map[], 0, 0;
    }

    method Store(position: nat)
      modifies this`data
      ensures data == old(data)[pos := position]
    {
      data := data[pos := position];
    }

    method Inc()
      modifies this`pos
      ensures pos == old(pos) + 1
    {
      pos := pos + 1;
    }

    method Commit()
      modifies this`fallbackPos
      ensures fallbackPos == pos
    {
      fallbackPos := pos;
    }

    method Rollback()
      modifies this`pos
      ensures pos == fallbackPos
    {
      pos := fallbackPos;
    }
  }

  // The slots from p on hold exactly these positions.
  ghost predicate Stored(data: map<nat, nat>, p: nat, ps: seq<nat>) {
    forall t :: p <= t < p + |ps| ==> t in data && data[t] == ps[t - p]
  }

  ghost predicate SameBelow(data: map<nat, nat>, was: map<nat, nat>, p: nat) {
    forall t :: 0 <= t < p ==> (t in data <==> t in was) && (t in data ==> data[t] == was[t])
  }

  lemma StoredNext(data: map<nat, nat>, p: nat, i: nat, n: nat)
    requires Stored(data, p, Count(i, n))
    ensures Stored(data[p + n := i + n], p, Count(i, n + 1))
    ensures SameBelow(data[p + n := i + n], data, p)
  {
  }

  // What the rest of the pattern stores leaves the slots of the plain run before it alone.
  lemma StoredJoin(was: map<nat, nat>, data: map<nat, nat>, p: nat, i: nat, n: nat, ps: seq<nat>)
    requires Stored(was, p, Count(i, n)) && SameBelow(data, was, p + n) && Stored(data, p + n, ps)
    ensures Stored(data, p, Count(i, n) + ps)
  {
  }

  lemma RunNext(msg: seq<Element>, i0: nat, pat: seq<MetaElement>, j0: nat, j: nat)
    requires PlainRun(msg, i0, pat, j0, j) && j < |pat| && !IsWildcard(pat[j])
    requires i0 + (j - j0) < |msg| && Accepts(pat[j], msg[i0 + (j - j0)])
    ensures PlainRun(msg, i0, pat, j0, j + 1)
  {
  }

  method TryMatchFrom(msg: seq<Element>, i0: nat, pat: seq<MetaElement>, j0: nat, storage: SetCommitRollback)
    returns (ok: bool, ghost lens: seq<nat>)
    requires i0 <= |msg| && j0 <= |pat|
    modifies storage
    ensures ok ==> Least(msg, i0, pat, j0, lens)
    ensures ok ==> Stored(storage.data, old(storage.pos), Positions(i0, pat, j0, lens))
    ensures !ok ==> !Matches(msg, i0, pat, j0)
    ensures !ok ==> storage.fallbackPos == old(storage.fallbackPos) || Hopeless(msg, i0, pat, j0)
    ensures storage.pos >= old(storage.pos)
    ensures storage.fallbackPos == old(storage.fallbackPos) || storage.fallbackPos >= old(storage.pos)
    ensures SameBelow(storage.data, old(storage.data), old(storage.pos))
    decreases |pat| - j0
  {
    var i, j := i0, j0;
    lens := [];
    ghost var p := storage.pos;
    while i < |msg|
      invariant i0 <= i <= |msg| && i - i0 == j - j0
      invariant PlainRun(msg, i0, pat, j0, j)
      invariant Matches(msg, i0, pat, j0) <==> Matches(msg, i, pat, j)
      invariant storage.pos == p + (j - j0) && storage.fallbackPos == old(storage.fallbackPos)
      invariant Stored(storage.data, p, Count(i0, j - j0)) && SameBelow(storage.data, old(storage.data), p)
    {
      if j == |pat| {
        return false, [];
      }
      if IsWildcard(pat[j]) {
        ghost var was := storage.data;
        ok, lens := TryWildcard(msg, i, pat, j, storage);
        if ok {
          StoredJoin(was, storage.data, p, i0, j - j0, Positions(i, pat, j, lens));
          lens := SplitRun(msg, i0, pat, j0, j, lens);
        } else {
          HopelessSpreads(msg, i0, pat, j0, j);
        }
        return;
      }
      MatchesPlain(msg, i, pat, j);
      if !Accepts(pat[j], msg[i]) {
        return false, [];
      }
      StoredNext(storage.data, p, i0, j - j0);
      RunNext(msg, i0, pat, j0, j);
      storage.Store(i);
      storage.Inc();
      i := i + 1;
      j := j + 1;
    }
    ok := AllWildcards(pat, j);
    if ok {
      lens := WildAtEnd(msg, pat, j);
      lens := SplitRun(msg, i0, pat, j0, j, lens);
    } else if Matches(msg, i, pat, j) {
      var l :| Splits(msg, i, pat, j, l);
      OnlyWildAtEnd(msg, pat, j, l);
    }
  }

  // The wildcard case: commit the cursor, then try every remaining start and roll back.
  method TryWildcard(msg: seq<Element>, i: nat, pat: seq<MetaElement>, j: nat, storage: SetCommitRollback)
    returns (ok: bool, ghost lens: seq<nat>)
    requires i < |msg| && j < |pat| && IsWildcard(pat[j])
    modifies storage
    ensures ok ==> Least(msg, i, pat, j, lens)
    ensures ok ==> Stored(storage.data, old(storage.pos), Positions(i, pat, j, lens))
    ensures !ok ==> Hopeless(msg, i, pat, j + 1)
    ensures storage.pos >= old(storage.pos)
    ensures storage.fallbackPos == old(storage.fallbackPos) || storage.fallbackPos >= old(storage.pos)
    ensures SameBelow(storage.data, old(storage.data), old(storage.pos))
    decreases |pat| - j, 0
  {
    var next := j + 1;
    if next == |pat| {
      LastWildIsLeast(msg, i, pat, j);
      return true, [|msg| - i];
    }
    ghost var p := storage.pos;
    storage.Commit();
    var k := i;
    lens := [];
    while k < |msg|
      invariant i <= k <= |msg|
      invariant forall l :: i <= l < k ==> !Matches(msg, l, pat, next)
      invariant (storage.pos == p && storage.fallbackPos == p) || Hopeless(msg, k, pat, next)
      invariant storage.pos >= p && storage.fallbackPos >= p
      invariant SameBelow(storage.data, old(storage.data), p)
    {
      ok, lens := TryMatchFrom(msg, k, pat, next, storage);
      if ok {
        assert Matches(msg, k, pat, next);
        SplitWild(msg, i, pat, j, k, lens);
        LeastWild(msg, i, pat, j, next, k, lens);
        return true, [k - i] + lens;
      }
      storage.Rollback();
      k := k + 1;
    }
    if Matches(msg, |msg|, pat, next) {
      var l :| Splits(msg, |msg|, pat, next, l);
      OnlyWildAtEnd(msg, pat, next, l);
      var all := WildSplit(msg, i, pat, next);
      assert Matches(msg, i, pat, next);
    }
    assert Hopeless(msg, i, pat, next);
    return false, [];
  }

  method AllWildcards(pat: seq<MetaElement>, j: nat) returns (ok: bool)
    requires j <= |pat|
    ensures ok <==> AllWild(pat, j)
  {
    for k := j to |pat|
      invariant forall l :: j <= l < k ==> IsWildcard(pat[l])
    {
      if !IsWildcard(pat[k]) {
        return false;
      }
    }
    return true;
  }

  // The entry point.
  method Match(msg: seq<Element>, pat: seq<MetaElement>) returns (ok: bool, out: map<nat, nat>)
    ensures ok <==> Matches(msg, 0, pat, 0)
    ensures ok ==> exists lens :: Least(msg, 0, pat, 0, lens) && Stored(out, 0, Positions(0, pat, 0, lens))
                                  && Captures(msg, Plain(pat, 0), Positions(0, pat, 0, lens))
  {
    var storage := new SetCommitRollback();
    ghost var lens;
    ok, lens := TryMatchFrom(msg, 0, pat, 0, storage);
    out := storage.data;
    if ok {
      SplitCaptures(msg, 0, pat, 0, lens);
    }
  }
}

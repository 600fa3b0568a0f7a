/**
 Messages: shared tuples of values under decorations that select elements and concatenations that
 join tuples, against plain sequences of elements.
 */
module MessageViews {

  datatype Option<T> = None | Some(value: T)

  datatype Elem = Elem(typeNr: bv16, value: nat)

  // ----- type tokens -----

  const EMPTY_TOKEN: bv32 := 0xFFFF_FFFF

  function AddType(token: bv32, typeNr: bv16): bv32 {
    (token << 6) | (typeNr as bv32)
  }

  function Token(token: bv32, elems: seq<Elem>): bv32
    decreases |elems|
  {
    if elems == [] then token else Token(AddType(token, elems[0].typeNr), elems[1..])
  }

  lemma {:induction false} TokenConcat(token: bv32, a: seq<Elem>, b: seq<Elem>)
    ensures Token(token, a + b) == Token(Token(token, a), b)
    decreases |a|
  {
    if a == [] {
      assert a + b == b;
    } else {
      assert (a + b)[0] == a[0] && (a + b)[1..] == a[1..] + b;
      TokenConcat(AddType(token, a[0].typeNr), a[1..], b);
    }
  }

  // ----- message data -----

  datatype Data =
    | Vals(elems: seq<Elem>)
    | Decorated(base: Data, mapping: seq<nat>, token: bv32)
    | Concatenated(parts: seq<Data>, token: bv32, size: nat)

  predicate InRange(mapping: seq<nat>, size: nat) {
    forall i :: 0 <= i < |mapping| ==> mapping[i] < size
  }

  function Pick(elems: seq<Elem>, mapping: seq<nat>): (r: seq<Elem>)
    requires InRange(mapping, |elems|)
  {
    seq(|mapping|, i requires 0 <= i < |mapping| => elems[mapping[i]])
  }

  function Flatten(views: seq<seq<Elem>>): seq<Elem> {
    if views == [] then [] else views[0] + Flatten(views[1..])
  }

  // No decoration of a decoration, no concatenation in a concatenation, all positions in range,
  // and the stored token and size are those of the elements.
  predicate Valid(d: Data)
    decreases d, 0
  {
    match d
    case Vals(_) => true
    case Decorated(base, mapping, token) =>
      && Valid(base) && !base.Decorated? && InRange(mapping, |Elems(base)|)
      && token == Token(EMPTY_TOKEN, Pick(Elems(base), mapping))
    case Concatenated(parts, token, size) =>
      && (forall i :: 0 <= i < |parts| ==> Valid(parts[i]) && !parts[i].Concatenated?)
      && token == Token(EMPTY_TOKEN, Flatten(seq(|parts|, i requires 0 <= i < |parts| => Elems(parts[i]))))
      && size == |Flatten(seq(|parts|, i requires 0 <= i < |parts| => Elems(parts[i])))|
  }

  // The elements that a message data reads as.
  function Elems(d: Data): seq<Elem>
    requires Valid(d)
    decreases d, 1
  {
    match d
    case Vals(elems) => elems
    case Decorated(base, mapping, _) => Pick(Elems(base), mapping)
    case Concatenated(parts, _, _) => Flatten(seq(|parts|, i requires 0 <= i < |parts| => Elems(parts[i])))
  }

  predicate AllParts(parts: seq<Data>) {
    forall i :: 0 <= i < |parts| ==> Valid(parts[i]) && !parts[i].Concatenated?
  }

  function Views(parts: seq<Data>): seq<seq<Elem>>
    requires AllParts(parts)
  {
    seq(|parts|, i requires 0 <= i < |parts| => Elems(parts[i]))
  }

  function TokenOf(d: Data): bv32 {
    if d.Vals? then Token(EMPTY_TOKEN, d.elems) else d.token
  }

  // Pattern matching by type token does not depend on how a message was put together.
  lemma TokenOfElems(d: Data)
    requires Valid(d)
    ensures TokenOf(d) == Token(EMPTY_TOKEN, Elems(d))
  {
  }

  // ----- sequences of sequences -----

  lemma {:induction false} FlattenConcat(a: seq<seq<Elem>>, b: seq<seq<Elem>>)
    ensures Flatten(a + b) == Flatten(a) + Flatten(b)
  {
    if a == [] {
      assert a + b == b;
    } else {
      FlattenConcat(a[1..], b);
      assert (a + b)[0] == a[0] && (a + b)[1..] == a[1..] + b;
      assert a[0] + (Flatten(a[1..]) + Flatten(b)) == a[0] + Flatten(a[1..]) + Flatten(b);
    }
  }

  lemma FlattenOne(view: seq<Elem>)
    ensures Flatten([view]) == view
  {
    assert [view][1..] == [];
  }

  lemma ViewsConcat(a: seq<Data>, b: seq<Data>)
    requires AllParts(a) && AllParts(b)
    ensures AllParts(a + b) && Views(a + b) == Views(a) + Views(b)
  {
  }

  // ----- reading -----

  function Size(d: Data): (n: nat)
    requires Valid(d)
    ensures n == |Elems(d)|
  {
    match d
    case Vals(elems) => |elems|
    case Decorated(_, mapping, _) => |mapping|
    case Concatenated(_, _, size) => size
  }

  lemma FlattenSplit(views: seq<seq<Elem>>, k: nat)
    requires k < |views|
    ensures Flatten(views) == Flatten(views[..k]) + (views[k] + Flatten(views[k + 1..]))
  {
    assert views == views[..k] + views[k..] && views[k..][1..] == views[k + 1..];
    FlattenConcat(views[..k], views[k..]);
  }

  lemma FlattenStep(views: seq<seq<Elem>>, k: nat)
    requires k < |views|
    ensures Flatten(views[..k + 1]) == Flatten(views[..k]) + views[k]
  {
    assert views[..k + 1] == views[..k] + [views[k]];
    FlattenConcat(views[..k], [views[k]]);
    FlattenOne(views[k]);
  }

  // concatenated_tuple::select: the part that holds a position, and the position in it.
  method Select(d: Data, pos: nat) returns (place: Option<(nat, nat)>)
    requires Valid(d) && d.Concatenated?
    ensures place.None? <==> pos >= |Elems(d)|
    ensures place.Some? ==> place.value.0 < |d.parts| && place.value.1 < |Elems(d.parts[place.value.0])|
                            && Elems(d)[pos] == Elems(d.parts[place.value.0])[place.value.1]
  {
    ghost var views := Views(d.parts);
    var idx := pos;
    for k := 0 to |d.parts|
      invariant idx == pos - |Flatten(views[..k])|
    {
      FlattenStep(views, k);
      FlattenSplit(views, k);
      var s := Size(d.parts[k]);
      if idx >= s {
        idx := idx - s;
      } else {
        return Some((k, idx));
      }
    }
    assert views[..|d.parts|] == views;
    return None;
  }

  method At(d: Data, pos: nat) returns (e: Elem)
    requires Valid(d) && pos < |Elems(d)|
    ensures e == Elems(d)[pos]
    decreases d
  {
    match d
    case Vals(elems) => e := elems[pos];
    case Decorated(base, mapping, _) => e := At(base, mapping[pos]);
    case Concatenated(parts, _, _) =>
      var place := Select(d, pos);
      e := At(parts[place.value.0], place.value.1);
  }

  // ----- building -----

  // The loops over type_nr_at that compute a token.
  method FoldToken(d: Data, token: bv32) returns (t: bv32)
    requires Valid(d)
    ensures t == Token(token, Elems(d))
  {
    t := token;
    for i := 0 to Size(d)
      invariant Token(token, Elems(d)) == Token(t, Elems(d)[i..])
    {
      assert Elems(d)[i..][1..] == Elems(d)[i + 1..];
      var e := At(d, i);
      t := AddType(t, e.typeNr);
    }
  }

  method Decorate(d: Data, v: seq<nat>) returns (r: Data)
    requires Valid(d) && InRange(v, |Elems(d)|)
    ensures Valid(r) && r.Decorated? && Elems(r) == Pick(Elems(d), v)
  {
    var (base, mapping) := (d, v);
    if d.Decorated? {
      base := d.base;
      mapping := [];
      for i := 0 to |v|
        invariant |mapping| == i && forall k :: 0 <= k < i ==> mapping[k] == d.mapping[v[k]]
      {
        mapping := mapping + [d.mapping[v[i]]];
      }
    }
    assert Pick(Elems(base), mapping) == Pick(Elems(d), v);
    var token := PickToken(base, mapping);
    r := Decorated(base, mapping, token);
  }

  method PickToken(base: Data, mapping: seq<nat>) returns (token: bv32)
    requires Valid(base) && InRange(mapping, |Elems(base)|)
    ensures token == Token(EMPTY_TOKEN, Pick(Elems(base), mapping))
  {
    ghost var all := Pick(Elems(base), mapping);
    token := EMPTY_TOKEN;
    for i := 0 to |mapping|
      invariant Token(EMPTY_TOKEN, all) == Token(token, all[i..])
    {
      assert all[i..][1..] == all[i + 1..];
      var e := At(base, mapping[i]);
      token := AddType(token, e.typeNr);
    }
  }

  type Message = Option<Data>

  predicate Sound(m: Message) {
    m.Some? ==> Valid(m.value)
  }

  function View(m: Message): seq<Elem>
    requires Sound(m)
  {
    if m.Some? then Elems(m.value) else []
  }

  predicate AllSound(xs: seq<Message>) {
    forall i :: 0 <= i < |xs| ==> Sound(xs[i])
  }

  function AllViews(xs: seq<Message>): seq<seq<Elem>>
    requires AllSound(xs)
  {
    seq(|xs|, i requires 0 <= i < |xs| => View(xs[i]))
  }

  // The parts of a concatenation: null messages vanish, concatenations are taken apart.
  method Parts(xs: seq<Message>) returns (parts: seq<Data>)
    requires AllSound(xs)
    ensures AllParts(parts) && Flatten(Views(parts)) == Flatten(AllViews(xs))
  {
    parts := [];
    ghost var views := AllViews(xs);
    for i := 0 to |xs|
      invariant AllParts(parts) && Flatten(Views(parts)) == Flatten(views[..i])
    {
      FlattenStep(views, i);
      var more := [];
      if xs[i].Some? {
        more := if xs[i].value.Concatenated? then xs[i].value.parts else [xs[i].value];
        PartsOf(xs[i].value);
      }
      ViewsConcat(parts, more);
      FlattenConcat(Views(parts), Views(more));
      parts := parts + more;
    }
    assert views[..|xs|] == views;
  }

  lemma PartsOf(d: Data)
    requires Valid(d)
    ensures d.Concatenated? ==> AllParts(d.parts) && Flatten(Views(d.parts)) == Elems(d)
    ensures !d.Concatenated? ==> AllParts([d]) && Flatten(Views([d])) == Elems(d)
  {
    if d.Concatenated? {
      assert Views(d.parts) == seq(|d.parts|, i requires 0 <= i < |d.parts| => Elems(d.parts[i]));
    } else {
      assert Views([d]) == [Elems(d)];
      FlattenOne(Elems(d));
    }
  }

  method Concatenate(xs: seq<Message>) returns (r: Data)
    requires AllSound(xs)
    ensures Valid(r) && Elems(r) == Flatten(AllViews(xs))
  {
    var parts := Parts(xs);
    ghost var views := Views(parts);
    var (token, size) := (EMPTY_TOKEN, 0);
    for i := 0 to |parts|
      invariant token == Token(EMPTY_TOKEN, Flatten(views[..i])) && size == |Flatten(views[..i])|
    {
      FlattenStep(views, i);
      TokenConcat(EMPTY_TOKEN, Flatten(views[..i]), views[i]);
      token := FoldToken(parts[i], token);
      size := size + Size(parts[i]);
    }
    assert views[..|parts|] == views;
    assert views == seq(|parts|, i requires 0 <= i < |parts| => Elems(parts[i]));
    r := Concatenated(parts, token, size);
  }

  // ----- the operations of a message -----

  function SizeOf(m: Message): (n: nat)
    requires Sound(m)
    ensures n == |View(m)|
  {
    if m.Some? then Size(m.value) else 0
  }

  // pos, pos + 1, ..., as std::iota fills it.
  method Iota(pos: nat, n: nat) returns (mapping: seq<nat>)
    ensures |mapping| == n && forall i :: 0 <= i < n ==> mapping[i] == pos + i
  {
    mapping := [];
    for i := 0 to n
      invariant |mapping| == i && forall k :: 0 <= k < i ==> mapping[k] == pos + k
    {
      mapping := mapping + [pos + i];
    }
  }

  // A decoration that selects the elements pos, ..., pos + n - 1.
  method Range(d: Data, pos: nat, n: nat) returns (r: Data)
    requires Valid(d) && pos + n <= |Elems(d)|
    ensures Valid(r) && Elems(r) == Elems(d)[pos..pos + n]
  {
    var mapping := Iota(pos, n);
    r := Decorate(d, mapping);
  }

  method Drop(m: Message, n: nat) returns (r: Message)
    requires Sound(m)
    ensures Sound(r) && View(r) == if n < |View(m)| then View(m)[n..] else []
  {
    if n == 0 {
      return m;
    }
    if n >= SizeOf(m) {
      return None;
    }
    var d := Range(m.value, n, SizeOf(m) - n);
    r := Some(d);
  }

  method DropRight(m: Message, n: nat) returns (r: Message)
    requires Sound(m)
    ensures Sound(r) && View(r) == if n < |View(m)| then View(m)[..|View(m)| - n] else []
  {
    if n == 0 {
      return m;
    }
    if n >= SizeOf(m) {
      return None;
    }
    var d := Range(m.value, 0, SizeOf(m) - n);
    r := Some(d);
  }

  function Cut(elems: seq<Elem>, pos: nat, n: nat): seq<Elem> {
    if pos >= |elems| then [] else if n < |elems| - pos then elems[pos..pos + n] else elems[pos..]
  }

  method Slice(m: Message, pos: nat, n: nat) returns (r: Message)
    requires Sound(m)
    ensures Sound(r) && View(r) == Cut(View(m), pos, n)
  {
    if pos >= SizeOf(m) {
      return None;
    }
    var d := Range(m.value, pos, if SizeOf(m) - pos < n then SizeOf(m) - pos else n);
    r := Some(d);
  }

  // concat_impl: nothing, the only message itself, or a concatenation.
  method Concat(xs: seq<Message>) returns (r: Message)
    requires AllSound(xs)
    ensures Sound(r) && View(r) == Flatten(AllViews(xs))
  {
    var count: nat, last: nat := 0, 0;
    ghost var views := AllViews(xs);
    for i := 0 to |xs|
      invariant count == 0 ==> Flatten(views[..i]) == []
      invariant count > 0 ==> last < i && xs[last].Some?
      invariant count == 1 ==> Flatten(views[..i]) == views[last]
    {
      FlattenStep(views, i);
      if xs[i].Some? {
        count, last := count + 1, i;
      }
    }
    assert views[..|xs|] == views;
    if count == 0 {
      r := None;
    } else if count == 1 {
      r := xs[last];
    } else {
      var d := Concatenate(xs);
      r := Some(d);
    }
  }

  // ----- any nesting of them -----

  datatype Expr =
    | Make(elems: seq<Elem>)
    | Dropped(e: Expr, n: nat)
    | DroppedRight(e: Expr, n: nat)
    | Sliced(e: Expr, pos: nat, n: nat)
    | Joined(es: seq<Expr>)

  // The same operations on plain sequences.
  function Meaning(expr: Expr): seq<Elem> {
    match expr
    case Make(elems) => elems
    case Dropped(e, n) => if n < |Meaning(e)| then Meaning(e)[n..] else []
    case DroppedRight(e, n) => if n < |Meaning(e)| then Meaning(e)[..|Meaning(e)| - n] else []
    case Sliced(e, pos, n) => Cut(Meaning(e), pos, n)
    case Joined(es) => Flatten(seq(|es|, i requires 0 <= i < |es| => Meaning(es[i])))
  }

  method Eval(expr: Expr) returns (m: Message)
    ensures Sound(m) && View(m) == Meaning(expr)
    decreases expr
  {
    match expr
    case Make(elems) => m := Some(Vals(elems));
    case Dropped(e, n) =>
      m := Eval(e);
      m := Drop(m, n);
    case DroppedRight(e, n) =>
      m := Eval(e);
      m := DropRight(m, n);
    case Sliced(e, pos, n) =>
      m := Eval(e);
      m := Slice(m, pos, n);
    case Joined(es) =>
      var xs: seq<Message> := [];
      for i := 0 to |es|
        invariant |xs| == i && AllSound(xs) && forall k :: 0 <= k < i ==> View(xs[k]) == Meaning(es[k])
      {
        var x := Eval(es[i]);
        xs := xs + [x];
      }
      assert AllViews(xs) == seq(|es|, i requires 0 <= i < |es| => Meaning(es[i]));
      m := Concat(xs);
  }

  // ----- extract -----

  // A slice that was offered to the handler, and whether the handler accepted it.
  datatype Offer = Offer(slice: seq<Elem>, accepted: bool)

  // A handler may remember everything it was offered before.
  type Handler = (seq<Offer>, seq<Elem>) -> bool

  // A slice taken out at a position.
  datatype Removal = Removal(at: nat, slice: seq<Elem>)

  datatype Extraction = Extraction(rest: seq<Elem>, offers: seq<Offer>, removals: seq<Removal>)

  function CutOut(es: seq<Elem>, i: nat, n: nat): seq<Elem>
    requires i + n <= |es|
  {
    es[..i] + es[i + n..]
  }

  // Offer the slices from position i on, at position i only those of length n and less.
  function Extracted(h: Handler, es: seq<Elem>, i: nat, n: nat, done: Extraction): Extraction
    requires i + n <= |es| || (i >= |es| && n == 0)
    decreases |es|, |es| - i, n
  {
    if i >= |es| then done.(rest := es)
    else if n == 0 then Extracted(h, es, i + 1, |es| - (i + 1), done)
    else if !h(done.offers, es[i..i + n]) then
      Extracted(h, es, i, n - 1, done.(offers := done.offers + [Offer(es[i..i + n], false)]))
    else
      Extracted(h, CutOut(es, i, n), i, |es| - n - i, Removed(done, es, i, n))
  }

  function Removed(done: Extraction, es: seq<Elem>, i: nat, n: nat): Extraction
    requires i + n <= |es|
  {
    Extraction(CutOut(es, i, n), done.offers + [Offer(es[i..i + n], true)], done.removals + [Removal(i, es[i..i + n])])
  }

  // The message without the elements i, ..., i + n - 1.
  method WithoutSlice(m: Message, i: nat, n: nat) returns (r: Message)
    requires Sound(m) && m.Some? && i + n <= |View(m)|
    ensures Sound(r) && View(r) == CutOut(View(m), i, n)
  {
    var mapping := Iota(0, SizeOf(m));
    PickAround(View(m), mapping, i, n);
    mapping := mapping[..i] + mapping[i + n..];
    if mapping == [] {
      return None;
    }
    var d := Decorate(m.value, mapping);
    r := Some(d);
  }

  lemma PickAround(es: seq<Elem>, mapping: seq<nat>, i: nat, n: nat)
    requires i + n <= |es| == |mapping| && forall k :: 0 <= k < |mapping| ==> mapping[k] == k
    ensures InRange(mapping[..i] + mapping[i + n..], |es|)
    ensures Pick(es, mapping[..i] + mapping[i + n..]) == CutOut(es, i, n)
  {
  }

  function Rest(es: seq<Elem>, i: nat): nat {
    if i < |es| then |es| - i else 0
  }

  // The inner loop: the longest slice at position i that the handler accepts, or 0.
  method OfferAt(h: Handler, m: Message, i: nat, done: Extraction) returns (n: nat, next: Extraction)
    requires Sound(m) && i < |View(m)|
    ensures n <= |View(m)| - i && (n > 0 ==> h(next.offers, View(m)[i..i + n]))
    ensures Extracted(h, View(m), i, |View(m)| - i, done) == Extracted(h, View(m), i, n, next)
  {
    n, next := SizeOf(m) - i, done;
    while n > 0
      invariant n <= |View(m)| - i
      invariant Extracted(h, View(m), i, |View(m)| - i, done) == Extracted(h, View(m), i, n, next)
    {
      var slice := Slice(m, i, n);
      assert View(slice) == View(m)[i..i + n];
      if h(next.offers, View(slice)) {
        return;
      }
      next := next.(offers := next.offers + [Offer(View(slice), false)]);
      n := n - 1;
    }
  }

  lemma NextPosition(h: Handler, es: seq<Elem>, i: nat, done: Extraction)
    requires i < |es|
    ensures Extracted(h, es, i, 0, done) == Extracted(h, es, i + 1, Rest(es, i + 1), done)
  {
  }

  lemma NextMessage(h: Handler, es: seq<Elem>, i: nat, n: nat, done: Extraction)
    requires n > 0 && i + n <= |es| && h(done.offers, es[i..i + n])
    ensures Extracted(h, es, i, n, done) ==
            Extracted(h, CutOut(es, i, n), i, Rest(CutOut(es, i, n), i), Removed(done, es, i, n))
  {
  }

  method ExtractImpl(h: Handler, m: Message, start: nat, done: Extraction) returns (r: Message, result: Extraction)
    requires Sound(m)
    ensures Sound(r) && View(r) == result.rest
    ensures result == Extracted(h, View(m), start, Rest(View(m), start), done)
    decreases |View(m)|
  {
    ghost var es, goal := View(m), Extracted(h, View(m), start, Rest(View(m), start), done);
    result := done;
    var i := start;
    while i < SizeOf(m)
      invariant i <= |es| || i == start
      invariant goal == Extracted(h, es, i, Rest(es, i), result)
    {
      var n: nat;
      n, result := OfferAt(h, m, i, result);
      if n > 0 {
        NextMessage(h, es, i, n, result);
        var next := WithoutSlice(m, i, n);
        r, result := ExtractImpl(h, next, i, Removed(result, View(m), i, n));
        return;
      }
      NextPosition(h, es, i, result);
      i := i + 1;
    }
    return m, result.(rest := View(m));
  }

  method Extract(h: Handler, m: Message) returns (r: Message, result: Extraction)
    requires Sound(m)
    ensures Sound(r) && View(r) == result.rest
    ensures result == Extracted(h, View(m), 0, |View(m)|, Extraction([], [], []))
  {
    r, result := ExtractImpl(h, m, 0, Extraction([], [], []));
  }

  // ----- what is left, and what was taken -----

  // Put the removed slices back, the last one first.
  function PutBack(rest: seq<Elem>, removals: seq<Removal>): Option<seq<Elem>>
    decreases |removals|
  {
    if removals == [] then Some(rest)
    else if removals[|removals| - 1].at > |rest| then None
    else PutBack(rest[..removals[|removals| - 1].at] + removals[|removals| - 1].slice
                   + rest[removals[|removals| - 1].at..],
                 removals[..|removals| - 1])
  }

  // The input minus exactly the removed slices, each taken out at its position.
  lemma {:induction false} NothingElseIsLost(h: Handler, es: seq<Elem>, i: nat, n: nat, done: Extraction)
    requires i + n <= |es| || (i >= |es| && n == 0)
    ensures var x := Extracted(h, es, i, n, done); PutBack(x.rest, x.removals) == PutBack(es, done.removals)
    decreases |es|, |es| - i, n
  {
    if i < |es| {
      if n == 0 {
        NothingElseIsLost(h, es, i + 1, |es| - (i + 1), done);
      } else if !h(done.offers, es[i..i + n]) {
        NothingElseIsLost(h, es, i, n - 1, done.(offers := done.offers + [Offer(es[i..i + n], false)]));
      } else {
        NothingElseIsLost(h, CutOut(es, i, n), i, |es| - n - i, Removed(done, es, i, n));
        UndoOne(es, i, n, done.removals);
      }
    }
  }

  lemma UndoOne(es: seq<Elem>, i: nat, n: nat, removals: seq<Removal>)
    requires i + n <= |es|
    ensures PutBack(CutOut(es, i, n), removals + [Removal(i, es[i..i + n])]) == PutBack(es, removals)
  {
    var all := removals + [Removal(i, es[i..i + n])];
    assert all[..|all| - 1] == removals;
    var rest := CutOut(es, i, n);
    assert rest[..i] + es[i..i + n] + rest[i..] == es;
  }

  function AcceptedSlices(offers: seq<Offer>): seq<seq<Elem>> {
    if offers == [] then []
    else AcceptedSlices(offers[..|offers| - 1])
         + if offers[|offers| - 1].accepted then [offers[|offers| - 1].slice] else []
  }

  function RemovedSlices(removals: seq<Removal>): seq<seq<Elem>> {
    seq(|removals|, i requires 0 <= i < |removals| => removals[i].slice)
  }

  // The answers in the list of offers are those that the handler gave.
  ghost predicate Answered(h: Handler, offers: seq<Offer>) {
    forall k :: 0 <= k < |offers| ==> offers[k].accepted == h(offers[..k], offers[k].slice)
  }

  ghost predicate RemovesAccepted(h: Handler, x: Extraction) {
    Answered(h, x.offers) && RemovedSlices(x.removals) == AcceptedSlices(x.offers)
  }

  // Exactly the accepted slices are removed, in the order in which they were accepted.
  lemma {:induction false} RemovedAreAccepted(h: Handler, es: seq<Elem>, i: nat, n: nat, done: Extraction)
    requires i + n <= |es| || (i >= |es| && n == 0)
    requires RemovesAccepted(h, done)
    ensures RemovesAccepted(h, Extracted(h, es, i, n, done))
    decreases |es|, |es| - i, n
  {
    if i < |es| {
      if n == 0 {
        RemovedAreAccepted(h, es, i + 1, |es| - (i + 1), done);
      } else if !h(done.offers, es[i..i + n]) {
        AfterRefusal(h, done, es[i..i + n]);
        RemovedAreAccepted(h, es, i, n - 1, done.(offers := done.offers + [Offer(es[i..i + n], false)]));
      } else {
        AfterRemoval(h, done, es, i, n);
        RemovedAreAccepted(h, CutOut(es, i, n), i, |es| - n - i, Removed(done, es, i, n));
      }
    }
  }

  lemma AfterRefusal(h: Handler, done: Extraction, slice: seq<Elem>)
    requires RemovesAccepted(h, done) && !h(done.offers, slice)
    ensures RemovesAccepted(h, done.(offers := done.offers + [Offer(slice, false)]))
  {
    AnsweredOneMore(h, done.offers, slice);
  }

  lemma AfterRemoval(h: Handler, done: Extraction, es: seq<Elem>, i: nat, n: nat)
    requires i + n <= |es| && RemovesAccepted(h, done) && h(done.offers, es[i..i + n])
    ensures RemovesAccepted(h, Removed(done, es, i, n))
  {
    AnsweredOneMore(h, done.offers, es[i..i + n]);
    RemovedOneMore(done.removals, Removal(i, es[i..i + n]));
  }

  lemma RemovedOneMore(removals: seq<Removal>, r: Removal)
    ensures RemovedSlices(removals + [r]) == RemovedSlices(removals) + [r.slice]
  {
  }

  lemma AnsweredOneMore(h: Handler, offers: seq<Offer>, slice: seq<Elem>)
    requires Answered(h, offers)
    ensures var more := offers + [Offer(slice, h(offers, slice))];
            && Answered(h, more)
            && AcceptedSlices(more) == AcceptedSlices(offers) + if h(offers, slice) then [slice] else []
  {
    var more := offers + [Offer(slice, h(offers, slice))];
    assert more[..|offers|] == offers;
    forall k | 0 <= k < |more| ensures more[k].accepted == h(more[..k], more[k].slice) {
      if k < |offers| {
        assert more[..k] == offers[..k];
      }
    }
  }

  // Does a handler without memory refuse every slice from position i on?
  ghost predicate RefusesFrom(h: Handler, es: seq<Elem>, i: nat) {
    forall offers, a, b :: i <= a < b <= |es| ==> !h(offers, es[a..b])
  }

  ghost predicate RefusesLonger(h: Handler, es: seq<Elem>, i: nat, n: nat) {
    forall offers, b :: i + n < b <= |es| ==> !h(offers, es[i..b])
  }

  ghost predicate Memoryless(h: Handler) {
    forall offers, slice :: h(offers, slice) == h([], slice)
  }

  function LastCut(start: nat, removals: seq<Removal>): nat {
    if removals == [] then start else removals[|removals| - 1].at
  }

  // A handler without memory accepts no slice of what is left from the last removal on; in
  // particular none at all when nothing was removed.
  lemma {:induction false} NothingAcceptableIsLeft(h: Handler, es: seq<Elem>, start: nat, i: nat, n: nat,
      done: Extraction)
    requires Memoryless(h) && (i + n <= |es| || (i >= |es| && n == 0))
    requires LastCut(start, done.removals) <= i
    requires forall offers, a, b :: LastCut(start, done.removals) <= a < i && a < b <= |es| ==> !h(offers, es[a..b])
    requires RefusesLonger(h, es, i, n)
    ensures var x := Extracted(h, es, i, n, done); RefusesFrom(h, x.rest, LastCut(start, x.removals))
    decreases |es|, |es| - i, n
  {
    if i < |es| {
      if n == 0 {
        NothingAcceptableIsLeft(h, es, start, i + 1, |es| - (i + 1), done);
      } else if !h(done.offers, es[i..i + n]) {
        NothingAcceptableIsLeft(h, es, start, i, n - 1, done.(offers := done.offers + [Offer(es[i..i + n], false)]));
      } else {
        NothingAcceptableIsLeft(h, CutOut(es, i, n), start, i, |es| - n - i, Removed(done, es, i, n));
      }
    }
  }

  // Extract, for every handler and every message: the removed slices are exactly the accepted
  // ones, in order, and putting them back gives the message.
  lemma ExtractLaw(h: Handler, es: seq<Elem>)
    ensures var x := Extracted(h, es, 0, |es|, Extraction([], [], []));
            && PutBack(x.rest, x.removals) == Some(es)
            && RemovesAccepted(h, x)
            && (Memoryless(h) ==> RefusesFrom(h, x.rest, LastCut(0, x.removals)))
  {
    var none := Extraction([], [], []);
    NothingElseIsLost(h, es, 0, |es|, none);
    RemovedAreAccepted(h, es, 0, |es|, none);
    if Memoryless(h) {
      NothingAcceptableIsLeft(h, es, 0, 0, |es|, none);
    }
  }
}

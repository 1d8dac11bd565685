/** The shape-agnostic JSON key resolver of src/data_parser.py.

    `Traverse` looks a key up one level, falling back to a search of every
    member value (`DeepTraverse`) when the key is missing or its value is falsy
    other than `False`; lists are searched element-wise. `RecursiveGet` chains
    `Traverse` along a path, stops at the first `None`, and flattens a final
    list of lists one level. `list.extend` of a value that is not iterable
    raises `TypeError`, so every function here returns a `Result`. */
module DataParser {
  import opened Outcomes
  import opened JsonValues

  /** `traverse_json(data, key)`. */
  function Traverse(data: Json, key: string): (r: Result<Json>)
    ensures !(data.JObj? || data.JArr?) ==> r == Ok(JNull)
    ensures data.JObj? && r.Ok? ==> r.value != JNull
    ensures data.JArr? && r.Ok? ==> r.value.JArr? && |r.value.items| == |data.items|
    ensures data.JObj? && HasKey(data.members, key) && Truthy(GetOrNull(data.members, key))
            && !Truthy(GetOrNull(data.members, "children"))
            ==> r == Ok(GetOrNull(data.members, key))
    ensures data.JObj? && HasKey(data.members, key) && Truthy(GetOrNull(data.members, key))
            && Truthy(GetOrNull(data.members, "children"))
            ==> Status(r) == Status(DeepTraverse(data.members, key))
                && (r.Ok? ==> r.value == JArr([GetOrNull(data.members, key)] + DeepTraverse(data.members, key).value))
    ensures data.JObj? && Get(data.members, key) == Some(JBool(false)) ==> r == Ok(JBool(false))
    ensures data.JObj? && Get(data.members, key) != Some(JBool(false)) && !Truthy(GetOrNull(data.members, key))
            ==> Status(r) == Status(DeepTraverse(data.members, key))
                && (r.Ok? ==> r.value == JArr(DeepTraverse(data.members, key).value))
  {
    match data
    case JObj(ms) =>
      var hit := GetOrNull(ms, key);
      if HasKey(ms, key) && Truthy(hit) then
        if !Truthy(GetOrNull(ms, "children")) then Ok(hit)
        else
          var deeper :- DeepTraverse(ms, key);
          Ok(JArr([hit] + deeper))
      else if HasKey(ms, key) && hit == JBool(false) then Ok(hit)
      else
        var deeper :- DeepTraverse(ms, key);
        Ok(JArr(deeper))
    case JArr(xs) =>
      var rs :- TraverseEach(xs, key);
      Ok(JArr(rs))
    case _ => Ok(JNull)
  }

  /** The list comprehension `[traverse_json(x, key) for x in xs]`: element-wise,
      raising the first element's exception. */
  function TraverseEach(xs: seq<Json>, key: string): (r: Result<seq<Json>>)
    ensures r.Ok? <==> forall i :: 0 <= i < |xs| ==> Traverse(xs[i], key).Ok?
    ensures r.Ok? ==> |r.value| == |xs|
    ensures r.Ok? ==> forall i :: 0 <= i < |xs| ==> r.value[i] == Traverse(xs[i], key).value
  {
    if |xs| == 0 then Ok([])
    else
      var head :- Traverse(xs[0], key);
      var tail :- TraverseEach(xs[1..], key);
      assert forall i :: 1 <= i < |xs| ==> xs[i] == xs[1..][i - 1];
      Ok([head] + tail)
  }

  /** `deep_traverse(data, key)`: the members' sub-results in member order. */
  function DeepTraverse(ms: seq<Member>, key: string): Result<seq<Json>> {
    if |ms| == 0 then Ok([])
    else Append(MemberHits(ms[0], key), DeepTraverse(ms[1..], key))
  }

  /** One loop iteration of `deep_traverse`: the member value's sub-result and what it adds. */
  function MemberHits(m: Member, key: string): Result<seq<Json>> {
    var sub :- Traverse(m.value, key);
    Contribution(sub)
  }

  /** Two lists of hits one after the other; the earlier exception wins. */
  function Append(x: Result<seq<Json>>, y: Result<seq<Json>>): (r: Result<seq<Json>>)
    ensures x.Err? ==> r == x
    ensures x.Ok? && y.Err? ==> r == y
    ensures x.Ok? && y.Ok? ==> r == Ok(x.value + y.value)
  {
    if x.Err? then x else if y.Err? then y else Ok(x.value + y.value)
  }

  /** What one member's sub-result adds to the `deep_traverse` list: nothing
      for None, its elements for a list (its elements' elements when the first
      element is a list), the value itself otherwise. */
  function Contribution(sub: Json): (r: Result<seq<Json>>)
    ensures sub == JNull ==> r == Ok([])
    ensures !sub.JNull? && !sub.JArr? ==> r == Ok([sub])
    ensures sub.JArr? && (|sub.items| == 0 || !sub.items[0].JArr?) ==> r == Ok(sub.items)
    ensures sub.JArr? && AllLists(sub.items) ==> r == Ok(Concat(sub.items))
  {
    match sub
    case JNull => Ok([])
    case JArr(l) =>
      if |l| != 0 && l[0].JArr? then SpliceAll(l) else Ok(l)
    case _ => Ok([sub])
  }

  predicate AllLists(xs: seq<Json>) {
    forall i :: 0 <= i < |xs| ==> xs[i].JArr?
  }

  /** The concatenation of the element lists of a list of lists. */
  function Concat(xs: seq<Json>): seq<Json>
    requires AllLists(xs)
  {
    if |xs| == 0 then [] else xs[0].items + Concat(xs[1..])
  }

  /** `for x in xs: out.extend(x)`, which raises on the first element that is
      not iterable. */
  function SpliceAll(xs: seq<Json>): (r: Result<seq<Json>>)
    ensures AllLists(xs) ==> r == Ok(Concat(xs))
    ensures r.Err? <==> exists i :: 0 <= i < |xs| && (xs[i].JNull? || xs[i].JBool? || xs[i].JNum?)
  {
    if |xs| == 0 then Ok([])
    else
      var head :- Iterate(xs[0]);
      var tail :- SpliceAll(xs[1..]);
      Ok(head + tail)
  }

  /** The `for index in indices` loop of `recursive_get`, stopping at None. */
  function Walk(data: Json, path: seq<string>): Result<Json>
    decreases |path|
  {
    if |path| == 0 then Ok(data)
    else
      var step :- Traverse(data, path[0]);
      if step == JNull then Ok(JNull) else Walk(step, path[1..])
  }

  /** `recursive_get(data, *path)`. */
  function RecursiveGet(data: Json, path: seq<string>): (r: Result<Json>)
    ensures Walk(data, path).Err? ==> r == Walk(data, path)
    ensures Walk(data, path) == Ok(JNull) ==> r == Ok(JNull)
    ensures Walk(data, path).Ok? && !Flattens(Walk(data, path).value) ==> r == Walk(data, path)
    ensures (Walk(data, path).Ok? && Flattens(Walk(data, path).value)
             && AllLists(Walk(data, path).value.items))
            ==> r == Ok(JArr(Concat(Walk(data, path).value.items)))
  {
    var found :- Walk(data, path);
    if Flattens(found) then
      var flat :- SpliceAll(found.items);
      Ok(JArr(flat))
    else Ok(found)
  }

  /** The guard `results and isinstance(results, list) and isinstance(results[0], list)`. */
  predicate Flattens(j: Json) {
    Truthy(j) && j.JArr? && j.items[0].JArr?
  }

  /** `recursive_get` as the source writes it, with its `for` loop over the
      path and the early return on None. */
  method RecursiveGetLoop(data: Json, path: seq<string>) returns (r: Result<Json>)
    ensures r == RecursiveGet(data, path)
  {
    var results := data;
    var i := 0;
    while i < |path|
      invariant 0 <= i <= |path|
      invariant results != JNull || i == 0
      invariant Walk(data, path) == Walk(results, path[i..])
    {
      var step := Traverse(results, path[i]);
      if step.Err? {
        return Err(step.error);
      }
      results := step.value;
      if results == JNull {
        return Ok(JNull);
      }
      i := i + 1;
    }
    if Flattens(results) {
      var flat := SpliceAll(results.items);
      if flat.Err? {
        return Err(flat.error);
      }
      return Ok(JArr(flat.value));
    }
    return Ok(results);
  }

  // ----- properties of the resolver -----

  /** A truthy value stored at the key, with no truthy "children" sibling, is the result. */
  lemma DirectHit(ms: seq<Member>, key: string, v: Json)
    requires Get(ms, key) == Some(v) && Truthy(v)
    requires !Truthy(GetOrNull(ms, "children"))
    ensures Traverse(JObj(ms), key) == Ok(v)
  {
  }

  /** With a truthy "children" sibling the direct hit heads the list of deeper hits. */
  lemma ChildrenMerge(ms: seq<Member>, key: string, v: Json)
    requires Get(ms, key) == Some(v) && Truthy(v)
    requires Truthy(GetOrNull(ms, "children"))
    ensures DeepTraverse(ms, key).Ok? ==> Traverse(JObj(ms), key) == Ok(JArr([v] + DeepTraverse(ms, key).value))
    ensures DeepTraverse(ms, key).Err? ==> Traverse(JObj(ms), key) == Err(DeepTraverse(ms, key).error)
  {
  }

  /** A stored `False` is a hit; every other falsy value, and a missing key,
      falls through to the deep search. */
  lemma FalsyFallsThrough(ms: seq<Member>, key: string)
    ensures Get(ms, key) == Some(JBool(false)) ==> Traverse(JObj(ms), key) == Ok(JBool(false))
    ensures Get(ms, key) != Some(JBool(false)) && !Truthy(GetOrNull(ms, key)) ==>
              Traverse(JObj(ms), key) == (match DeepTraverse(ms, key)
                                          case Ok(rs) => Ok(JArr(rs))
                                          case Err(e) => Err(e))
  {
  }

  /** The deep search visits members in order: searching `a + b` appends the
      hits of `b` to those of `a`, and raises the first exception. */
  lemma {:induction false} DeepTraverseAppend(a: seq<Member>, b: seq<Member>, key: string)
    ensures DeepTraverse(a + b, key) == Append(DeepTraverse(a, key), DeepTraverse(b, key))
  {
    var z := DeepTraverse(b, key);
    if |a| == 0 {
      assert a + b == b;
      if z.Ok? {
        assert [] + z.value == z.value;
      }
    } else {
      assert (a + b)[0] == a[0];
      assert (a + b)[1..] == a[1..] + b;
      var x, y := MemberHits(a[0], key), DeepTraverse(a[1..], key);
      DeepTraverseAppend(a[1..], b, key);
      assert DeepTraverse(a + b, key) == Append(x, Append(y, z));
      AppendAssociative(x, y, z);
    }
  }

  lemma AppendAssociative(x: Result<seq<Json>>, y: Result<seq<Json>>, z: Result<seq<Json>>)
    ensures Append(x, Append(y, z)) == Append(Append(x, y), z)
  {
    if x.Ok? && y.Ok? && z.Ok? {
      assert x.value + (y.value + z.value) == (x.value + y.value) + z.value;
    }
  }

  /** Once a path step yields None, the rest of the path is never looked at. */
  lemma {:induction false} ShortCircuit(data: Json, path: seq<string>, rest: seq<string>)
    requires Walk(data, path) == Ok(JNull)
    ensures RecursiveGet(data, path + rest) == Ok(JNull)
  {
    WalkPrefixNull(data, path, rest);
  }

  lemma {:induction false} WalkPrefixNull(data: Json, path: seq<string>, rest: seq<string>)
    requires Walk(data, path) == Ok(JNull)
    ensures Walk(data, path + rest) == Ok(JNull)
    decreases |path|
  {
    if |path| == 0 {
      assert data == JNull;
      assert Walk(JNull, rest) == Ok(JNull) by {
        if |rest| > 0 {
          assert Traverse(JNull, rest[0]) == Ok(JNull);
        }
      }
    } else {
      assert (path + rest)[0] == path[0];
      assert (path + rest)[1..] == path[1..] + rest;
      var step := Traverse(data, path[0]);
      if step.Ok? && step.value != JNull {
        WalkPrefixNull(step.value, path[1..], rest);
      }
    }
  }

  // ----- "not found" -----

  /** The key occurs at no depth of `j`. */
  predicate KeyAbsent(j: Json, key: string) {
    match j
    case JObj(ms) => forall i :: 0 <= i < |ms| ==> ms[i].key != key && KeyAbsent(ms[i].value, key)
    case JArr(xs) => forall i :: 0 <= i < |xs| ==> KeyAbsent(xs[i], key)
    case _ => true
  }

  /** Every list in `j` holds only objects (the shape of both API schemas). */
  predicate ListsOfObjects(j: Json) {
    match j
    case JObj(ms) => forall i :: 0 <= i < |ms| ==> ListsOfObjects(ms[i].value)
    case JArr(xs) => forall i :: 0 <= i < |xs| ==> xs[i].JObj? && ListsOfObjects(xs[i])
    case _ => true
  }

  /** For documents whose lists hold objects, a key found at no depth resolves
      to the empty list (not None) below an object. */
  lemma {:induction false} NotFoundIsEmpty(j: Json, key: string)
    requires KeyAbsent(j, key) && ListsOfObjects(j)
    ensures j.JObj? ==> Traverse(j, key) == Ok(JArr([]))
    ensures j.JArr? ==> Traverse(j, key) == Ok(JArr(seq(|j.items|, _ => JArr([]))))
  {
    match j
    case JObj(ms) =>
      assert !HasKey(ms, key);
      NotFoundMembers(ms, key);
    case JArr(xs) =>
      forall i | 0 <= i < |xs| ensures Traverse(xs[i], key) == Ok(JArr([])) {
        NotFoundIsEmpty(xs[i], key);
      }
      var rs := TraverseEach(xs, key);
      assert rs.Ok?;
      assert rs.value == seq(|xs|, _ => JArr([]));
    case _ =>
  }

  lemma {:induction false} NotFoundMembers(ms: seq<Member>, key: string)
    requires forall i :: 0 <= i < |ms| ==> KeyAbsent(ms[i].value, key) && ListsOfObjects(ms[i].value)
    ensures DeepTraverse(ms, key) == Ok([])
  {
    if |ms| > 0 {
      var v := ms[0].value;
      NotFoundIsEmpty(v, key);
      if v.JArr? {
        var empties := seq(|v.items|, _ => JArr([]));
        if |empties| > 0 {
          EmptiesConcat(empties);
        }
        assert Contribution(JArr(empties)) == Ok([]);
      }
      assert MemberHits(ms[0], key) == Ok([]);
      NotFoundMembers(ms[1..], key);
      var none: seq<Json> := [];
      assert none + none == none;
      assert DeepTraverse(ms, key) == Append(Ok(none), Ok(none));
    }
  }

  lemma {:induction false} EmptiesConcat(xs: seq<Json>)
    requires forall i :: 0 <= i < |xs| ==> xs[i] == JArr([])
    ensures AllLists(xs) && Concat(xs) == []
  {
    if |xs| > 0 {
      EmptiesConcat(xs[1..]);
    }
  }

  /** Below an object whose lists hold objects, a path whose first key occurs
      nowhere resolves to `[]`, whatever follows. */
  lemma {:induction false} MissingPathIsEmpty(ms: seq<Member>, path: seq<string>)
    requires |path| > 0
    requires KeyAbsent(JObj(ms), path[0]) && ListsOfObjects(JObj(ms))
    ensures RecursiveGet(JObj(ms), path) == Ok(JArr([]))
  {
    NotFoundIsEmpty(JObj(ms), path[0]);
    EmptyListWalk(path[1..]);
  }

  lemma {:induction false} EmptyListWalk(path: seq<string>)
    ensures Walk(JArr([]), path) == Ok(JArr([]))
    decreases |path|
  {
    if |path| > 0 {
      assert Traverse(JArr([]), path[0]) == Ok(JArr([]));
      EmptyListWalk(path[1..]);
    }
  }

  /** A key found nowhere can still raise: a list mixing a list and a scalar
      makes the deep search `extend` with None. */
  lemma AbsentKeyCanRaise()
    ensures var doc := JObj([Member("a", JArr([JArr([JNum(1)]), JNum(2)]))]);
            KeyAbsent(doc, "x") && RecursiveGet(doc, ["x"]) == Err(TypeError)
  {
    var doc := JObj([Member("a", JArr([JArr([JNum(1)]), JNum(2)]))]);
    MixedListKeyAbsent();
    MixedListRaises();
    assert Walk(doc, ["x"]) == Err(TypeError);
  }

  lemma MixedListKeyAbsent()
    ensures KeyAbsent(JObj([Member("a", JArr([JArr([JNum(1)]), JNum(2)]))]), "x")
  {
    var outer := JArr([JArr([JNum(1)]), JNum(2)]);
    assert KeyAbsent(outer.items[0], "x");
    assert KeyAbsent(outer, "x");
    assert "a" != "x";
  }

  /** The deep search of the example document raises. */
  lemma MixedListRaises()
    ensures Traverse(JObj([Member("a", JArr([JArr([JNum(1)]), JNum(2)]))]), "x") == Err(TypeError)
  {
    var doc := JObj([Member("a", JArr([JArr([JNum(1)]), JNum(2)]))]);
    var hits := [JArr([JNull]), JNull];
    NestedListTraverse();
    assert SpliceAll(hits) == Err(TypeError);
    assert MemberHits(doc.members[0], "x") == Err(TypeError);
    assert DeepTraverse(doc.members, "x") == Err(TypeError);
  }

  /** The list of the example above, traversed: its inner list gives a list
      of one None, its number gives None. */
  lemma NestedListTraverse()
    ensures Traverse(JArr([JArr([JNum(1)]), JNum(2)]), "x") == Ok(JArr([JArr([JNull]), JNull]))
  {
    var inner: seq<Json> := [JNum(1)];
    assert TraverseEach(inner, "x").value == [JNull];
    var outer: seq<Json> := [JArr(inner), JNum(2)];
    assert TraverseEach(outer, "x").value == [JArr([JNull]), JNull];
  }
}

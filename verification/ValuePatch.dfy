// Batched $value patches: every iteration order of the patch gives the document in
// which all addressed values change at once.
module ValuePatch {
  import opened Wrappers
  import opened Documents
  import opened IdShortPath
  import opened ElementOperations
  import opened LensLaws

  // ---------------------------------------------------------------- the patch loop

  // The patch applied path by path in the given order.
  function ApplyPatch(doc: Json, values: map<string, Json>, order: seq<string>): Edit
    requires forall k :: 0 <= k < |order| ==> order[k] in values
    decreases |order|
  {
    if order == [] then Ok(doc)
    else
      match UpdateValue(doc, order[0], values[order[0]])
      case Err(e) => Err(e)
      case Ok(next) => ApplyPatch(next, values, order[1..])
  }

  // The order is the insertion order of the dictionary.
  method ApplySubmodelValuePatch(doc: Json, values: map<string, Json>, order: seq<string>) returns (r: Edit)
    requires forall k :: 0 <= k < |order| ==> order[k] in values
    ensures r == ApplyPatch(doc, values, order)
  {
    var updated := doc;
    for k := 0 to |order|
      invariant ApplyPatch(doc, values, order) == ApplyPatch(updated, values, order[k..])
    {
      assert order[k..][0] == order[k] && order[k..][1..] == order[k + 1..];
      var next := UpdateElementValue(updated, order[k], values[order[k]]);
      match next {
        case Err(e) => return Err(e);
        case Ok(d) => updated := d;
      }
    }
    return Ok(updated);
  }

  predicate EnumeratesKeys(order: seq<string>, values: map<string, Json>) {
    && (forall i, k :: 0 <= i < k < |order| ==> order[i] != order[k])
    && (forall k :: 0 <= k < |order| ==> order[k] in values)
    && (forall path :: path in values ==> path in order)
  }

  // ---------------------------------------------------------------- the simultaneous update

  function SetValue(elem: Json, value: Json): Json {
    if elem.Obj? then Obj(elem.fields["value" := value]) else elem
  }

  // All targets of m at once; `at` is the position of the node in the whole document.
  ghost function Simultaneous(node: Json, at: Pos, m: map<Pos, Json>): Json
    decreases node
  {
    if at in m then SetValue(node, m[at])
    else if !node.Obj? then node
    else
      Obj(map key | key in node.fields ::
            if IsChildKey(key) && node.fields[key].Arr? then Arr(SimultaneousKids(node.fields[key].items, at, key, m))
            else node.fields[key])
  }

  ghost function SimultaneousKids(items: seq<Json>, at: Pos, key: string, m: map<Pos, Json>): (r: seq<Json>)
    ensures |r| == |items|
    ensures forall i :: 0 <= i < |r| ==> r[i] == Simultaneous(items[i], at + [Step(key, i)], m)
    decreases items
  {
    seq(|items|, i requires 0 <= i < |items| => Simultaneous(items[i], at + [Step(key, i)], m))
  }

  ghost predicate AgreeBelow(at: Pos, m: map<Pos, Json>, n: map<Pos, Json>) {
    forall q: Pos :: at <= q ==> (q in m <==> q in n) && (q in m ==> m[q] == n[q])
  }

  // A child of the simultaneous update is the simultaneous update of the child.
  lemma SimultaneousKid(node: Json, at: Pos, m: map<Pos, Json>, key: string, i: nat)
    requires at !in m && IsChildKey(key) && i < |Kids(node, key)|
    ensures |Kids(Simultaneous(node, at, m), key)| == |Kids(node, key)|
    ensures Kids(Simultaneous(node, at, m), key)[i] == Simultaneous(Kids(node, key)[i], at + [Step(key, i)], m)
  {
  }

  lemma {:induction false} SimultaneousAgree(node: Json, at: Pos, m: map<Pos, Json>, n: map<Pos, Json>)
    requires AgreeBelow(at, m, n)
    ensures Simultaneous(node, at, m) == Simultaneous(node, at, n)
    decreases node
  {
    assert at <= at;
    if at !in m && node.Obj? {
      var a, b := Simultaneous(node, at, m), Simultaneous(node, at, n);
      forall key | key in node.fields ensures a.fields[key] == b.fields[key] {
        if IsChildKey(key) && node.fields[key].Arr? {
          var items := node.fields[key].items;
          forall i | 0 <= i < |items|
            ensures Simultaneous(items[i], at + [Step(key, i)], m) == Simultaneous(items[i], at + [Step(key, i)], n)
          {
            SimultaneousAgree(items[i], at + [Step(key, i)], m, n);
          }
          assert SimultaneousKids(items, at, key, m) == SimultaneousKids(items, at, key, n);
        }
      }
      assert a.fields == b.fields;
    }
  }

  lemma {:induction false} SimultaneousNothing(node: Json, at: Pos)
    ensures Simultaneous(node, at, map[]) == node
    decreases node
  {
    if node.Obj? {
      var a := Simultaneous(node, at, map[]);
      forall key | key in node.fields ensures a.fields[key] == node.fields[key] {
        if IsChildKey(key) && node.fields[key].Arr? {
          var items := node.fields[key].items;
          forall i | 0 <= i < |items| ensures Simultaneous(items[i], at + [Step(key, i)], map[]) == items[i] {
            SimultaneousNothing(items[i], at + [Step(key, i)]);
          }
          assert SimultaneousKids(items, at, key, map[]) == items;
        }
      }
      assert a.fields == node.fields;
    }
  }

  ghost predicate DisjointFromAll(pos: Pos, m: map<Pos, Json>) {
    forall q :: q in m ==> Disjoint(pos, q)
  }

  // Where no target lies at or below a node, the node is unchanged.
  lemma SimultaneousUntouched(node: Json, at: Pos, m: map<Pos, Json>)
    requires forall q :: q in m ==> !(at <= q)
    ensures Simultaneous(node, at, m) == node
  {
    SimultaneousAgree(node, at, m, map[]);
    SimultaneousNothing(node, at);
  }

  lemma AddedElsewhere(at: Pos, pos: Pos, value: Json, m: map<Pos, Json>)
    requires !(at <= pos)
    ensures AgreeBelow(at, m, m[pos := value])
  {
  }

  // One more update at a fresh disjoint position is the simultaneous update with one more target.
  lemma {:induction false} OneMoreTarget(node: Json, at: Pos, rest: Pos, value: Json, m: map<Pos, Json>)
    requires ValidPos(node, rest) && ChildKeys(rest) && DisjointFromAll(at + rest, m)
    ensures ValidPos(Simultaneous(node, at, m), rest) && At(Simultaneous(node, at, m), rest) == At(node, rest)
    ensures Put(Simultaneous(node, at, m), rest, SetValue(At(node, rest), value)) ==
            Simultaneous(node, at, m[at + rest := value])
    decreases |rest|
  {
    if rest == [] {
      assert at + rest == at;
      SimultaneousUntouched(node, at, m);
    } else {
      assert at <= at + rest && at + rest != at;
      assert at !in m;
      var key, k := rest[0].key, rest[0].idx;
      var kids := Kids(node, key);
      var down := at + [rest[0]];
      assert down + rest[1..] == at + rest;
      SuffixKeys(rest, 1);
      OneMoreTarget(kids[k], down, rest[1..], value, m);
      SimultaneousKid(node, at, m, key, k);
      GrownNode(node, at, rest, value, m);
    }
  }

  // One level of OneMoreTarget, given the level below.
  lemma GrownNode(node: Json, at: Pos, rest: Pos, value: Json, m: map<Pos, Json>)
    requires ValidPos(node, rest) && rest != [] && ChildKeys(rest) && at !in m
    requires ValidPos(Simultaneous(node, at, m), rest)
    requires Put(Kids(Simultaneous(node, at, m), rest[0].key)[rest[0].idx], rest[1..], SetValue(At(node, rest), value)) ==
             Simultaneous(Kids(node, rest[0].key)[rest[0].idx], at + [rest[0]], m[at + rest := value])
    ensures Put(Simultaneous(node, at, m), rest, SetValue(At(node, rest), value)) ==
            Simultaneous(node, at, m[at + rest := value])
  {
    var n := m[at + rest := value];
    var key, k := rest[0].key, rest[0].idx;
    assert |at + rest| > |at| && at !in n;
    var a, b := Simultaneous(node, at, m), Simultaneous(node, at, n);
    var put := Put(a, rest, SetValue(At(node, rest), value));
    forall other | other in node.fields ensures put.fields[other] == b.fields[other] {
      if IsChildKey(other) && node.fields[other].Arr? {
        var items := node.fields[other].items;
        KidsElsewhere(items, at, other, rest, value, m);
        if other == key {
          assert SimultaneousKids(items, at, other, m)[k := SimultaneousKids(items, at, other, n)[k]] ==
                 SimultaneousKids(items, at, other, n);
        } else {
          assert SimultaneousKids(items, at, other, m) == SimultaneousKids(items, at, other, n);
        }
      }
    }
    assert put.fields == b.fields;
  }

  // The siblings of the path to a new target do not see it.
  lemma KidsElsewhere(items: seq<Json>, at: Pos, key: string, rest: Pos, value: Json, m: map<Pos, Json>)
    requires rest != []
    ensures forall i :: 0 <= i < |items| && Step(key, i) != rest[0] ==>
              SimultaneousKids(items, at, key, m)[i] == SimultaneousKids(items, at, key, m[at + rest := value])[i]
  {
    forall i | 0 <= i < |items| && Step(key, i) != rest[0]
      ensures SimultaneousKids(items, at, key, m)[i] == SimultaneousKids(items, at, key, m[at + rest := value])[i]
    {
      var down := at + [Step(key, i)];
      assert (at + rest)[|at|] == rest[0] && down[|at|] == Step(key, i);
      AddedElsewhere(down, at + rest, value, m);
      SimultaneousAgree(items[i], down, m, m[at + rest := value]);
    }
  }

  // ---------------------------------------------------------------- order independence

  // Every path resolves to an object, and no position equals or contains another.
  ghost predicate Compatible(doc: Json, values: map<string, Json>) {
    && (forall path :: path in values ==> LocatePath(doc, path).Ok? && At(doc, LocatePath(doc, path).value).Obj?)
    && (forall p, q :: p in values && q in values && p != q ==>
          Disjoint(LocatePath(doc, p).value, LocatePath(doc, q).value))
  }

  ghost predicate IsTarget(doc: Json, paths: set<string>, path: string, pos: Pos) {
    path in paths && LocatePath(doc, path) == Ok(pos)
  }

  ghost function Positions(doc: Json, paths: set<string>): set<Pos> {
    set path | path in paths && LocatePath(doc, path).Ok? :: LocatePath(doc, path).value
  }

  ghost function PathTo(doc: Json, paths: set<string>, pos: Pos): string
    requires pos in Positions(doc, paths)
    ensures IsTarget(doc, paths, PathTo(doc, paths, pos), pos)
  {
    var path :| path in paths && LocatePath(doc, path).Ok? && LocatePath(doc, path).value == pos;
    path
  }

  // The new values of some of the paths, by position.
  ghost function Targets(doc: Json, values: map<string, Json>, paths: set<string>): map<Pos, Json>
    requires paths <= values.Keys
  {
    map pos | pos in Positions(doc, paths) :: values[PathTo(doc, paths, pos)]
  }

  lemma TargetOf(doc: Json, values: map<string, Json>, paths: set<string>, path: string)
    requires Compatible(doc, values) && paths <= values.Keys && path in paths
    ensures LocatePath(doc, path).value in Targets(doc, values, paths)
    ensures Targets(doc, values, paths)[LocatePath(doc, path).value] == values[path]
  {
    var pos := LocatePath(doc, path).value;
    assert pos in Positions(doc, paths);
    var other := PathTo(doc, paths, pos);
    assert IsTarget(doc, paths, other, pos);
    assert other != path ==> Disjoint(pos, pos);
  }

  lemma TargetsGrow(doc: Json, values: map<string, Json>, paths: set<string>, path: string)
    requires Compatible(doc, values) && paths <= values.Keys && path in values
    ensures Targets(doc, values, paths + {path}) == Targets(doc, values, paths)[LocatePath(doc, path).value := values[path]]
  {
    var m, n := Targets(doc, values, paths), Targets(doc, values, paths + {path});
    var pos := LocatePath(doc, path).value;
    TargetOf(doc, values, paths + {path}, path);
    forall q ensures (q in n && q != pos ==> q in m && m[q] == n[q]) && (q in m ==> q in n) {
      if q in n && q != pos {
        OldTarget(doc, values, paths, path, q);
      }
      if q in m {
        KeptTarget(doc, values, paths, path, q);
      }
    }
    OneMore(m, n, pos, values[path]);
  }

  lemma OneMore<K, V>(m: map<K, V>, n: map<K, V>, k: K, v: V)
    requires k in n && n[k] == v && forall q :: (q in n && q != k ==> q in m && m[q] == n[q]) && (q in m ==> q in n)
    ensures n == m[k := v]
  {
  }

  lemma KeptTarget(doc: Json, values: map<string, Json>, paths: set<string>, path: string, q: Pos)
    requires Compatible(doc, values) && paths <= values.Keys && path in values && q in Targets(doc, values, paths)
    ensures q in Targets(doc, values, paths + {path})
  {
    TargetOf(doc, values, paths + {path}, PathTo(doc, paths, q));
  }

  // A target of the larger patch is the new one or an old one.
  lemma OldTarget(doc: Json, values: map<string, Json>, paths: set<string>, path: string, q: Pos)
    requires Compatible(doc, values) && paths <= values.Keys && path in values
    requires q in Targets(doc, values, paths + {path}) && q != LocatePath(doc, path).value
    ensures q in Targets(doc, values, paths)
    ensures Targets(doc, values, paths)[q] == Targets(doc, values, paths + {path})[q]
  {
    var other := PathTo(doc, paths + {path}, q);
    TargetOf(doc, values, paths, other);
    TargetOf(doc, values, paths + {path}, other);
  }

  function Heads(order: seq<string>, n: nat): set<string>
    requires n <= |order|
  {
    set k | 0 <= k < n :: order[k]
  }

  // After n steps the document is the simultaneous update of the first n paths,
  // and every remaining path still resolves to where it did.
  ghost predicate Progress(doc: Json, values: map<string, Json>, order: seq<string>, n: nat)
    requires n <= |order| && EnumeratesKeys(order, values)
  {
    var now := Simultaneous(doc, [], Targets(doc, values, Heads(order, n)));
    && ApplyPatch(doc, values, order) == ApplyPatch(now, values, order[n..])
    && forall k :: n <= k < |order| ==> LocatePath(now, order[k]) == LocatePath(doc, order[k])
  }

  lemma {:induction false} PatchPrefix(doc: Json, values: map<string, Json>, order: seq<string>, n: nat)
    requires Compatible(doc, values) && EnumeratesKeys(order, values) && n <= |order|
    ensures Progress(doc, values, order, n)
  {
    if n == 0 {
      assert Targets(doc, values, Heads(order, 0)) == map[];
      SimultaneousNothing(doc, []);
      assert order[0..] == order;
    } else {
      PatchPrefix(doc, values, order, n - 1);
      PatchStep(doc, values, order, n - 1);
    }
  }

  lemma PatchStep(doc: Json, values: map<string, Json>, order: seq<string>, n: nat)
    requires Compatible(doc, values) && EnumeratesKeys(order, values) && n < |order|
    requires Progress(doc, values, order, n)
    ensures Progress(doc, values, order, n + 1)
  {
    var paths := Heads(order, n);
    var m := Targets(doc, values, paths);
    var now := Simultaneous(doc, [], m);
    var path, value := order[n], values[order[n]];
    var pos := LocatePath(doc, path).value;
    forall q | q in m ensures Disjoint(pos, q) {
      var other := PathTo(doc, paths, q);
      var k :| 0 <= k < n && order[k] == other;
    }
    assert Heads(order, n + 1) == paths + {path};
    TargetsGrow(doc, values, paths, path);
    LocateKeys(doc, Parse(path).value);
    assert [] + pos == pos;
    OneMoreTarget(doc, [], pos, value, m);
    var next := Put(now, pos, SetValue(At(doc, pos), value));
    assert next == Simultaneous(doc, [], Targets(doc, values, Heads(order, n + 1)));
    UpdateIsPut(now, path, value, pos);
    assert order[n..][0] == path && order[n..][1..] == order[n + 1..];
    forall k | n + 1 <= k < |order| ensures LocatePath(next, order[k]) == LocatePath(doc, order[k]) {
      var q := LocatePath(doc, order[k]).value;
      assert Disjoint(pos, q);
      UpdateFrame(now, pos, value, order[k], q);
    }
  }

  lemma UpdateIsPut(doc: Json, path: string, value: Json, pos: Pos)
    requires LocatePath(doc, path) == Ok(pos) && At(doc, pos).Obj?
    ensures UpdateValue(doc, path, value) == Ok(Put(doc, pos, SetValue(At(doc, pos), value)))
  {
    assert At(doc, pos).fields + map["value" := value] == At(doc, pos).fields["value" := value];
  }

  lemma UpdateFrame(doc: Json, pos: Pos, value: Json, other: string, q: Pos)
    requires ValidPos(doc, pos) && pos != [] && ChildKeys(pos) && At(doc, pos).Obj?
    requires LocatePath(doc, other) == Ok(q) && Disjoint(pos, q)
    ensures LocatePath(Put(doc, pos, SetValue(At(doc, pos), value)), other) == Ok(q)
  {
    LocateFrame(doc, pos, SetValue(At(doc, pos), value), Parse(other).value, q);
  }

  lemma HeadsAll(order: seq<string>, values: map<string, Json>)
    requires EnumeratesKeys(order, values)
    ensures Heads(order, |order|) == values.Keys
  {
  }

  // The iteration order does not matter: the result is the simultaneous update.
  lemma PatchIsSimultaneous(doc: Json, values: map<string, Json>, order: seq<string>)
    requires Compatible(doc, values) && EnumeratesKeys(order, values)
    ensures ApplyPatch(doc, values, order) == Ok(Simultaneous(doc, [], Targets(doc, values, values.Keys)))
  {
    PatchPrefix(doc, values, order, |order|);
    HeadsAll(order, values);
    assert order[|order|..] == [];
  }

  lemma PatchOrderFree(doc: Json, values: map<string, Json>, a: seq<string>, b: seq<string>)
    requires Compatible(doc, values) && EnumeratesKeys(a, values) && EnumeratesKeys(b, values)
    ensures ApplyPatch(doc, values, a) == ApplyPatch(doc, values, b)
  {
    PatchIsSimultaneous(doc, values, a);
    PatchIsSimultaneous(doc, values, b);
  }

  // ---------------------------------------------------------------- what the patch changes

  // No target strictly above a position.
  ghost predicate NoneAbove(q: Pos, m: map<Pos, Json>) {
    forall p :: p in m ==> !StrictlyBelow(q, p)
  }

  lemma {:induction false} SimultaneousPath(node: Json, at: Pos, rest: Pos, m: map<Pos, Json>)
    requires ValidPos(node, rest) && ChildKeys(rest) && NoneAbove(at + rest, m)
    ensures ValidPos(Simultaneous(node, at, m), rest)
    ensures At(Simultaneous(node, at, m), rest) == Simultaneous(At(node, rest), at + rest, m)
    decreases |rest|
  {
    if rest == [] {
      assert at + rest == at;
    } else {
      var down := at + [rest[0]];
      assert down + rest[1..] == at + rest;
      assert at in m ==> StrictlyBelow(at + rest, at);
      SimultaneousKid(node, at, m, rest[0].key, rest[0].idx);
      SuffixKeys(rest, 1);
      SimultaneousPath(Kids(node, rest[0].key)[rest[0].idx], down, rest[1..], m);
    }
  }

  // Each addressed element gets exactly its new value; a position that neither contains
  // an addressed element nor lies inside one is unchanged.
  lemma PatchChangesOnlyValues(doc: Json, values: map<string, Json>, order: seq<string>, q: Pos)
    requires Compatible(doc, values) && EnumeratesKeys(order, values)
    requires ValidPos(doc, q) && ChildKeys(q)
    requires forall path :: path in values ==> !StrictlyBelow(q, LocatePath(doc, path).value)
    ensures ApplyPatch(doc, values, order).Ok?
    ensures var after := ApplyPatch(doc, values, order).value;
            && ValidPos(after, q)
            && (forall path :: path in values && LocatePath(doc, path) == Ok(q) ==>
                  At(after, q) == SetValue(At(doc, q), values[path]))
            && ((forall path :: path in values ==> Disjoint(q, LocatePath(doc, path).value)) ==>
                  At(after, q) == At(doc, q))
  {
    PatchIsSimultaneous(doc, values, order);
    var m := Targets(doc, values, values.Keys);
    assert [] + q == q;
    SimultaneousPath(doc, [], q, m);
    forall path | path in values && LocatePath(doc, path) == Ok(q) ensures q in m && m[q] == values[path] {
      TargetOf(doc, values, values.Keys, path);
    }
    if forall path :: path in values ==> Disjoint(q, LocatePath(doc, path).value) {
      SimultaneousUntouched(At(doc, q), q, m);
    }
  }
}

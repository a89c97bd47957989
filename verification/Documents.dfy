// JSON documents as the editor, the projections and the templates see them, and
// positions inside them. A Python reference into a deep copy is a position here, and
// an assignment through that reference is an update at the position.
module Documents {
  import opened Wrappers

  datatype Json =
    | Null
    | Bool(b: bool)
    | Num(n: int)
    | Str(s: string)
    | Arr(items: seq<Json>)
    | Obj(fields: map<string, Json>)

  // dict.get(key); only objects have keys.
  function Get(j: Json, key: string): Option<Json> {
    if j.Obj? && key in j.fields then Some(j.fields[key]) else None
  }

  // Python's truth value of what dict.get returned.
  predicate Truthy(o: Option<Json>) {
    match o
    case None => false
    case Some(Null) => false
    case Some(Bool(b)) => b
    case Some(Num(n)) => n != 0
    case Some(Str(s)) => s != ""
    case Some(Arr(items)) => items != []
    case Some(Obj(fields)) => fields != map[]
  }

  // Exactly these values count as false.
  lemma FalsyExactly(j: Json)
    ensures Truthy(Some(j)) <==> j !in {Null, Bool(false), Num(0), Str(""), Arr([]), Obj(map[])}
  {
  }

  // The list stored under a key; anything else has no entries.
  function Kids(j: Json, key: string): (r: seq<Json>)
    ensures forall i :: 0 <= i < |r| ==> r[i] < j
  {
    match Get(j, key)
    case Some(Arr(items)) => items
    case _ => []
  }

  const COLLECTION := Str("SubmodelElementCollection")
  const LIST := Str("SubmodelElementList")
  const ENTITY := Str("Entity")
  const ANNOTATED := Str("AnnotatedRelationshipElement")
  const BLOB := Str("Blob")

  predicate HasModelType(j: Json, modelType: Json) {
    Get(j, "modelType") == Some(modelType)
  }

  // modelType in ("SubmodelElementCollection", "SubmodelElementList")
  predicate IsBranch(j: Json) {
    HasModelType(j, COLLECTION) || HasModelType(j, LIST)
  }

  // ---------------------------------------------------------------- positions

  datatype Step = Step(key: string, idx: nat)
  type Pos = seq<Step>

  predicate ValidPos(doc: Json, pos: Pos)
    decreases |pos|
  {
    pos != [] ==>
      && pos[0].idx < |Kids(doc, pos[0].key)|
      && ValidPos(Kids(doc, pos[0].key)[pos[0].idx], pos[1..])
  }

  function At(doc: Json, pos: Pos): Json
    requires ValidPos(doc, pos)
    decreases |pos|
  {
    if pos == [] then doc else At(Kids(doc, pos[0].key)[pos[0].idx], pos[1..])
  }

  function Put(doc: Json, pos: Pos, v: Json): Json
    requires ValidPos(doc, pos)
    decreases |pos|
  {
    if pos == [] then v
    else
      var kids := Kids(doc, pos[0].key);
      var child := Put(kids[pos[0].idx], pos[1..], v);
      Obj(doc.fields[pos[0].key := Arr(kids[pos[0].idx := child])])
  }

  // Neither position lies at or below the other.
  predicate Disjoint(p: Pos, q: Pos) {
    !(p <= q) && !(q <= p)
  }

  lemma DisjointTails(p: Pos, q: Pos)
    requires p != [] && q != [] && p[0] == q[0]
    ensures p <= q <==> p[1..] <= q[1..]
    ensures Disjoint(p, q) <==> Disjoint(p[1..], q[1..])
  {
    assert p == [p[0]] + p[1..] && q == [q[0]] + q[1..];
  }

  lemma {:induction false} PutAt(doc: Json, pos: Pos, v: Json)
    requires ValidPos(doc, pos)
    ensures ValidPos(Put(doc, pos, v), pos) && At(Put(doc, pos, v), pos) == v
    decreases |pos|
  {
    if pos != [] {
      PutAt(Kids(doc, pos[0].key)[pos[0].idx], pos[1..], v);
    }
  }

  lemma {:induction false} PutSame(doc: Json, pos: Pos)
    requires ValidPos(doc, pos)
    ensures Put(doc, pos, At(doc, pos)) == doc
    decreases |pos|
  {
    if pos != [] {
      var kids := Kids(doc, pos[0].key);
      PutSame(kids[pos[0].idx], pos[1..]);
      assert kids[pos[0].idx := kids[pos[0].idx]] == kids;
      assert doc.fields[pos[0].key := doc.fields[pos[0].key]] == doc.fields;
    }
  }

  lemma {:induction false} PutPut(doc: Json, pos: Pos, v: Json, w: Json)
    requires ValidPos(doc, pos)
    ensures ValidPos(Put(doc, pos, v), pos)
    ensures Put(Put(doc, pos, v), pos, w) == Put(doc, pos, w)
    decreases |pos|
  {
    if pos != [] {
      var kids := Kids(doc, pos[0].key);
      PutPut(kids[pos[0].idx], pos[1..], v, w);
      var inner := Put(kids[pos[0].idx], pos[1..], w);
      var once := kids[pos[0].idx := Put(kids[pos[0].idx], pos[1..], v)];
      assert once[pos[0].idx := inner] == kids[pos[0].idx := inner];
      assert doc.fields[pos[0].key := Arr(once)][pos[0].key := Arr(once[pos[0].idx := inner])]
          == doc.fields[pos[0].key := Arr(kids[pos[0].idx := inner])];
    }
  }

  // Frame: an update leaves every disjoint position alone.
  lemma {:induction false} PutDisjoint(doc: Json, pos: Pos, v: Json, q: Pos)
    requires ValidPos(doc, pos) && ValidPos(doc, q) && Disjoint(pos, q)
    ensures ValidPos(Put(doc, pos, v), q) && At(Put(doc, pos, v), q) == At(doc, q)
    decreases |pos|
  {
    var kids := Kids(doc, pos[0].key);
    var child := Put(kids[pos[0].idx], pos[1..], v);
    var after := Put(doc, pos, v);
    assert Kids(after, pos[0].key) == kids[pos[0].idx := child];
    if pos[0] == q[0] {
      DisjointTails(pos, q);
      PutDisjoint(kids[pos[0].idx], pos[1..], v, q[1..]);
    } else {
      assert Kids(after, q[0].key)[q[0].idx] == Kids(doc, q[0].key)[q[0].idx];
    }
  }

  // Position arithmetic: going down q, then down r.
  lemma {:induction false} AtAppend(doc: Json, q: Pos, r: Pos)
    requires ValidPos(doc, q) && ValidPos(At(doc, q), r)
    ensures ValidPos(doc, q + r) && At(doc, q + r) == At(At(doc, q), r)
    decreases |q|
  {
    if q == [] {
      assert q + r == r;
    } else {
      assert (q + r)[1..] == q[1..] + r;
      AtAppend(Kids(doc, q[0].key)[q[0].idx], q[1..], r);
    }
  }

  lemma {:induction false} PutAppend(doc: Json, q: Pos, r: Pos, v: Json)
    requires ValidPos(doc, q) && ValidPos(At(doc, q), r)
    ensures ValidPos(doc, q + r) && Put(doc, q + r, v) == Put(doc, q, Put(At(doc, q), r, v))
    decreases |q|
  {
    AtAppend(doc, q, r);
    if q == [] {
      assert q + r == r;
    } else {
      assert (q + r)[1..] == q[1..] + r;
      PutAppend(Kids(doc, q[0].key)[q[0].idx], q[1..], r, v);
    }
  }

  lemma {:induction false} PrefixValid(doc: Json, q: Pos, r: Pos)
    requires ValidPos(doc, q + r)
    ensures ValidPos(doc, q) && ValidPos(At(doc, q), r)
    decreases |q|
  {
    if q == [] {
      assert q + r == r;
    } else {
      assert (q + r)[1..] == q[1..] + r;
      PrefixValid(Kids(doc, q[0].key)[q[0].idx], q[1..], r);
    }
  }
}

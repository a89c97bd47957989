// Lens laws of the editor: what navigation and further edits see after an update.
module LensLaws {
  import opened Wrappers
  import opened Sequences
  import opened Documents
  import opened IdShortPath
  import opened Navigation
  import opened ElementOperations

  predicate IsChildKey(key: string) {
    key == "submodelElements" || key == "value" || key == "statements" || key == "annotations"
  }

  predicate ChildKeys(pos: Pos) {
    forall k :: 0 <= k < |pos| ==> IsChildKey(pos[k].key)
  }

  // A path looks the same at the updated position before and after.
  predicate Alike(old_: Json, new_: Json, pos: Pos, parts: seq<Part>) {
    0 < |pos| <= |parts| ==>
      Matches(old_, pos[|pos| - 1].idx, parts[|pos| - 1]) == Matches(new_, pos[|pos| - 1].idx, parts[|pos| - 1])
  }

  predicate StrictlyBelow(q: Pos, pos: Pos) {
    pos <= q && pos != q
  }

  predicate KeepsIdentity(old_: Json, new_: Json) {
    old_.Obj? && new_.Obj? && Get(old_, "idShort") == Get(new_, "idShort")
  }

  // ---------------------------------------------------------------- what an update keeps in an ancestor

  lemma PutShape(doc: Json, pos: Pos, v: Json)
    requires ValidPos(doc, pos) && pos != [] && IsChildKey(pos[0].key)
    ensures var kids := Kids(doc, pos[0].key);
            Kids(Put(doc, pos, v), pos[0].key) == kids[pos[0].idx := Put(kids[pos[0].idx], pos[1..], v)]
    ensures forall key :: key != pos[0].key ==> Get(Put(doc, pos, v), key) == Get(doc, key)
    ensures forall key :: Truthy(Get(Put(doc, pos, v), key)) == Truthy(Get(doc, key))
    ensures NavKey(Put(doc, pos, v)) == NavKey(doc) && EditKey(Put(doc, pos, v)) == EditKey(doc)
    ensures KeepsIdentity(doc, Put(doc, pos, v)) && IsBranch(Put(doc, pos, v)) == IsBranch(doc)
  {
  }

  // Find gives the same index in a list with one updated entry.
  lemma FindAfterPut(items: seq<Json>, pos: Pos, v: Json, parts: seq<Part>)
    requires pos != [] && parts != [] && pos[0].idx < |items| && ValidPos(items[pos[0].idx], pos[1..])
    requires ChildKeys(pos) && Alike(At(items[pos[0].idx], pos[1..]), v, pos, parts)
    ensures Find(items[pos[0].idx := Put(items[pos[0].idx], pos[1..], v)], parts[0]) == Find(items, parts[0])
  {
    var k := pos[0].idx;
    var after := items[k := Put(items[k], pos[1..], v)];
    if |pos| > 1 {
      PutShape(items[k], pos[1..], v);
    }
    FindFromSame(items, after, parts[0], 0);
  }

  // The same under the key that leads to the update.
  lemma FindAfterUpdate(doc: Json, pos: Pos, v: Json, parts: seq<Part>)
    requires ValidPos(doc, pos) && pos != [] && parts != [] && ChildKeys(pos) && Alike(At(doc, pos), v, pos, parts)
    ensures Find(Kids(Put(doc, pos, v), pos[0].key), parts[0]) == Find(Kids(doc, pos[0].key), parts[0])
  {
    PutShape(doc, pos, v);
    FindAfterPut(Kids(doc, pos[0].key), pos, v, parts);
  }

  // ---------------------------------------------------------------- frames

  // The reader's walk and the editor's container walk, taken apart and put together at the
  // first step.
  lemma NavSteps(doc: Json, parts: seq<Part>, q: Pos)
    requires parts != [] && q != []
    ensures NavPos(doc, parts) == Some(q) <==>
            && q[0].key == NavKey(doc) && Find(NavKids(doc), parts[0]) == Some(q[0].idx)
            && NavPos(NavKids(doc)[q[0].idx], parts[1..]) == Some(q[1..])
  {
    HeadAndTail(q);
    var i := Find(NavKids(doc), parts[0]);
    if i.Some? {
      assert forall rest :: ([Step(NavKey(doc), i.value)] + rest)[1..] == rest;
    }
  }

  lemma ContainerSteps(doc: Json, parts: seq<Part>, q: Pos)
    requires parts != [] && q != []
    ensures ContainerPos(doc, parts) == Some(q) <==>
            && q[0].key == EditKey(doc) && Find(Kids(doc, EditKey(doc)), parts[0]) == Some(q[0].idx)
            && ContainerPos(Kids(doc, EditKey(doc))[q[0].idx], parts[1..]) == Some(q[1..])
  {
    HeadAndTail(q);
    var i := Find(Kids(doc, EditKey(doc)), parts[0]);
    if i.Some? {
      assert forall rest :: ([Step(EditKey(doc), i.value)] + rest)[1..] == rest;
    }
  }

  lemma NotBelowTail(q: Pos, pos: Pos)
    requires q != [] && pos != [] && q[0] == pos[0] && !StrictlyBelow(q, pos)
    ensures !StrictlyBelow(q[1..], pos[1..])
  {
    HeadAndTail(q);
    HeadAndTail(pos);
  }

  lemma AlikeTail(before: Json, after: Json, pos: Pos, parts: seq<Part>)
    requires ChildKeys(pos) && Alike(before, after, pos, parts) && pos != [] && parts != []
    ensures ChildKeys(pos[1..]) && Alike(before, after, pos[1..], parts[1..])
  {
    assert forall k :: 0 <= k < |pos[1..]| ==> pos[1..][k] == pos[k + 1];
    assert forall k :: 0 <= k < |parts[1..]| ==> parts[1..][k] == parts[k + 1];
  }

  // A path that does not lead strictly below an update still leads to the same position.
  lemma {:induction false} NavFrame(doc: Json, pos: Pos, v: Json, parts: seq<Part>, q: Pos)
    requires ValidPos(doc, pos) && ChildKeys(pos) && Alike(At(doc, pos), v, pos, parts)
    requires NavPos(doc, parts) == Some(q) && !StrictlyBelow(q, pos)
    ensures NavPos(Put(doc, pos, v), parts) == Some(q)
    decreases |pos|
  {
    if pos != [] && parts != [] {
      NavSteps(doc, parts, q);
      NavSteps(Put(doc, pos, v), parts, q);
      PutShape(doc, pos, v);
      if pos[0].key == NavKey(doc) {
        FindAfterUpdate(doc, pos, v, parts);
        if pos[0] == q[0] {
          NotBelowTail(q, pos);
          AlikeTail(At(doc, pos), v, pos, parts);
          NavFrame(Kids(doc, pos[0].key)[pos[0].idx], pos[1..], v, parts[1..], q[1..]);
        }
      }
    }
  }

  lemma {:induction false} ContainerFrame(doc: Json, pos: Pos, v: Json, parts: seq<Part>, q: Pos)
    requires ValidPos(doc, pos) && ChildKeys(pos) && Alike(At(doc, pos), v, pos, parts)
    requires ContainerPos(doc, parts) == Some(q) && !StrictlyBelow(q, pos)
    ensures ContainerPos(Put(doc, pos, v), parts) == Some(q)
    decreases |pos|
  {
    if pos != [] && parts != [] {
      ContainerSteps(doc, parts, q);
      ContainerSteps(Put(doc, pos, v), parts, q);
      PutShape(doc, pos, v);
      if pos[0].key == EditKey(doc) {
        FindAfterUpdate(doc, pos, v, parts);
        if pos[0] == q[0] {
          NotBelowTail(q, pos);
          AlikeTail(At(doc, pos), v, pos, parts);
          ContainerFrame(Kids(doc, pos[0].key)[pos[0].idx], pos[1..], v, parts[1..], q[1..]);
        }
      }
    }
  }

  lemma {:induction false} ContainerKeys(doc: Json, parts: seq<Part>)
    requires ContainerPos(doc, parts).Some?
    ensures ChildKeys(ContainerPos(doc, parts).value)
    decreases |parts|
  {
    if parts != [] {
      var kids := Kids(doc, EditKey(doc));
      ContainerKeys(kids[Find(kids, parts[0]).value], parts[1..]);
    }
  }

  lemma LocateKeys(doc: Json, parts: seq<Part>)
    requires Locate(doc, parts).Ok?
    ensures ChildKeys(Locate(doc, parts).value)
  {
    ContainerKeys(doc, Init(parts));
  }

  // What Locate found, piece by piece.
  lemma LocateParts(doc: Json, parts: seq<Part>, pos: Pos)
    requires Locate(doc, parts) == Ok(pos)
    ensures parts != [] && pos != [] && |pos| == |parts|
    ensures ContainerPos(doc, Init(parts)) == Some(pos[..|pos| - 1])
    ensures ValidPos(doc, pos[..|pos| - 1])
    ensures var up, last := At(doc, pos[..|pos| - 1]), pos[|pos| - 1];
            && last.key == TargetKey(parts, up)
            && last.idx < |Kids(up, last.key)|
            && Scan(Kids(up, last.key), Last(parts), 0) == Ok(last.idx)
            && At(doc, pos) == Kids(up, last.key)[last.idx]
  {
    var up := ContainerPos(doc, Init(parts)).value;
    assert pos[..|pos| - 1] == up;
    AtAppend(doc, up, [pos[|pos| - 1]]);
  }

  lemma {:induction false} ScanSame(items: seq<Json>, others: seq<Json>, target: Part, i: nat)
    requires |items| == |others| && i <= |items|
    requires forall k :: i <= k < |items| ==> items[k].Obj? == others[k].Obj?
    requires forall k :: i <= k < |items| ==> Matches(items[k], k, target) == Matches(others[k], k, target)
    ensures Scan(items, target, i) == Scan(others, target, i)
    decreases |items| - i
  {
    if i < |items| {
      assert target.Name? && items[i].Obj? ==> Matches(items[i], i, target) == (Get(items[i], "idShort") == Some(Str(target.name)));
      assert target.Name? && items[i].Obj? ==> Matches(others[i], i, target) == (Get(others[i], "idShort") == Some(Str(target.name)));
      ScanSame(items, others, target, i + 1);
    }
  }

  // The scan of one child list is not affected by an update further down.
  lemma ScanAfterPut(container: Json, rest: Pos, v: Json, key: string, target: Part)
    requires ValidPos(container, rest) && rest != [] && ChildKeys(rest)
    requires |rest| == 1 ==> At(container, rest).Obj? == v.Obj?
    requires |rest| == 1 ==> Matches(At(container, rest), rest[0].idx, target) == Matches(v, rest[0].idx, target)
    ensures Scan(Kids(Put(container, rest, v), key), target, 0) == Scan(Kids(container, key), target, 0)
    ensures Get(Put(container, rest, v), key).Some? == Get(container, key).Some?
    ensures Get(container, key).Some? ==> Get(Put(container, rest, v), key).value.Arr? == Get(container, key).value.Arr?
  {
    PutShape(container, rest, v);
    if key == rest[0].key {
      var kids := Kids(container, key);
      if |rest| > 1 {
        PutShape(kids[rest[0].idx], rest[1..], v);
      }
      ScanSame(kids, Kids(Put(container, rest, v), key), target, 0);
    }
  }

  // An edit path that does not lead strictly below an update is located where it was.
  lemma LocateFrame(doc: Json, pos: Pos, v: Json, parts: seq<Part>, q: Pos)
    requires ValidPos(doc, pos) && ChildKeys(pos) && Alike(At(doc, pos), v, pos, parts)
    requires pos != [] && At(doc, pos).Obj? == v.Obj?
    requires Locate(doc, parts) == Ok(q) && !StrictlyBelow(q, pos)
    ensures Locate(Put(doc, pos, v), parts) == Ok(q)
  {
    LocateParts(doc, parts, q);
    var up, last := q[..|q| - 1], q[|q| - 1];
    NotBelow(q, pos);
    ContainerAfter(doc, pos, v, parts, up);
    LocateContainerAfter(doc, pos, v, up, last.key, parts);
    assert q == up + [last];
  }

  // A step up from a position that is not strictly below another one is not below it at all.
  lemma NotBelow(q: Pos, pos: Pos)
    requires q != [] && !StrictlyBelow(q, pos)
    ensures !(pos <= q[..|q| - 1])
  {
  }

  lemma ContainerAfter(doc: Json, pos: Pos, v: Json, parts: seq<Part>, up: Pos)
    requires ValidPos(doc, pos) && ChildKeys(pos) && Alike(At(doc, pos), v, pos, parts)
    requires pos != [] && parts != [] && ContainerPos(doc, Init(parts)) == Some(up) && !(pos <= up)
    ensures ContainerPos(Put(doc, pos, v), Init(parts)) == Some(up)
  {
    assert |pos| <= |Init(parts)| ==> Init(parts)[|pos| - 1] == parts[|pos| - 1];
    ContainerFrame(doc, pos, v, Init(parts), up);
  }

  // An ancestor of an update is the old ancestor with the update inside it.
  lemma AncestorAfterPut(doc: Json, up: Pos, rest: Pos, v: Json)
    requires ValidPos(doc, up + rest)
    ensures ValidPos(doc, up) && ValidPos(At(doc, up), rest)
    ensures At(doc, up + rest) == At(At(doc, up), rest)
    ensures ValidPos(Put(doc, up + rest, v), up)
    ensures At(Put(doc, up + rest, v), up) == Put(At(doc, up), rest, v)
  {
    PrefixValid(doc, up, rest);
    AtAppend(doc, up, rest);
    PutAppend(doc, up, rest, v);
    PutAt(doc, up, Put(At(doc, up), rest, v));
  }

  lemma LocateContainerAfter(doc: Json, pos: Pos, v: Json, up: Pos, key: string, parts: seq<Part>)
    requires ValidPos(doc, pos) && ChildKeys(pos) && Alike(At(doc, pos), v, pos, parts)
    requires pos != [] && At(doc, pos).Obj? == v.Obj?
    requires ValidPos(doc, up) && !(pos <= up) && |parts| == |up| + 1
    ensures ValidPos(Put(doc, pos, v), up)
    ensures SearchSame(At(doc, up), At(Put(doc, pos, v), up), key, Last(parts))
  {
    if up <= pos {
      var rest := pos[|up|..];
      TakeAndDrop(pos, |up|);
      PrefixTaken(up, pos);
      SuffixKeys(pos, |up|);
      AlikeLast(At(doc, pos), v, pos, up, parts);
      SearchBelow(doc, up, rest, v, key, Last(parts));
    } else {
      PutDisjoint(doc, pos, v, up);
    }
  }

  lemma PrefixTaken<T>(a: seq<T>, b: seq<T>)
    requires a <= b
    ensures b[..|a|] == a
  {
  }

  lemma AlikeLast(before: Json, after: Json, pos: Pos, up: Pos, parts: seq<Part>)
    requires Alike(before, after, pos, parts) && up <= pos && pos != up && |parts| == |up| + 1
    ensures |pos[|up|..]| == 1 ==>
              Matches(before, pos[|up|..][0].idx, Last(parts)) == Matches(after, pos[|up|..][0].idx, Last(parts))
  {
  }

  lemma SuffixKeys(pos: Pos, n: nat)
    requires n <= |pos| && ChildKeys(pos)
    ensures ChildKeys(pos[n..])
  {
    forall k | 0 <= k < |pos[n..]| ensures IsChildKey(pos[n..][k].key) {
      assert pos[n..][k] == pos[n + k];
    }
  }

  lemma SearchBelow(doc: Json, up: Pos, rest: Pos, v: Json, key: string, target: Part)
    requires ValidPos(doc, up + rest) && rest != [] && ChildKeys(rest)
    requires |rest| == 1 ==> At(doc, up + rest).Obj? == v.Obj?
    requires |rest| == 1 ==> Matches(At(doc, up + rest), rest[0].idx, target) == Matches(v, rest[0].idx, target)
    ensures ValidPos(doc, up) && ValidPos(Put(doc, up + rest, v), up)
    ensures SearchSame(At(doc, up), At(Put(doc, up + rest, v), up), key, target)
  {
    AncestorAfterPut(doc, up, rest, v);
    SearchAfterPut(At(doc, up), rest, v, key, target);
  }

  lemma SearchAfterPut(container: Json, rest: Pos, v: Json, key: string, target: Part)
    requires ValidPos(container, rest) && rest != [] && ChildKeys(rest)
    requires |rest| == 1 ==> At(container, rest).Obj? == v.Obj?
    requires |rest| == 1 ==> Matches(At(container, rest), rest[0].idx, target) == Matches(v, rest[0].idx, target)
    ensures SearchSame(container, Put(container, rest, v), key, target)
  {
    ScanAfterPut(container, rest, v, key, target);
    PutShape(container, rest, v);
  }

  // Two containers in which the search for a target under a key ends alike.
  predicate SearchSame(before: Json, after: Json, key: string, target: Part) {
    && IsBranch(after) == IsBranch(before)
    && Scan(Kids(after, key), target, 0) == Scan(Kids(before, key), target, 0)
    && Get(after, key).Some? == Get(before, key).Some?
    && (Get(before, key).Some? ==> Get(after, key).value.Arr? == Get(before, key).value.Arr?)
  }

  // ---------------------------------------------------------------- editing and reading the same element

  // The last element reached answers to the last part.
  lemma {:induction false} NavReaches(doc: Json, parts: seq<Part>, pos: Pos)
    requires parts != [] && NavPos(doc, parts) == Some(pos)
    ensures Matches(At(doc, pos), pos[|pos| - 1].idx, Last(parts))
    decreases |parts|
  {
    assert pos == [pos[0]] + pos[1..];
    if |parts| > 1 {
      NavReaches(NavKids(doc)[pos[0].idx], parts[1..], pos[1..]);
    } else {
      assert pos[1..] == [];
    }
  }

  // A branch whose own submodelElements would hide its value list from the reader.
  predicate Shadowed(parts: seq<Part>, container: Json) {
    |parts| > 1 && IsBranch(container) && Truthy(Get(container, "submodelElements"))
  }

  // Where an edit works, the reader arrives, exactly when the parent is not shadowed.
  lemma LocatedIsNavigated(doc: Json, parts: seq<Part>, pos: Pos)
    requires Locate(doc, parts) == Ok(pos) && At(doc, pos).Obj?
    ensures ValidPos(doc, pos[..|pos| - 1])
    ensures NavPos(doc, parts) == Some(pos) <==> !Shadowed(parts, At(doc, pos[..|pos| - 1]))
  {
    var up, last := pos[..|pos| - 1], pos[|pos| - 1];
    LocatedStep(doc, parts, pos);
    LastStep(pos);
    NavOneIs(At(doc, up), Last(parts), up, last);
    KeyRead(At(doc, up), parts, last);
  }

  lemma LastStep(pos: Pos)
    requires pos != []
    ensures pos[..|pos| - 1] + [pos[|pos| - 1]] == pos
  {
  }

  lemma NavOneIs(c: Json, part: Part, up: Pos, last: Step)
    requires Find(Kids(c, last.key), part) == Some(last.idx)
    ensures NavOne(c, part, up) == Some(up + [last]) <==> NavKey(c) == last.key
  {
    var other := NavOne(c, part, up);
    assert other.Some? ==> other.value[|up|].key == NavKey(c);
    assert (up + [last])[|up|] == last;
  }

  lemma KeyRead(c: Json, parts: seq<Part>, last: Step)
    requires parts != [] && last.key == TargetKey(parts, c) && last.idx < |Kids(c, last.key)|
    ensures NavKey(c) == last.key <==> !Shadowed(parts, c)
  {
  }

  lemma LocatedStep(doc: Json, parts: seq<Part>, pos: Pos)
    requires Locate(doc, parts) == Ok(pos) && At(doc, pos).Obj?
    ensures parts != [] && pos != [] && ValidPos(doc, pos[..|pos| - 1])
    ensures var up, last := pos[..|pos| - 1], pos[|pos| - 1];
            && NavPos(doc, parts) == NavOne(At(doc, up), Last(parts), up)
            && last.key == TargetKey(parts, At(doc, up)) && last.idx < |Kids(At(doc, up), last.key)|
            && Find(Kids(At(doc, up), last.key), Last(parts)) == Some(last.idx)
  {
    LocateParts(doc, parts, pos);
    var up, last := pos[..|pos| - 1], pos[|pos| - 1];
    NavAtLast(doc, parts, up);
    ScanIsFind(Kids(At(doc, up), last.key), Last(parts), last.idx);
  }

  lemma InitAndLast(parts: seq<Part>)
    requires parts != []
    ensures Init(parts) + [Last(parts)] == parts
  {
  }

  // The reader's last step, from where the editor's container walk ends.
  lemma NavAtLast(doc: Json, parts: seq<Part>, up: Pos)
    requires parts != [] && ContainerPos(doc, Init(parts)) == Some(up)
    ensures NavPos(doc, parts) == NavOne(At(doc, up), Last(parts), up)
  {
    NavigatorsAgree(doc, Init(parts), up);
    NavSnoc(doc, Init(parts), Last(parts), up);
    InitAndLast(parts);
  }

  lemma ScanIsFind(items: seq<Json>, target: Part, k: nat)
    requires Scan(items, target, 0) == Ok(k) && items[k].Obj?
    ensures Find(items, target) == Some(k)
  {
    assert items[0..] == items;
    if target.Index? {
      FindIs(items, target, k);
    }
  }

  // ---------------------------------------------------------------- the laws

  // The reader sees the replacement exactly when it answers to the path.
  lemma ReplaceThenNavigate(doc: Json, path: string, element: Json, pos: Pos)
    requires element.Obj? && LocatePath(doc, path) == Ok(pos) && At(doc, pos).Obj?
    requires ValidPos(doc, pos[..|pos| - 1]) && !Shadowed(Parse(path).value, At(doc, pos[..|pos| - 1]))
    ensures Replace(doc, path, element).Ok?
    ensures NavigatePath(Replace(doc, path, element).value, path) == Ok(Some(element))
       <==> Matches(element, pos[|pos| - 1].idx, Last(Parse(path).value))
  {
    var parts := Parse(path).value;
    var after := Put(doc, pos, element);
    LocateKeys(doc, parts);
    LocatedIsNavigated(doc, parts, pos);
    NavReaches(doc, parts, pos);
    if Matches(element, pos[|pos| - 1].idx, Last(parts)) {
      NavFrame(doc, pos, element, parts, pos);
      PutAt(doc, pos, element);
    } else if Navigate(after, parts) == Some(element) {
      NavReaches(after, parts, NavPos(after, parts).value);
    }
    assert path != "";
  }

  lemma ReplaceWithCurrent(doc: Json, path: string, current: Json)
    requires Replace(doc, path, current).Ok?
    requires At(doc, LocatePath(doc, path).value) == current
    ensures Replace(doc, path, current) == Ok(doc)
  {
    PutSame(doc, LocatePath(doc, path).value);
  }

  // A located object answers to the last part.
  lemma LocatedMatches(doc: Json, parts: seq<Part>, pos: Pos)
    requires Locate(doc, parts) == Ok(pos) && (At(doc, pos).Obj? || Last(parts).Name?)
    ensures Matches(At(doc, pos), pos[|pos| - 1].idx, Last(parts))
  {
    LocateParts(doc, parts, pos);
    var kids := Kids(At(doc, pos[..|pos| - 1]), pos[|pos| - 1].key);
    assert kids[0..] == kids;
  }

  lemma SameDepth(p: Pos, q: Pos)
    requires |p| == |q| && p != q
    ensures Disjoint(p, q) && Disjoint(q, p)
  {
    assert q[..|p|] == q && p[..|q|] == p;
  }

  // Positions away from an update are those of the old document.
  lemma ValidBefore(doc: Json, pos: Pos, v: Json, q: Pos)
    requires ValidPos(doc, pos) && Disjoint(pos, q)
    requires ValidPos(Put(doc, pos, v), q)
    ensures ValidPos(doc, q) && At(doc, q) == At(Put(doc, pos, v), q)
  {
    PutAt(doc, pos, v);
    PutDisjoint(Put(doc, pos, v), pos, At(doc, pos), q);
    PutPut(doc, pos, v, At(doc, pos));
    PutSame(doc, pos);
  }

  // Replacing the second time elsewhere gives another document, unless the first
  // replacement carried the name that was looked for.
  lemma OtherReplaced(doc: Json, pos: Pos, first: Json, second: Json, q: Pos, name: string)
    requires ValidPos(doc, pos) && Disjoint(pos, q) && Disjoint(q, pos) && ValidPos(Put(doc, pos, first), q)
    requires Get(At(Put(doc, pos, first), q), "idShort") == Some(Str(name)) && Get(first, "idShort") != Some(Str(name))
    ensures Put(Put(doc, pos, first), q, second) != Put(doc, pos, second)
  {
    ValidBefore(doc, pos, first, q);
    PutAt(doc, pos, first);
    PutAt(doc, pos, second);
    PutAt(Put(doc, pos, first), q, second);
    PutDisjoint(Put(doc, pos, first), q, second, pos);
    PutDisjoint(doc, pos, second, q);
  }

  lemma RenamedLosesReplace(doc: Json, parts: seq<Part>, pos: Pos, first: Json, second: Json, q: Pos)
    requires Locate(doc, parts) == Ok(pos) && At(doc, pos).Obj? && first.Obj?
    requires !Matches(first, pos[|pos| - 1].idx, Last(parts)) && Locate(Put(doc, pos, first), parts) == Ok(q)
    ensures Put(Put(doc, pos, first), q, second) != Put(doc, pos, second)
  {
    LocatedMatches(doc, parts, pos);
    LocatedMatches(Put(doc, pos, first), parts, q);
    PutAt(doc, pos, first);
    SameDepth(pos, q);
    OtherReplaced(doc, pos, first, second, q, Last(parts).name);
  }

  // Of two replaces of one path the later one wins, if and only if the first replacement
  // answers to the last part of the path.
  lemma LastReplaceWins(doc: Json, path: string, first: Json, second: Json)
    requires LocatePath(doc, path).Ok? && At(doc, LocatePath(doc, path).value).Obj? && first.Obj?
    ensures var pos := LocatePath(doc, path).value;
            Replace(Replace(doc, path, first).value, path, second) == Replace(doc, path, second)
            <==> Matches(first, pos[|pos| - 1].idx, Last(Parse(path).value))
  {
    var parts := Parse(path).value;
    var pos := LocatePath(doc, path).value;
    if Matches(first, pos[|pos| - 1].idx, Last(parts)) {
      LocateKeys(doc, parts);
      LocatedMatches(doc, parts, pos);
      LocateFrame(doc, pos, first, parts, pos);
      PutPut(doc, pos, first, second);
    } else if Locate(Put(doc, pos, first), parts).Ok? {
      RenamedLosesReplace(doc, parts, pos, first, second, Locate(Put(doc, pos, first), parts).value);
    }
  }

  // Any path resolving to a disjoint position reads what it read before.
  lemma ReplaceLeavesDisjointPaths(doc: Json, path: string, element: Json, other: string, q: Pos)
    requires Replace(doc, path, element).Ok?
    requires KeepsIdentity(At(doc, LocatePath(doc, path).value), element)
    requires Parse(other).Some? && NavPos(doc, Parse(other).value) == Some(q)
    requires Disjoint(LocatePath(doc, path).value, q)
    ensures NavigatePath(Replace(doc, path, element).value, other) == Ok(Some(At(doc, q)))
    ensures NavigatePath(doc, other) == Ok(Some(At(doc, q)))
  {
    var pos := LocatePath(doc, path).value;
    LocateKeys(doc, Parse(path).value);
    assert Parse("") == Some([]) && [] <= pos;
    DisjointKept(doc, pos, element, Parse(other).value, q);
  }

  lemma DisjointKept(doc: Json, pos: Pos, v: Json, parts: seq<Part>, q: Pos)
    requires ValidPos(doc, pos) && ChildKeys(pos) && KeepsIdentity(At(doc, pos), v)
    requires NavPos(doc, parts) == Some(q) && Disjoint(pos, q)
    ensures Navigate(Put(doc, pos, v), parts) == Some(At(doc, q))
  {
    NavFrame(doc, pos, v, parts, q);
    PutDisjoint(doc, pos, v, q);
  }

  // A path to an ancestor reads the old ancestor with the update inside it.
  lemma ReplaceSeenFromAbove(doc: Json, path: string, element: Json, parts: seq<Part>, q: Pos, rest: Pos)
    requires Replace(doc, path, element).Ok? && rest != []
    requires NavPos(doc, parts) == Some(q) && LocatePath(doc, path).value == q + rest
    ensures ValidPos(At(doc, q), rest)
    ensures Navigate(Replace(doc, path, element).value, parts) == Some(Put(At(doc, q), rest, element))
  {
    var pos := LocatePath(doc, path).value;
    LocateKeys(doc, Parse(path).value);
    PrefixValid(doc, q, rest);
    assert !StrictlyBelow(q, pos);
    NavFrame(doc, pos, element, parts, q);
    PutAppend(doc, q, rest, element);
    PutAt(doc, q, Put(At(doc, q), rest, element));
  }

  // Replacing with another idShort can make the element unreachable by its own path.
  lemma RenamingReplaceIsLost()
    ensures var a := Obj(map["idShort" := Str("a")]);
            var b := Obj(map["idShort" := Str("b")]);
            var doc := Obj(map["submodelElements" := Arr([a])]);
            && Replace(doc, "a", b).Ok?
            && NavigatePath(Replace(doc, "a", b).value, "a") == Ok(None)
  {
    var a := Obj(map["idShort" := Str("a")]);
    var b := Obj(map["idShort" := Str("b")]);
    var doc := Obj(map["submodelElements" := Arr([a])]);
    ParsePrint([Name("a")]);
    assert Print([Name("a")]) == "a";
    assert Init([Name("a")]) == [];
    assert Kids(doc, "submodelElements") == [a] && ValidPos(doc, []) && At(doc, []) == doc;
    assert Scan([a], Name("a"), 0) == Ok(0);
    assert [] + [Step("submodelElements", 0)] == [Step("submodelElements", 0)];
    assert Locate(doc, [Name("a")]) == Ok([Step("submodelElements", 0)]);
    var after := Put(doc, [Step("submodelElements", 0)], b);
    assert NavKids(after) == [b];
    assert Find([b], Name("a")) == None;
  }
}

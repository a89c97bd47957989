// Whole sequences of edits: sibling idShorts stay unique, deleting undoes inserting,
// and a deleted name is gone.
module EditHistory {
  import opened Wrappers
  import opened Sequences
  import opened Documents
  import opened IdShortPath
  import opened Navigation
  import opened ElementOperations
  import opened LensLaws

  // ---------------------------------------------------------------- uniqueness

  // No two siblings carry the same idShort; entries without one do not count.
  predicate Distinct(items: seq<Json>) {
    forall i, k :: 0 <= i < k < |items| && Truthy(Get(items[i], "idShort")) ==>
                     Get(items[i], "idShort") != Get(items[k], "idShort")
  }

  // Every collection at or below the element has distinct children.
  predicate UniqueBelow(elem: Json)
    decreases elem
  {
    && (HasModelType(elem, COLLECTION) ==> Distinct(Kids(elem, "value")))
    && (IsBranch(elem) ==> forall i :: 0 <= i < |Kids(elem, "value")| ==> UniqueBelow(Kids(elem, "value")[i]))
  }

  predicate UniqueIdShorts(doc: Json) {
    && Distinct(Kids(doc, "submodelElements"))
    && forall i :: 0 <= i < |Kids(doc, "submodelElements")| ==> UniqueBelow(Kids(doc, "submodelElements")[i])
  }

  lemma DistinctAfterPut(items: seq<Json>, i: nat, v: Json)
    requires i < |items| && Distinct(items) && KeepsIdentity(items[i], v)
    ensures Distinct(items[i := v])
  {
  }

  // An update that keeps the idShort and is unique inside keeps everything unique.
  lemma {:induction false} UniqueBelowAfterPut(elem: Json, pos: Pos, v: Json)
    requires ValidPos(elem, pos) && ChildKeys(pos) && UniqueBelow(elem)
    requires KeepsIdentity(At(elem, pos), v)
    requires UniqueBelow(At(elem, pos)) ==> UniqueBelow(v)
    ensures UniqueBelow(Put(elem, pos, v))
    decreases |pos|
  {
    if pos != [] {
      PutShape(elem, pos, v);
      var kids := Kids(elem, pos[0].key);
      var k := pos[0].idx;
      assert HasModelType(Put(elem, pos, v), COLLECTION) == HasModelType(elem, COLLECTION);
      if pos[0].key == "value" && IsBranch(elem) {
        UniqueBelowAfterPut(kids[k], pos[1..], v);
        IdentityAfterPut(kids[k], pos[1..], v);
        if HasModelType(elem, COLLECTION) {
          DistinctAfterPut(kids, k, Put(kids[k], pos[1..], v));
        }
        assert Kids(Put(elem, pos, v), "value") == kids[k := Put(kids[k], pos[1..], v)];
      } else {
        assert IsBranch(elem) ==> Kids(Put(elem, pos, v), "value") == Kids(elem, "value");
      }
    }
  }

  lemma IdentityAfterPut(elem: Json, pos: Pos, v: Json)
    requires ValidPos(elem, pos) && ChildKeys(pos) && KeepsIdentity(At(elem, pos), v)
    ensures KeepsIdentity(elem, Put(elem, pos, v))
  {
    if pos != [] {
      PutShape(elem, pos, v);
    }
  }

  lemma UniqueAfterPut(doc: Json, pos: Pos, v: Json)
    requires ValidPos(doc, pos) && pos != [] && ChildKeys(pos) && UniqueIdShorts(doc)
    requires KeepsIdentity(At(doc, pos), v)
    requires UniqueBelow(At(doc, pos)) ==> UniqueBelow(v)
    ensures UniqueIdShorts(Put(doc, pos, v))
  {
    PutShape(doc, pos, v);
    var kids := Kids(doc, pos[0].key);
    var k := pos[0].idx;
    if pos[0].key == "submodelElements" {
      UniqueBelowAfterPut(kids[k], pos[1..], v);
      IdentityAfterPut(kids[k], pos[1..], v);
      DistinctAfterPut(kids, k, Put(kids[k], pos[1..], v));
    }
  }

  // ---------------------------------------------------------------- one edit

  lemma {:induction false} ClashFree(items: seq<Json>, id: Option<Json>)
    requires Clash(items, id).None?
    ensures forall i :: 0 <= i < |items| ==> items[i].Obj? && Get(items[i], "idShort") != id
  {
    if items != [] {
      ClashFree(items[1..], id);
      forall i | 0 <= i < |items| ensures items[i].Obj? && Get(items[i], "idShort") != id {
        if i > 0 {
          assert items[i] == items[1..][i - 1];
        }
      }
    }
  }

  lemma AppendKidUnique(container: Json, key: string, element: Json)
    requires AppendKid(container, key, element, true).Ok?
    requires Distinct(Kids(container, key))
    ensures Distinct(Kids(AppendKid(container, key, element, true).value, key))
  {
    if Get(container, key).Some? {
      ClashFree(Kids(container, key), Get(element, "idShort"));
    }
  }

  lemma AppendKidShape(container: Json, key: string, element: Json, unique: bool)
    requires AppendKid(container, key, element, unique).Ok? && IsChildKey(key)
    ensures var grown := AppendKid(container, key, element, unique).value;
            && grown == WithKids(container, key, Kids(container, key) + [element])
            && Kids(grown, key) == Kids(container, key) + [element]
            && KeepsIdentity(container, grown)
            && (forall other :: other != key ==> Get(grown, other) == Get(container, other))
  {
    assert [] + [element] == [element];
  }

  lemma InsertBelowUnique(container: Json, element: Json)
    requires InsertBelow(container, element).Ok? && UniqueBelow(element)
    ensures KeepsIdentity(container, InsertBelow(container, element).value)
    ensures UniqueBelow(container) ==> UniqueBelow(InsertBelow(container, element).value)
    ensures Kids(InsertBelow(container, element).value, "submodelElements") == Kids(container, "submodelElements")
  {
    var grown := InsertBelow(container, element).value;
    AppendKidShape(container, "value", element, HasModelType(container, COLLECTION));
    if UniqueBelow(container) && HasModelType(container, COLLECTION) {
      AppendKidUnique(container, "value", element);
    }
  }

  lemma InsertUnique(doc: Json, path: string, element: Json)
    requires UniqueIdShorts(doc) && UniqueBelow(element) && Insert(doc, path, element).Ok?
    ensures UniqueIdShorts(Insert(doc, path, element).value)
  {
    if path == "" {
      AppendKidShape(doc, "submodelElements", element, true);
      AppendKidUnique(doc, "submodelElements", element);
    } else {
      var parts := Parse(path).value;
      var pos := ContainerPos(doc, parts).value;
      ContainerKeys(doc, parts);
      InsertBelowUnique(At(doc, pos), element);
      var grown := InsertBelow(At(doc, pos), element).value;
      if pos != [] {
        UniqueAfterPut(doc, pos, grown);
      }
    }
  }

  lemma DistinctWithout(items: seq<Json>, i: nat)
    requires i < |items| && Distinct(items)
    ensures Distinct(Without(items, i))
  {
  }

  lemma WithoutUniqueBelow(container: Json, i: nat)
    requires i < |Kids(container, "value")| && UniqueBelow(container)
    ensures UniqueBelow(WithKids(container, "value", Without(Kids(container, "value"), i)))
  {
    var kids := Kids(container, "value");
    var less := WithKids(container, "value", Without(kids, i));
    assert Kids(less, "value") == Without(kids, i);
    assert HasModelType(less, COLLECTION) == HasModelType(container, COLLECTION) && IsBranch(less) == IsBranch(container);
    if HasModelType(container, COLLECTION) {
      DistinctWithout(kids, i);
    }
  }

  lemma WithoutUniqueRoot(container: Json, i: nat)
    requires i < |Kids(container, "submodelElements")| && UniqueIdShorts(container)
    ensures UniqueIdShorts(WithKids(container, "submodelElements", Without(Kids(container, "submodelElements"), i)))
  {
    var kids := Kids(container, "submodelElements");
    DistinctWithout(kids, i);
    assert Kids(WithKids(container, "submodelElements", Without(kids, i)), "submodelElements") == Without(kids, i);
  }

  // An exchanged child list does not touch the other one.
  lemma OtherKids(container: Json, key: string, items: seq<Json>)
    requires container.Obj? && IsChildKey(key)
    ensures KeepsIdentity(container, WithKids(container, key, items))
    ensures key != "submodelElements" ==>
              (UniqueIdShorts(container) ==> UniqueIdShorts(WithKids(container, key, items)))
    ensures key != "value" ==> (UniqueBelow(container) ==> UniqueBelow(WithKids(container, key, items)))
  {
    var less := WithKids(container, key, items);
    if key == "submodelElements" {
      assert Kids(less, "value") == Kids(container, "value") && IsBranch(less) == IsBranch(container);
      assert HasModelType(less, COLLECTION) == HasModelType(container, COLLECTION);
    } else {
      assert Kids(less, "submodelElements") == Kids(container, "submodelElements");
      assert key != "value" ==> Kids(less, "value") == Kids(container, "value");
    }
  }

  lemma WithoutUnique(container: Json, key: string, i: nat)
    requires i < |Kids(container, key)| && IsChildKey(key)
    ensures var less := WithKids(container, key, Without(Kids(container, key), i));
            && KeepsIdentity(container, less)
            && (UniqueBelow(container) ==> UniqueBelow(less))
            && (UniqueIdShorts(container) ==> UniqueIdShorts(less))
  {
    OtherKids(container, key, Without(Kids(container, key), i));
    if key == "value" && UniqueBelow(container) {
      WithoutUniqueBelow(container, i);
    }
    if key == "submodelElements" && UniqueIdShorts(container) {
      WithoutUniqueRoot(container, i);
    }
  }

  lemma RemoveUnique(doc: Json, pos: Pos)
    requires pos != [] && ValidPos(doc, pos) && ChildKeys(pos) && UniqueIdShorts(doc)
    ensures UniqueIdShorts(Remove(doc, pos))
  {
    var up, last := pos[..|pos| - 1], pos[|pos| - 1];
    assert pos == up + [last];
    PrefixValid(doc, up, [last]);
    AtAppend(doc, up, [last]);
    WithoutUnique(At(doc, up), last.key, last.idx);
    if up != [] {
      UniqueAfterPut(doc, up, WithKids(At(doc, up), last.key, Without(Kids(At(doc, up), last.key), last.idx)));
    }
  }

  lemma DeleteUnique(doc: Json, path: string)
    requires UniqueIdShorts(doc) && Delete(doc, path).Ok?
    ensures UniqueIdShorts(Delete(doc, path).value)
  {
    LocateKeys(doc, Parse(path).value);
    RemoveUnique(doc, LocatePath(doc, path).value);
  }

  // ---------------------------------------------------------------- sequences of edits

  datatype EditOp =
    | InsertOp(path: string, element: Json)
    | DeleteOp(path: string)
    | SetValueOp(path: string, value: Json)
    | ReplaceOp(path: string, element: Json)

  function Apply(doc: Json, op: EditOp): Edit {
    match op
    case InsertOp(path, element) => Insert(doc, path, element)
    case DeleteOp(path) => Delete(doc, path)
    case SetValueOp(path, value) => UpdateValue(doc, path, value)
    case ReplaceOp(path, element) => Replace(doc, path, element)
  }

  // Inserts bring elements that are unique inside; value updates go to leaves;
  // a replacement keeps the idShort.
  predicate Admissible(doc: Json, op: EditOp) {
    match op
    case InsertOp(_, element) => UniqueBelow(element)
    case DeleteOp(_) => true
    case SetValueOp(path, _) => LocatePath(doc, path).Ok? ==> !IsBranch(At(doc, LocatePath(doc, path).value))
    case ReplaceOp(path, element) =>
      UniqueBelow(element) && (LocatePath(doc, path).Ok? ==> KeepsIdentity(At(doc, LocatePath(doc, path).value), element))
  }

  // A rejected edit leaves the stored document as it was.
  function Run(doc: Json, ops: seq<EditOp>): Json
    decreases |ops|
  {
    if ops == [] then doc
    else
      match Apply(doc, ops[0])
      case Ok(next) => Run(next, ops[1..])
      case Err(_) => Run(doc, ops[1..])
  }

  predicate AllAdmissible(doc: Json, ops: seq<EditOp>)
    decreases |ops|
  {
    ops != [] ==>
      && Admissible(doc, ops[0])
      && match Apply(doc, ops[0])
         case Ok(next) => AllAdmissible(next, ops[1..])
         case Err(_) => AllAdmissible(doc, ops[1..])
  }

  lemma SetValueUnique(doc: Json, path: string, value: Json)
    requires UniqueIdShorts(doc) && Admissible(doc, SetValueOp(path, value)) && Apply(doc, SetValueOp(path, value)).Ok?
    ensures UniqueIdShorts(Apply(doc, SetValueOp(path, value)).value)
  {
    var pos := LocatePath(doc, path).value;
    LocateKeys(doc, Parse(path).value);
    assert "value" in map["value" := value];
    NewValueUnique(At(doc, pos), value);
    UniqueAfterPut(doc, pos, Merge(At(doc, pos), map["value" := value]).value);
  }

  lemma NewValueUnique(leaf: Json, value: Json)
    requires leaf.Obj? && !IsBranch(leaf)
    ensures var grown := Obj(leaf.fields + map["value" := value]);
            KeepsIdentity(leaf, grown) && !IsBranch(grown) && UniqueBelow(grown)
  {
    var grown := Obj(leaf.fields + map["value" := value]);
    assert Get(grown, "idShort") == Get(leaf, "idShort") && Get(grown, "modelType") == Get(leaf, "modelType");
  }

  lemma ApplyUnique(doc: Json, op: EditOp)
    requires UniqueIdShorts(doc) && Admissible(doc, op) && Apply(doc, op).Ok?
    ensures UniqueIdShorts(Apply(doc, op).value)
  {
    match op
    case InsertOp(path, element) => InsertUnique(doc, path, element);
    case DeleteOp(path) => DeleteUnique(doc, path);
    case SetValueOp(path, value) => SetValueUnique(doc, path, value);
    case ReplaceOp(path, element) =>
      LocateKeys(doc, Parse(path).value);
      UniqueAfterPut(doc, LocatePath(doc, path).value, element);
  }

  lemma {:induction false} RunKeepsUnique(doc: Json, ops: seq<EditOp>)
    requires UniqueIdShorts(doc) && AllAdmissible(doc, ops)
    ensures UniqueIdShorts(Run(doc, ops))
    decreases |ops|
  {
    if ops != [] {
      match Apply(doc, ops[0])
      case Ok(next) =>
        ApplyUnique(doc, ops[0]);
        RunKeepsUnique(next, ops[1..]);
      case Err(_) => RunKeepsUnique(doc, ops[1..]);
    }
  }

  // ---------------------------------------------------------------- inverse

  // The path text of a child that was just appended.
  function ChildPath(path: string, part: Part): string {
    if path == "" then (match part case Name(name) => name case Index(_) => Piece(part)) else path + Piece(part)
  }

  // The container before the insert, with the list that setdefault may have created.
  function WithList(container: Json, key: string): Json
    requires container.Obj?
  {
    if Get(container, key).None? then WithKids(container, key, []) else container
  }

  lemma {:induction false} ScanLast(items: seq<Json>, target: Part, i: nat)
    requires i < |items| && items[|items| - 1].Obj? && Matches(items[|items| - 1], |items| - 1, target)
    requires target.Name? ==> forall k :: i <= k < |items| - 1 ==> items[k].Obj? && !Matches(items[k], k, target)
    ensures Scan(items, target, i) == Ok(|items| - 1)
    decreases |items| - i
  {
    if i < |items| - 1 {
      ScanLast(items, target, i + 1);
    }
  }

  // Removing the last child of a grown container gives the container back.
  lemma DropAppended(container: Json, key: string, element: Json, unique: bool)
    requires AppendKid(container, key, element, unique).Ok? && IsChildKey(key)
    ensures var grown := AppendKid(container, key, element, unique).value;
            var n := |Kids(container, key)|;
            && n < |Kids(grown, key)|
            && WithKids(grown, key, Without(Kids(grown, key), n)) == WithList(container, key)
  {
    AppendKidShape(container, key, element, unique);
    var grown := AppendKid(container, key, element, unique).value;
    var kids := Kids(container, key);
    assert Without(kids + [element], |kids|) == kids;
    assert grown.fields[key := Arr(kids)] == container.fields[key := Arr(kids)];
    if Get(container, key).Some? {
      assert container.fields[key := container.fields[key]] == container.fields;
    }
  }

  // The part that names the appended element, and the scan that finds it.
  lemma FindAppended(container: Json, key: string, element: Json, unique: bool, part: Part)
    requires AppendKid(container, key, element, unique).Ok? && IsChildKey(key) && element.Obj?
    requires part == Index(|Kids(container, key)|) || (unique && part.Name? && Get(element, "idShort") == Some(Str(part.name)))
    ensures Scan(Kids(AppendKid(container, key, element, unique).value, key), part, 0) == Ok(|Kids(container, key)|)
  {
    AppendKidShape(container, key, element, unique);
    var kids := Kids(container, key);
    if unique && Get(container, key).Some? {
      ClashFree(kids, Get(element, "idShort"));
    }
    ScanLast(kids + [element], part, 0);
  }

  // Deleting the path of a just-inserted element restores the document, up to the
  // empty child list that the insert may have created, if and only if every '[' of the
  // path had its ']'. A collection names the child by its idShort, a list by its index,
  // whatever the child is called.
  lemma DeleteUndoesInsert(doc: Json, path: string, element: Json, name: string)
    requires path != "" && element.Obj? && Insert(doc, path, element).Ok? && Parse(path) != Some([])
    requires HasModelType(At(doc, ContainerPos(doc, Parse(path).value).value), COLLECTION) ==>
               PlainName(name) && Get(element, "idShort") == Some(Str(name))
    ensures var pos := ContainerPos(doc, Parse(path).value).value;
            var container := At(doc, pos);
            var part := if HasModelType(container, COLLECTION) then Name(name) else Index(|Kids(container, "value")|);
            Delete(Insert(doc, path, element).value, ChildPath(path, part))
            == if Closed(path) then Ok(Put(doc, pos, WithList(container, "value")))
               else Err(MalformedIndexText)
  {
    var parts := Parse(path).value;
    var pos := ContainerPos(doc, parts).value;
    var container := At(doc, pos);
    var unique := HasModelType(container, COLLECTION);
    var part := if unique then Name(name) else Index(|Kids(container, "value")|);
    if Closed(path) {
      ParseExtend(path, part, "");
      DeleteUndoesAppend(doc, parts, pos, element, part);
    } else {
      ParseUnclosed(path, part, "");
    }
  }

  lemma DeleteUndoesAppend(doc: Json, parts: seq<Part>, pos: Pos, element: Json, part: Part)
    requires ContainerPos(doc, parts) == Some(pos) && parts != [] && element.Obj?
    requires InsertBelow(At(doc, pos), element).Ok?
    requires if HasModelType(At(doc, pos), COLLECTION)
             then part.Name? && Get(element, "idShort") == Some(Str(part.name))
             else part == Index(|Kids(At(doc, pos), "value")|)
    ensures var after := Put(doc, pos, InsertBelow(At(doc, pos), element).value);
            && Locate(after, parts + [part]).Ok?
            && Remove(after, Locate(after, parts + [part]).value) == Put(doc, pos, WithList(At(doc, pos), "value"))
  {
    var container := At(doc, pos);
    var unique := HasModelType(container, COLLECTION);
    var grown := InsertBelow(container, element).value;
    var after := Put(doc, pos, grown);
    ContainerKeys(doc, parts);
    AppendKidShape(container, "value", element, unique);
    LocateAppended(doc, parts, pos, grown, part, |Kids(container, "value")|) by {
      FindAppended(container, "value", element, unique, part);
    }
    DropAppended(container, "value", element, unique);
    PutAt(doc, pos, grown);
    RemoveIs(after, pos, "value", |Kids(container, "value")|);
    PutPut(doc, pos, grown, WithList(container, "value"));
  }

  // The editor finds the child that a grown container got.
  lemma LocateAppended(doc: Json, parts: seq<Part>, pos: Pos, grown: Json, part: Part, k: nat)
    requires ContainerPos(doc, parts) == Some(pos) && pos != [] && ChildKeys(pos) && ValidPos(doc, pos)
    requires KeepsIdentity(At(doc, pos), grown) && IsBranch(grown) && k < |Kids(grown, "value")|
    requires Scan(Kids(grown, "value"), part, 0) == Ok(k)
    ensures Locate(Put(doc, pos, grown), parts + [part]) == Ok(pos + [Step("value", k)])
  {
    var full := parts + [part];
    assert Init(full) == parts && Last(full) == part;
    ContainerFrame(doc, pos, grown, parts, pos);
    PutAt(doc, pos, grown);
    LocateIs(Put(doc, pos, grown), full, pos, "value", k);
  }

  lemma LocateIs(doc: Json, parts: seq<Part>, pos: Pos, key: string, k: nat)
    requires parts != [] && ContainerPos(doc, Init(parts)) == Some(pos)
    requires key == TargetKey(parts, At(doc, pos)) && k < |Kids(At(doc, pos), key)|
    requires Scan(Kids(At(doc, pos), key), Last(parts), 0) == Ok(k)
    ensures Locate(doc, parts) == Ok(pos + [Step(key, k)])
  {
    assert Get(At(doc, pos), key).Some?;
  }

  lemma RemoveIs(doc: Json, pos: Pos, key: string, k: nat)
    requires ValidPos(doc, pos) && k < |Kids(At(doc, pos), key)|
    ensures ValidPos(doc, pos + [Step(key, k)])
    ensures var container := At(doc, pos);
            Remove(doc, pos + [Step(key, k)]) == Put(doc, pos, WithKids(container, key, Without(Kids(container, key), k)))
  {
    AtAppend(doc, pos, [Step(key, k)]);
    assert (pos + [Step(key, k)])[..|pos|] == pos;
  }

  lemma DeleteUndoesRootInsert(doc: Json, element: Json, name: string)
    requires doc.Obj? && element.Obj? && PlainName(name) && Get(element, "idShort") == Some(Str(name))
    requires Insert(doc, "", element).Ok?
    ensures Delete(Insert(doc, "", element).value, name) == Ok(WithList(doc, "submodelElements"))
  {
    var after := Insert(doc, "", element).value;
    var part := Name(name);
    ParsePrint([part]);
    assert Print([part]) == name + "" == name;
    assert Init([part]) == [] && Last([part]) == part;
    AppendKidShape(doc, "submodelElements", element, true);
    FindAppended(doc, "submodelElements", element, true, part);
    var k := |Kids(doc, "submodelElements")|;
    LocateIs(after, [part], [], "submodelElements", k);
    DropAppended(doc, "submodelElements", element, true);
    RemoveIs(after, [], "submodelElements", k);
  }

  // ---------------------------------------------------------------- a deleted name is gone

  // No other entry answers to the part.
  predicate OnlyOne(items: seq<Json>, i: nat, part: Part) {
    forall k :: 0 <= k < |items| && k != i ==> !Matches(items[k], k, part)
  }

  predicate NoneMatches(items: seq<Json>, part: Part) {
    forall k :: 0 <= k < |items| ==> !Matches(items[k], k, part)
  }

  // The container without one of its children.
  function LessOne(container: Json, key: string, i: nat): Json
    requires i < |Kids(container, key)|
  {
    WithKids(container, key, Without(Kids(container, key), i))
  }

  // Nothing answers to the part once entry i is gone: no sibling, if the reader still
  // looks at the same list, and no entry of the list it falls back to otherwise.
  predicate Unanswered(container: Json, key: string, i: nat, part: Part)
    requires i < |Kids(container, key)|
  {
    var readNext := NavKey(LessOne(container, key, i));
    if readNext == key then OnlyOne(Kids(container, key), i, part) else NoneMatches(Kids(container, readNext), part)
  }

  // After deleting a named element its path finds nothing, if and only if nothing else
  // answers to it.
  lemma DeletedIsGone(doc: Json, path: string, pos: Pos)
    requires LocatePath(doc, path) == Ok(pos) && Last(Parse(path).value).Name?
    ensures Delete(doc, path).Ok? && ValidPos(doc, pos[..|pos| - 1])
    ensures var up, last := At(doc, pos[..|pos| - 1]), pos[|pos| - 1];
            && last.idx < |Kids(up, last.key)|
            && (NavigatePath(Delete(doc, path).value, path) == Ok(None) <==>
                  Unanswered(up, last.key, last.idx, Last(Parse(path).value)))
  {
    LocateParts(doc, Parse(path).value, pos);
    NameIsGone(doc, Parse(path).value, pos);
    assert path != "";
  }

  lemma NameIsGone(doc: Json, parts: seq<Part>, pos: Pos)
    requires Locate(doc, parts) == Ok(pos) && Last(parts).Name?
    ensures ValidPos(doc, pos[..|pos| - 1])
    ensures var up, last := At(doc, pos[..|pos| - 1]), pos[|pos| - 1];
            && last.idx < |Kids(up, last.key)|
            && (NavPos(Remove(doc, pos), parts).None? <==> Unanswered(up, last.key, last.idx, Last(parts)))
  {
    LocateParts(doc, parts, pos);
    LocateKeys(doc, parts);
    var up, last := pos[..|pos| - 1], pos[|pos| - 1];
    PrefixKeys(pos, |pos| - 1);
    NavigatorsAgree(doc, Init(parts), up);
    InitAndLast(parts);
    NavAfterRemoval(doc, Init(parts), up, last.key, last.idx, Last(parts));
  }

  // The reader below a container that lost one of its children.
  lemma NavAfterRemoval(doc: Json, parts: seq<Part>, up: Pos, key: string, i: nat, target: Part)
    requires NavPos(doc, parts) == Some(up) && ChildKeys(up) && IsChildKey(key) && target.Name?
    requires i < |Kids(At(doc, up), key)|
    ensures NavPos(Put(doc, up, LessOne(At(doc, up), key, i)), parts + [target]).None?
            <==> Unanswered(At(doc, up), key, i, target)
  {
    NavInExchanged(doc, parts, up, LessOne(At(doc, up), key, i), target);
    FindWithoutChild(At(doc, up), key, i, target);
  }

  // Reading one level below an exchanged container.
  lemma NavInExchanged(doc: Json, parts: seq<Part>, up: Pos, container: Json, target: Part)
    requires NavPos(doc, parts) == Some(up) && ChildKeys(up) && KeepsIdentity(At(doc, up), container)
    ensures NavPos(Put(doc, up, container), parts + [target]) == NavOne(container, target, up)
  {
    NavFrame(doc, up, container, parts, up);
    PutAt(doc, up, container);
    NavSnoc(Put(doc, up, container), parts, target, up);
  }

  lemma PrefixKeys(pos: Pos, n: nat)
    requires n <= |pos| && ChildKeys(pos)
    ensures ChildKeys(pos[..n])
  {
  }

  // What the reader finds in a container that lost a child.
  lemma FindWithoutChild(container: Json, key: string, i: nat, target: Part)
    requires i < |Kids(container, key)| && target.Name?
    ensures Find(NavKids(LessOne(container, key, i)), target) == None <==> Unanswered(container, key, i, target)
  {
    var less := LessOne(container, key, i);
    assert Kids(less, key) == Without(Kids(container, key), i);
    FindInRest(Kids(container, key), i, target);
    var readNext := NavKey(less);
    if readNext != key {
      assert Kids(less, readNext) == Kids(container, readNext);
      FindNothing(Kids(container, readNext), target);
    }
  }

  lemma FindNothing(items: seq<Json>, target: Part)
    ensures Find(items, target) == None <==> NoneMatches(items, target)
  {
  }

  lemma FindInRest(items: seq<Json>, i: nat, target: Part)
    requires i < |items| && target.Name?
    ensures Find(Without(items, i), target) == None <==> OnlyOne(items, i, target)
  {
    var rest := Without(items, i);
    var found := Find(rest, target);
    if found.Some? {
      var k := if found.value < i then found.value else found.value + 1;
      assert Matches(items[k], k, target);
    } else {
      forall k | 0 <= k < |items| && k != i ensures !Matches(items[k], k, target) {
        var j := if k < i then k else k - 1;
        assert rest[j] == items[k] && !Matches(rest[j], j, target);
      }
    }
  }
}

// The five edit operations on a submodel document. Each method walks and assigns as
// the source does on its deep copy, and is proved against a function on documents.
module ElementOperations {
  import opened Wrappers
  import opened Sequences
  import opened Documents
  import opened IdShortPath
  import opened Navigation

  datatype EditError =
    | MalformedIndexText  // int() of an index raises ValueError
    | EmptyPath           // InvalidPathError: empty path
    | NoContainer         // InvalidPathError: parent container not found
    | NotAContainer       // InvalidPathError: target is not a container
    | NotFound            // ElementNotFoundError
    | Exists              // ElementExistsError
    | NoIdShort           // ValueError: element must have an idShort
    | IllFormed           // TypeError or AttributeError on a document that is not a submodel

  type Edit = Result<Json, EditError>

  // ---------------------------------------------------------------- specification

  function Init(parts: seq<Part>): seq<Part>
    requires parts != []
  {
    parts[..|parts| - 1]
  }

  function Last(parts: seq<Part>): Part
    requires parts != []
  {
    parts[|parts| - 1]
  }

  // The field searched for the last part of the path.
  function TargetKey(parts: seq<Part>, container: Json): string {
    if |parts| != 1 && IsBranch(container) then "value" else "submodelElements"
  }

  // Names are compared entry by entry, indexes by position alone.
  function Scan(items: seq<Json>, target: Part, i: nat): (r: Result<nat, EditError>)
    requires i <= |items|
    ensures r.Ok? ==> i <= r.value < |items|
    ensures r.Ok? && target.Name? ==> Find(items[i..], target) == Some(r.value - i)
    ensures r.Ok? && target.Index? ==> r.value == target.index
    decreases |items| - i
  {
    if i == |items| then Err(NotFound)
    else
      match target
      case Index(k) => if i == k then Ok(i) else Scan(items, target, i + 1)
      case Name(name) =>
        if !items[i].Obj? then Err(IllFormed)
        else if Get(items[i], "idShort") == Some(Str(name)) then Ok(i)
        else Scan(items, target, i + 1)
  }

  // The position that replace, patch and delete work on.
  function Locate(doc: Json, parts: seq<Part>): (r: Result<Pos, EditError>)
    ensures r.Ok? ==> r.value != [] && |r.value| == |parts| && ValidPos(doc, r.value)
  {
    if parts == [] then Err(EmptyPath)
    else
      match ContainerPos(doc, Init(parts))
      case None => Err(NotFound)
      case Some(pos) =>
        var container := At(doc, pos);
        var key := TargetKey(parts, container);
        match Get(container, key)
        case None => Err(NotFound)
        case Some(Arr(items)) =>
          (match Scan(items, Last(parts), 0)
           case Err(e) => Err(e)
           case Ok(i) => AtAppend(doc, pos, [Step(key, i)]); Ok(pos + [Step(key, i)]))
        case _ => Err(IllFormed)
  }

  function LocatePath(doc: Json, path: string): (r: Result<Pos, EditError>)
    ensures r.Ok? ==> r.value != [] && ValidPos(doc, r.value)
  {
    match Parse(path)
    case None => Err(MalformedIndexText)
    case Some(parts) => Locate(doc, parts)
  }

  function Replace(doc: Json, path: string, element: Json): Edit {
    match LocatePath(doc, path)
    case Err(e) => Err(e)
    case Ok(pos) => Ok(Put(doc, pos, element))
  }

  function Merge(elem: Json, updates: map<string, Json>): Edit {
    if elem.Obj? then Ok(Obj(elem.fields + updates))
    else if updates == map[] then Ok(elem)
    else Err(IllFormed)
  }

  function Patch(doc: Json, path: string, updates: map<string, Json>): Edit {
    match LocatePath(doc, path)
    case Err(e) => Err(e)
    case Ok(pos) =>
      match Merge(At(doc, pos), updates)
      case Err(e) => Err(e)
      case Ok(elem) => Ok(Put(doc, pos, elem))
  }

  function UpdateValue(doc: Json, path: string, value: Json): Edit {
    Patch(doc, path, map["value" := value])
  }

  // The container with one child list exchanged.
  function WithKids(container: Json, key: string, items: seq<Json>): Json
    requires container.Obj?
  {
    Obj(container.fields[key := Arr(items)])
  }

  function Remove(doc: Json, pos: Pos): Json
    requires pos != [] && ValidPos(doc, pos)
  {
    var up, last := pos[..|pos| - 1], pos[|pos| - 1];
    assert pos == up + [last];
    PrefixValid(doc, up, [last]);
    var container := At(doc, up);
    Put(doc, up, WithKids(container, last.key, Without(Kids(container, last.key), last.idx)))
  }

  function Delete(doc: Json, path: string): Edit {
    match LocatePath(doc, path)
    case Err(e) => Err(e)
    case Ok(pos) => Ok(Remove(doc, pos))
  }

  // The uniqueness loop of insert: an earlier sibling with the same idShort, if any.
  function Clash(items: seq<Json>, id: Option<Json>): Option<EditError> {
    if items == [] then None
    else if !items[0].Obj? then Some(IllFormed)
    else if Get(items[0], "idShort") == id then Some(Exists)
    else Clash(items[1..], id)
  }

  // Appending to a list that setdefault creates when the key is absent.
  function AppendKid(container: Json, key: string, element: Json, unique: bool): Edit {
    if !container.Obj? then Err(IllFormed)
    else
      match Get(container, key)
      case None => Ok(WithKids(container, key, [element]))
      case Some(Arr(items)) =>
        (match if unique then Clash(items, Get(element, "idShort")) else None
         case Some(e) => Err(e)
         case None => Ok(WithKids(container, key, items + [element])))
      case _ => Err(IllFormed)
  }

  function InsertBelow(container: Json, element: Json): Edit {
    if HasModelType(container, COLLECTION) then
      if Truthy(Get(element, "idShort")) then AppendKid(container, "value", element, true) else Err(NoIdShort)
    else if HasModelType(container, LIST) then
      AppendKid(container, "value", element, false)
    else
      Err(NotAContainer)
  }

  function InsertRoot(doc: Json, element: Json): Edit {
    if Truthy(Get(element, "idShort")) then AppendKid(doc, "submodelElements", element, true) else Err(NoIdShort)
  }

  // An absent path and an empty path both mean the root.
  function Insert(doc: Json, path: string, element: Json): Edit {
    if path == "" then InsertRoot(doc, element)
    else
      match Parse(path)
      case None => Err(MalformedIndexText)
      case Some(parts) =>
        match ContainerPos(doc, parts)
        case None => Err(NoContainer)
        case Some(pos) =>
          match InsertBelow(At(doc, pos), element)
          case Err(e) => Err(e)
          case Ok(container) => Ok(Put(doc, pos, container))
  }

  // ---------------------------------------------------------------- the operations

  // The loop over the siblings, shared by replace, patch and delete.
  method FindTarget(items: seq<Json>, target: Part) returns (r: Result<nat, EditError>)
    ensures r == Scan(items, target, 0)
  {
    for i := 0 to |items|
      invariant Scan(items, target, 0) == Scan(items, target, i)
    {
      match target {
        case Name(name) =>
          if !items[i].Obj? {
            return Err(IllFormed);
          }
          if Get(items[i], "idShort") == Some(Str(name)) {
            return Ok(i);
          }
        case Index(k) =>
          if i == k {
            return Ok(i);
          }
      }
    }
    return Err(NotFound);
  }

  // Parsing, walking to the parent and searching its children.
  method LocateElement(doc: Json, path: string) returns (r: Result<Pos, EditError>)
    ensures r == LocatePath(doc, path)
  {
    var parsed := ParseIdShortPath(path);
    if parsed.None? {
      return Err(MalformedIndexText);
    }
    var parts := parsed.value;
    if parts == [] {
      return Err(EmptyPath);
    }
    var pos: Pos := [];
    var key := "submodelElements";
    if |parts| > 1 {
      var found := NavigateToContainer(doc, Init(parts));
      if found.None? {
        return Err(NotFound);
      }
      pos := found.value;
      if IsBranch(At(doc, pos)) {
        key := "value";
      }
    }
    var elements := Get(At(doc, pos), key);
    if elements.None? {
      return Err(NotFound);
    }
    if !elements.value.Arr? {
      return Err(IllFormed);
    }
    var i := FindTarget(elements.value.items, Last(parts));
    match i {
      case Err(e) => return Err(e);
      case Ok(k) => return Ok(pos + [Step(key, k)]);
    }
  }

  method ReplaceElement(doc: Json, path: string, element: Json) returns (r: Edit)
    requires element.Obj?
    ensures r == Replace(doc, path, element)
  {
    var located := LocateElement(doc, path);
    match located {
      case Err(e) => return Err(e);
      case Ok(pos) => return Ok(Put(doc, pos, element));
    }
  }

  // The updates outside the keys that are still to come.
  function Assigned(updates: map<string, Json>, keys: set<string>): map<string, Json> {
    map k | k in updates && k !in keys :: updates[k]
  }

  lemma OneMoreAssigned(fields: map<string, Json>, updates: map<string, Json>, keys: set<string>, key: string)
    requires key in keys && keys <= updates.Keys
    ensures (fields + Assigned(updates, keys))[key := updates[key]] == fields + Assigned(updates, keys - {key})
  {
  }

  lemma AllAssigned(updates: map<string, Json>)
    ensures Assigned(updates, updates.Keys) == map[] && Assigned(updates, {}) == updates
  {
  }

  // The key-by-key assignment loop of patch_element.
  method AssignFields(fields: map<string, Json>, updates: map<string, Json>) returns (r: map<string, Json>)
    ensures r == fields + updates
  {
    r := fields;
    var keys := updates.Keys;
    AllAssigned(updates);
    assert fields + map[] == fields;
    while keys != {}
      invariant keys <= updates.Keys
      invariant r == fields + Assigned(updates, keys)
      decreases |keys|
    {
      var key :| key in keys;
      OneMoreAssigned(fields, updates, keys, key);
      r := r[key := updates[key]];
      keys := keys - {key};
    }
  }

  method PatchElement(doc: Json, path: string, updates: map<string, Json>) returns (r: Edit)
    ensures r == Patch(doc, path, updates)
  {
    var located := LocateElement(doc, path);
    match located {
      case Err(e) => return Err(e);
      case Ok(pos) =>
        var elem := At(doc, pos);
        if updates == map[] {
          assert elem.Obj? ==> elem.fields + updates == elem.fields;
          PutSame(doc, pos);
          return Ok(doc);
        }
        if !elem.Obj? {
          return Err(IllFormed);
        }
        var fields := AssignFields(elem.fields, updates);
        return Ok(Put(doc, pos, Obj(fields)));
    }
  }

  method UpdateElementValue(doc: Json, path: string, value: Json) returns (r: Edit)
    ensures r == UpdateValue(doc, path, value)
  {
    r := PatchElement(doc, path, map["value" := value]);
  }

  method DeleteElement(doc: Json, path: string) returns (r: Edit)
    ensures r == Delete(doc, path)
  {
    var located := LocateElement(doc, path);
    match located {
      case Err(e) => return Err(e);
      case Ok(pos) => return Ok(Remove(doc, pos));
    }
  }

  method FindClash(items: seq<Json>, id: Option<Json>) returns (r: Option<EditError>)
    ensures r == Clash(items, id)
  {
    for i := 0 to |items|
      invariant Clash(items, id) == Clash(items[i..], id)
    {
      assert items[i..][1..] == items[i + 1..];
      if !items[i].Obj? {
        return Some(IllFormed);
      }
      if Get(items[i], "idShort") == id {
        return Some(Exists);
      }
    }
    return None;
  }

  method AppendElement(container: Json, key: string, element: Json, unique: bool) returns (r: Edit)
    requires container.Obj?
    ensures r == AppendKid(container, key, element, unique)
  {
    var elements := if key in container.fields then container.fields[key] else Arr([]);
    if !elements.Arr? {
      return Err(IllFormed);
    }
    if unique {
      var clash := FindClash(elements.items, Get(element, "idShort"));
      if clash.Some? {
        return Err(clash.value);
      }
    }
    assert [] + [element] == [element];
    return Ok(WithKids(container, key, elements.items + [element]));
  }

  method InsertElement(doc: Json, path: Option<string>, element: Json) returns (r: Edit)
    requires doc.Obj? && element.Obj?
    ensures r == Insert(doc, if path.Some? then path.value else "", element)
  {
    var id := Get(element, "idShort");
    if path.None? || path.value == "" {
      if !Truthy(id) {
        return Err(NoIdShort);
      }
      r := AppendElement(doc, "submodelElements", element, true);
      return;
    }
    var parsed := ParseIdShortPath(path.value);
    if parsed.None? {
      return Err(MalformedIndexText);
    }
    var found := NavigateToContainer(doc, parsed.value);
    if found.None? {
      return Err(NoContainer);
    }
    var container := At(doc, found.value);
    var grown: Edit;
    if HasModelType(container, COLLECTION) {
      if !Truthy(id) {
        return Err(NoIdShort);
      }
      grown := AppendElement(container, "value", element, true);
    } else if HasModelType(container, LIST) {
      grown := AppendElement(container, "value", element, false);
    } else {
      return Err(NotAContainer);
    }
    match grown {
      case Err(e) => return Err(e);
      case Ok(c) => return Ok(Put(doc, found.value, c));
    }
  }
}

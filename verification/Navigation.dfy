// The two navigators: navigate_id_short_path of the read side and
// _navigate_to_container of the edit side.
module Navigation {
  import opened Wrappers
  import opened Sequences
  import opened Documents
  import opened IdShortPath

  // ---------------------------------------------------------------- looking up one part

  predicate Matches(elem: Json, i: nat, part: Part) {
    && elem.Obj?
    && match part
       case Name(name) => Get(elem, "idShort") == Some(Str(name))
       case Index(index) => i == index
  }

  // The first entry that matches the part.
  function FindFrom(items: seq<Json>, part: Part, start: nat): (r: Option<nat>)
    requires start <= |items|
    ensures r.Some? ==> start <= r.value < |items| && Matches(items[r.value], r.value, part)
    ensures forall i :: start <= i < (if r.Some? then r.value else |items|) ==> !Matches(items[i], i, part)
    decreases |items| - start
  {
    if start == |items| then None
    else if Matches(items[start], start, part) then Some(start)
    else FindFrom(items, part, start + 1)
  }

  function Find(items: seq<Json>, part: Part): (r: Option<nat>)
    ensures r.Some? ==> r.value < |items| && Matches(items[r.value], r.value, part)
    ensures forall i :: 0 <= i < (if r.Some? then r.value else |items|) ==> !Matches(items[i], i, part)
  {
    FindFrom(items, part, 0)
  }

  lemma {:induction false} FindFromSame(items: seq<Json>, others: seq<Json>, part: Part, start: nat)
    requires |items| == |others| && start <= |items|
    requires forall i :: start <= i < |items| ==> Matches(items[i], i, part) == Matches(others[i], i, part)
    ensures FindFrom(items, part, start) == FindFrom(others, part, start)
    decreases |items| - start
  {
    if start < |items| && !Matches(items[start], start, part) {
      FindFromSame(items, others, part, start + 1);
    }
  }

  lemma FindIs(items: seq<Json>, part: Part, k: nat)
    requires k < |items| && Matches(items[k], k, part)
    requires forall i :: 0 <= i < k ==> !Matches(items[i], i, part)
    ensures Find(items, part) == Some(k)
  {
  }

  // ---------------------------------------------------------------- reading

  // The field that holds the children: the first non-empty one in this order.
  function NavKey(c: Json): string {
    if Truthy(Get(c, "submodelElements")) then "submodelElements"
    else if Truthy(Get(c, "value")) then "value"
    else if Truthy(Get(c, "statements")) then "statements"
    else "annotations"
  }

  function NavKids(c: Json): (r: seq<Json>)
    ensures r == Kids(c, NavKey(c))
  {
    Kids(c, NavKey(c))
  }

  predicate ListOrAbsent(c: Json, key: string) {
    Get(c, key) == None || Get(c, key) == Some(Null) || Get(c, key).value.Arr?
  }

  // Empty lists are passed over: the reader takes the first field that holds an entry.
  lemma FirstNonEmpty(c: Json)
    requires ListOrAbsent(c, "submodelElements") && ListOrAbsent(c, "value") && ListOrAbsent(c, "statements")
    ensures NavKids(c) ==
            if Kids(c, "submodelElements") != [] then Kids(c, "submodelElements")
            else if Kids(c, "value") != [] then Kids(c, "value")
            else if Kids(c, "statements") != [] then Kids(c, "statements")
            else Kids(c, "annotations")
  {
  }

  function Down(pos: Pos, below: Option<Pos>): Option<Pos> {
    match below
    case None => None
    case Some(rest) => Some(pos + rest)
  }

  // Where the parts lead, as a position; None when nothing is found.
  function NavPos(c: Json, parts: seq<Part>): (r: Option<Pos>)
    ensures r.Some? ==> |r.value| == |parts| && ValidPos(c, r.value)
    decreases |parts|
  {
    if parts == [] then Some([])
    else
      match Find(NavKids(c), parts[0])
      case None => None
      case Some(i) =>
        Down([Step(NavKey(c), i)], NavPos(NavKids(c)[i], parts[1..]))
  }

  function Navigate(c: Json, parts: seq<Part>): Option<Json> {
    match NavPos(c, parts)
    case None => None
    case Some(pos) => Some(At(c, pos))
  }

  // Navigation by one more part.
  lemma {:induction false} NavSnoc(doc: Json, parts: seq<Part>, part: Part, pos: Pos)
    requires NavPos(doc, parts) == Some(pos)
    ensures NavPos(doc, parts + [part]) == NavOne(At(doc, pos), part, pos)
    decreases |parts|
  {
    if parts == [] {
      assert (parts + [part])[1..] == [];
      assert forall s: Step :: [s] + [] == [] + [s];
    } else {
      TailOfAppend(parts, [part]);
      HeadAndTail(pos);
      NavSnoc(NavKids(doc)[pos[0].idx], parts[1..], part, pos[1..]);
      NavOneDown(At(doc, pos), part, pos);
    }
  }

  lemma NavOneDown(c: Json, part: Part, pos: Pos)
    requires pos != []
    ensures NavOne(c, part, pos) == Down([pos[0]], NavOne(c, part, pos[1..]))
  {
    match Find(NavKids(c), part)
    case None =>
    case Some(i) =>
      HeadAndTail(pos);
      Associative([pos[0]], pos[1..], [Step(NavKey(c), i)]);
  }

  function NavOne(c: Json, part: Part, pos: Pos): Option<Pos> {
    match Find(NavKids(c), part)
    case None => None
    case Some(i) => Some(pos + [Step(NavKey(c), i)])
  }

  datatype PathError = MalformedIndex(path: string)

  // navigate_id_short_path; an error is the ValueError of a malformed index.
  function NavigatePath(doc: Json, path: string): Result<Option<Json>, PathError> {
    if path == "" then Ok(Some(doc))
    else
      match Parse(path)
      case None => Err(MalformedIndex(path))
      case Some(parts) => Ok(Navigate(doc, parts))
  }

  method FindElementByIdShort(container: Json, idShort: string) returns (r: Option<Json>)
    ensures r == match Find(NavKids(container), Name(idShort))
                 case None => None
                 case Some(i) => Some(NavKids(container)[i])
  {
    var elements := Get(container, "submodelElements");
    if !Truthy(elements) {
      elements := Get(container, "value");
    }
    if !Truthy(elements) {
      elements := Get(container, "statements");
      if !Truthy(elements) {
        elements := Get(container, "annotations");
      }
    }
    if elements.Some? && elements.value.Arr? {
      var items := elements.value.items;
      for i := 0 to |items|
        invariant forall j :: 0 <= j < i ==> !Matches(items[j], j, Name(idShort))
      {
        if items[i].Obj? && Get(items[i], "idShort") == Some(Str(idShort)) {
          FindIs(items, Name(idShort), i);
          return Some(items[i]);
        }
      }
    }
    return None;
  }

  method GetElementAtIndex(container: Json, index: int) returns (r: Option<Json>)
    ensures r == match Find(NavKids(container), Index(index))
                 case None => None
                 case Some(i) => Some(NavKids(container)[i])
  {
    var elements := Get(container, "submodelElements");
    if !Truthy(elements) {
      elements := Get(container, "value");
    }
    if !Truthy(elements) {
      elements := Get(container, "statements");
      if !Truthy(elements) {
        elements := Get(container, "annotations");
      }
    }
    if elements.Some? && elements.value.Arr? && 0 <= index < |elements.value.items| {
      var elem := elements.value.items[index];
      if elem.Obj? {
        FindIs(elements.value.items, Index(index), index);
        return Some(elem);
      }
    }
    return None;
  }

  method NavigateIdShortPath(payload: Json, path: string) returns (r: Result<Option<Json>, PathError>)
    ensures r == NavigatePath(payload, path)
  {
    if path == "" {
      return Ok(Some(payload));
    }
    var parsed := ParseIdShortPath(path);
    if parsed.None? {
      return Err(MalformedIndex(path));
    }
    var parts := parsed.value;
    var current := payload;
    for k := 0 to |parts|
      invariant Navigate(payload, parts) == Navigate(current, parts[k..])
    {
      var next: Option<Json>;
      match parts[k] {
        case Name(name) => next := FindElementByIdShort(current, name);
        case Index(index) => next := GetElementAtIndex(current, index);
      }
      assert parts[k..][0] == parts[k] && parts[k..][1..] == parts[k + 1..];
      if next.None? {
        return Ok(None);
      }
      current := next.value;
    }
    return Ok(Some(current));
  }

  // ---------------------------------------------------------------- finding a container to edit

  function EditKey(c: Json): string {
    if Truthy(Get(c, "submodelElements")) then "submodelElements" else "value"
  }

  function ContainerPos(c: Json, parts: seq<Part>): (r: Option<Pos>)
    ensures r.Some? ==> |r.value| == |parts| && ValidPos(c, r.value)
    decreases |parts|
  {
    if parts == [] then Some([])
    else
      var kids := Kids(c, EditKey(c));
      match Find(kids, parts[0])
      case None => None
      case Some(i) =>
        Down([Step(EditKey(c), i)], ContainerPos(kids[i], parts[1..]))
  }

  // The inner loop over one list of children.
  method ScanForPart(items: seq<Json>, part: Part) returns (r: Option<nat>)
    ensures r == Find(items, part)
  {
    for i := 0 to |items|
      invariant forall j :: 0 <= j < i ==> !Matches(items[j], j, part)
    {
      if Matches(items[i], i, part) {
        FindIs(items, part, i);
        return Some(i);
      }
    }
    return None;
  }

  lemma ContainerStep(c: Json, parts: seq<Part>, k: nat, pos: Pos)
    requires k < |parts|
    ensures Down(pos, ContainerPos(c, parts[k..])) ==
            match Find(Kids(c, EditKey(c)), parts[k])
            case None => None
            case Some(i) => Down(pos + [Step(EditKey(c), i)], ContainerPos(Kids(c, EditKey(c))[i], parts[k + 1..]))
  {
    assert parts[k..][0] == parts[k] && parts[k..][1..] == parts[k + 1..];
    match Find(Kids(c, EditKey(c)), parts[k])
    case None =>
    case Some(i) =>
      var below := ContainerPos(Kids(c, EditKey(c))[i], parts[k + 1..]);
      assert below.Some? ==> pos + ([Step(EditKey(c), i)] + below.value) == pos + [Step(EditKey(c), i)] + below.value;
  }

  // The in-place walk; the returned position plays the returned reference.
  method NavigateToContainer(doc: Json, parts: seq<Part>) returns (r: Option<Pos>)
    ensures r == ContainerPos(doc, parts)
  {
    var current := doc;
    var pos: Pos := [];
    assert parts[0..] == parts;
    DownNil(ContainerPos(doc, parts));
    for k := 0 to |parts|
      invariant ContainerPos(doc, parts) == Down(pos, ContainerPos(current, parts[k..]))
    {
      ContainerStep(current, parts, k, pos);
      var elements := Get(current, "submodelElements");
      var key := "submodelElements";
      if !Truthy(elements) {
        elements := Get(current, "value");
        key := "value";
      }
      if elements.Some? && !elements.value.Arr? {
        return None;
      }
      var items := if elements.None? then [] else elements.value.items;
      var found := ScanForPart(items, parts[k]);
      if found.None? {
        return None;
      }
      current := items[found.value];
      pos := pos + [Step(key, found.value)];
    }
    assert pos + [] == pos;
    return Some(pos);
  }

  lemma DownNil(below: Option<Pos>)
    ensures Down([], below) == below
  {
    if below.Some? {
      assert [] + below.value == below.value;
    }
  }

  // ---------------------------------------------------------------- agreement

  predicate ThroughTreesOnly(pos: Pos) {
    forall k :: 0 <= k < |pos| ==> pos[k].key == "submodelElements" || pos[k].key == "value"
  }

  // On every document: the edit navigator reaches exactly the positions that the read
  // navigator reaches without passing through statements or annotations.
  lemma {:induction false} NavigatorsAgree(c: Json, parts: seq<Part>, pos: Pos)
    ensures ContainerPos(c, parts) == Some(pos) <==> NavPos(c, parts) == Some(pos) && ThroughTreesOnly(pos)
    decreases |parts|
  {
    if parts != [] {
      var kids := Kids(c, EditKey(c));
      if pos != [] {
        var k := pos[0].idx;
        assert pos == [pos[0]] + pos[1..];
        if EditKey(c) == NavKey(c) {
          if Find(kids, parts[0]) == Some(k) {
            NavigatorsAgree(kids[k], parts[1..], pos[1..]);
          }
        } else {
          assert kids == [];
        }
      }
    }
  }
}

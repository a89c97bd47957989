// Listing all idShortPaths and element references of a submodel, and the round trip
// from each listed path back to the element that it was listed for.
module PathCollection {
  import opened Wrappers
  import opened Sequences
  import opened Documents
  import opened Text
  import opened IdShortPath
  import opened Navigation

  // ---------------------------------------------------------------- the walk

  // Where an element of this kind keeps its children.
  function ChildField(elem: Json): Option<string> {
    if HasModelType(elem, COLLECTION) || HasModelType(elem, LIST) then Some("value")
    else if HasModelType(elem, ENTITY) then Some("statements")
    else if HasModelType(elem, ANNOTATED) then Some("annotations")
    else None
  }

  function Children(elem: Json): (r: seq<Json>)
    ensures forall i :: 0 <= i < |r| ==> r[i] < elem
  {
    match ChildField(elem)
    case None => []
    case Some(key) => Kids(elem, key)
  }

  function IdShort(elem: Json): Option<string> {
    match Get(elem, "idShort")
    case Some(Str(s)) => if s == "" then None else Some(s)
    case _ => None
  }

  // The path component of a child; unnamed children outside lists are skipped.
  function ChildPart(elem: Json, i: nat): Option<Part>
    requires i < |Children(elem)|
  {
    if HasModelType(elem, LIST) then Some(Index(i))
    else
      match IdShort(Children(elem)[i])
      case None => None
      case Some(name) => Some(Name(name))
  }

  // A listed element with its path, as parts and as text.
  datatype Entry = Entry(elem: Json, parts: seq<Part>, path: string)

  function EntriesOf(elem: Json, parts: seq<Part>, path: string): seq<Entry>
    decreases elem, |Children(elem)| + 1
  {
    [Entry(elem, parts, path)] + EntriesBelow(elem, parts, path, 0)
  }

  function EntriesBelow(elem: Json, parts: seq<Part>, path: string, i: nat): seq<Entry>
    requires i <= |Children(elem)|
    decreases elem, |Children(elem)| - i
  {
    if i == |Children(elem)| then []
    else EntriesAt(elem, parts, path, i) + EntriesBelow(elem, parts, path, i + 1)
  }

  function EntriesAt(elem: Json, parts: seq<Part>, path: string, i: nat): seq<Entry>
    requires i < |Children(elem)|
    decreases elem, 0
  {
    match ChildPart(elem, i)
    case None => []
    case Some(part) => EntriesOf(Children(elem)[i], parts + [part], path + Piece(part))
  }

  function RootEntries(elements: seq<Json>, i: nat): seq<Entry>
    requires i <= |elements|
    decreases |elements| - i
  {
    if i == |elements| then []
    else RootEntry(elements[i]) + RootEntries(elements, i + 1)
  }

  function RootEntry(elem: Json): seq<Entry> {
    match IdShort(elem)
    case None => []
    case Some(name) => EntriesOf(elem, [Name(name)], name)
  }

  function Entries(doc: Json): seq<Entry> {
    RootEntries(Kids(doc, "submodelElements"), 0)
  }

  function Paths(entries: seq<Entry>): (r: seq<string>)
    ensures |r| == |entries| && forall i :: 0 <= i < |r| ==> r[i] == entries[i].path
  {
    seq(|entries|, i requires 0 <= i < |entries| => entries[i].path)
  }

  // A reference to an element: the submodel key followed by the element key.
  datatype Reference = Reference(submodelId: Json, elementType: Json, path: string)

  function ReferenceTo(elem: Json, submodelId: Json, path: string): Reference {
    Reference(submodelId,
              match Get(elem, "modelType") { case None => Str("SubmodelElement") case Some(t) => t },
              path)
  }

  function References(entries: seq<Entry>, submodelId: Json): (r: seq<Reference>)
    ensures |r| == |entries|
    ensures forall i :: 0 <= i < |r| ==> r[i] == ReferenceTo(entries[i].elem, submodelId, entries[i].path)
  {
    seq(|entries|, i requires 0 <= i < |entries| => ReferenceTo(entries[i].elem, submodelId, entries[i].path))
  }

  // ---------------------------------------------------------------- the collectors

  method CollectPaths(elem: Json, path: string, ghost parts: seq<Part>, out: seq<string>) returns (r: seq<string>)
    ensures r == out + Paths(EntriesOf(elem, parts, path))
    decreases elem, 1
  {
    r := CollectChildPaths(elem, path, parts, out + [path]);
    PathsHead(elem, parts, path, out);
  }

  // The loop over the children; also what the source runs for an item of a list.
  method CollectChildPaths(elem: Json, path: string, ghost parts: seq<Part>, out: seq<string>) returns (r: seq<string>)
    ensures r == out + Paths(EntriesBelow(elem, parts, path, 0))
    decreases elem, 0, 1
  {
    r := out;
    for i := 0 to |Children(elem)|
      invariant r + Paths(EntriesBelow(elem, parts, path, i)) == out + Paths(EntriesBelow(elem, parts, path, 0))
    {
      PathsSplit(elem, parts, path, i, r);
      r := CollectChild(elem, i, path, parts, r);
    }
  }

  method CollectChild(elem: Json, i: nat, path: string, ghost parts: seq<Part>, out: seq<string>)
    returns (r: seq<string>)
    requires i < |Children(elem)|
    ensures r == out + Paths(EntriesAt(elem, parts, path, i))
    decreases elem, 0, 0
  {
    var child := Children(elem)[i];
    if HasModelType(elem, LIST) {
      var itemPath := path + "[" + NatToString(i) + "]";
      ItemPath(path, i);
      r := CollectChildPaths(child, itemPath, parts + [Index(i)], out + [itemPath]);
      PathsHead(child, parts + [Index(i)], itemPath, out);
    } else {
      var childId := IdShort(child);
      if childId.None? {
        AppendNothing(out);
        return out;
      }
      Associative(path, ".", childId.value);
      r := CollectPaths(child, path + "." + childId.value, parts + [Name(childId.value)], out);
    }
  }

  lemma ItemPath(path: string, i: nat)
    ensures path + "[" + NatToString(i) + "]" == path + Piece(Index(i))
  {
    Associative(path, "[", NatToString(i));
    Associative(path, "[" + NatToString(i), "]");
  }

  lemma PathsHead(elem: Json, parts: seq<Part>, path: string, out: seq<string>)
    ensures out + Paths(EntriesOf(elem, parts, path)) == out + [path] + Paths(EntriesBelow(elem, parts, path, 0))
  {
    PathsAppend([Entry(elem, parts, path)], EntriesBelow(elem, parts, path, 0), out);
    assert Paths([Entry(elem, parts, path)]) == [path];
  }

  lemma PathsSplit(elem: Json, parts: seq<Part>, path: string, i: nat, out: seq<string>)
    requires i < |Children(elem)|
    ensures out + Paths(EntriesBelow(elem, parts, path, i)) ==
            out + Paths(EntriesAt(elem, parts, path, i)) + Paths(EntriesBelow(elem, parts, path, i + 1))
  {
    PathsAppend(EntriesAt(elem, parts, path, i), EntriesBelow(elem, parts, path, i + 1), out);
  }

  lemma PathsAppend(a: seq<Entry>, b: seq<Entry>, out: seq<string>)
    ensures out + Paths(a + b) == out + Paths(a) + Paths(b)
  {
  }

  method CollectIdShortPaths(submodel: Json) returns (paths: seq<string>)
    ensures paths == Paths(Entries(submodel))
  {
    var elements := Kids(submodel, "submodelElements");
    paths := [];
    AppendNothing(Paths(Entries(submodel)));
    for i := 0 to |elements|
      invariant Paths(Entries(submodel)) == paths + Paths(RootEntries(elements, i))
    {
      RootPathsSplit(elements, i, paths);
      var idShort := IdShort(elements[i]);
      if idShort.Some? {
        paths := CollectPaths(elements[i], idShort.value, [Name(idShort.value)], paths);
      }
    }
    AppendNothing(paths);
  }

  lemma RootPathsSplit(elements: seq<Json>, i: nat, out: seq<string>)
    requires i < |elements|
    ensures out + Paths(RootEntries(elements, i))
            == out + Paths(RootEntry(elements[i])) + Paths(RootEntries(elements, i + 1))
    ensures IdShort(elements[i]).None? ==> out + Paths(RootEntry(elements[i])) == out
  {
    PathsAppend(RootEntry(elements[i]), RootEntries(elements, i + 1), out);
    AppendNothing(out);
  }

  method CollectReferences(elem: Json, path: string, submodelId: Json, ghost parts: seq<Part>, out: seq<Reference>)
    returns (r: seq<Reference>)
    ensures r == out + References(EntriesOf(elem, parts, path), submodelId)
    decreases elem, 1
  {
    r := CollectChildReferences(elem, path, submodelId, parts, out + [ReferenceTo(elem, submodelId, path)]);
    ReferencesHead(elem, parts, path, submodelId, out);
  }

  method CollectChildReferences(elem: Json, path: string, submodelId: Json, ghost parts: seq<Part>, out: seq<Reference>)
    returns (r: seq<Reference>)
    ensures r == out + References(EntriesBelow(elem, parts, path, 0), submodelId)
    decreases elem, 0, 1
  {
    r := out;
    for i := 0 to |Children(elem)|
      invariant r + References(EntriesBelow(elem, parts, path, i), submodelId) ==
                out + References(EntriesBelow(elem, parts, path, 0), submodelId)
    {
      ReferencesSplit(elem, parts, path, submodelId, i, r);
      r := CollectChildReference(elem, i, path, submodelId, parts, r);
    }
  }

  method CollectChildReference(elem: Json, i: nat, path: string, submodelId: Json, ghost parts: seq<Part>,
                               out: seq<Reference>)
    returns (r: seq<Reference>)
    requires i < |Children(elem)|
    ensures r == out + References(EntriesAt(elem, parts, path, i), submodelId)
    decreases elem, 0, 0
  {
    var child := Children(elem)[i];
    if HasModelType(elem, LIST) {
      var itemPath := path + "[" + NatToString(i) + "]";
      ItemPath(path, i);
      var item := ReferenceTo(child, submodelId, itemPath);
      r := CollectChildReferences(child, itemPath, submodelId, parts + [Index(i)], out + [item]);
      ReferencesHead(child, parts + [Index(i)], itemPath, submodelId, out);
    } else {
      var childId := IdShort(child);
      if childId.None? {
        AppendNothing(out);
        return out;
      }
      Associative(path, ".", childId.value);
      r := CollectReferences(child, path + "." + childId.value, submodelId, parts + [Name(childId.value)], out);
    }
  }

  lemma ReferencesHead(elem: Json, parts: seq<Part>, path: string, submodelId: Json, out: seq<Reference>)
    ensures out + References(EntriesOf(elem, parts, path), submodelId) ==
            out + [ReferenceTo(elem, submodelId, path)] + References(EntriesBelow(elem, parts, path, 0), submodelId)
  {
    ReferencesAppend([Entry(elem, parts, path)], EntriesBelow(elem, parts, path, 0), submodelId, out);
    assert References([Entry(elem, parts, path)], submodelId) == [ReferenceTo(elem, submodelId, path)];
  }

  lemma ReferencesSplit(elem: Json, parts: seq<Part>, path: string, submodelId: Json, i: nat, out: seq<Reference>)
    requires i < |Children(elem)|
    ensures out + References(EntriesBelow(elem, parts, path, i), submodelId) ==
            out + References(EntriesAt(elem, parts, path, i), submodelId) +
            References(EntriesBelow(elem, parts, path, i + 1), submodelId)
  {
    ReferencesAppend(EntriesAt(elem, parts, path, i), EntriesBelow(elem, parts, path, i + 1), submodelId, out);
  }

  lemma ReferencesAppend(a: seq<Entry>, b: seq<Entry>, submodelId: Json, out: seq<Reference>)
    ensures out + References(a + b, submodelId) == out + References(a, submodelId) + References(b, submodelId)
  {
  }

  method CollectElementReferences(submodel: Json) returns (references: seq<Reference>)
    ensures references == References(Entries(submodel), SubmodelId(submodel))
  {
    var submodelId := SubmodelId(submodel);
    var elements := Kids(submodel, "submodelElements");
    references := [];
    AppendNothing(References(Entries(submodel), submodelId));
    for i := 0 to |elements|
      invariant References(Entries(submodel), submodelId) == references + References(RootEntries(elements, i), submodelId)
    {
      RootReferencesSplit(elements, i, submodelId, references);
      var idShort := IdShort(elements[i]);
      if idShort.Some? {
        references := CollectReferences(elements[i], idShort.value, submodelId, [Name(idShort.value)], references);
      }
    }
    AppendNothing(references);
  }

  lemma RootReferencesSplit(elements: seq<Json>, i: nat, submodelId: Json, out: seq<Reference>)
    requires i < |elements|
    ensures out + References(RootEntries(elements, i), submodelId)
            == out + References(RootEntry(elements[i]), submodelId) + References(RootEntries(elements, i + 1), submodelId)
    ensures IdShort(elements[i]).None? ==> out + References(RootEntry(elements[i]), submodelId) == out
  {
    ReferencesAppend(RootEntry(elements[i]), RootEntries(elements, i + 1), submodelId, out);
    AppendNothing(out);
  }

  function SubmodelId(submodel: Json): Json {
    match Get(submodel, "id") { case None => Str("") case Some(id) => id }
  }

  // ---------------------------------------------------------------- well-formed submodels

  // Children that the path language can tell apart by name.
  predicate Named(items: seq<Json>) {
    && (forall i :: 0 <= i < |items| ==> IdShort(items[i]).Some? && PlainName(IdShort(items[i]).value))
    && (forall i, k :: 0 <= i < k < |items| ==> IdShort(items[i]) != IdShort(items[k]))
  }

  // Children are objects, named outside lists, and kept where the reader looks for them.
  predicate WellFormedElement(elem: Json)
    decreases elem
  {
    && elem.Obj?
    && (Children(elem) != [] ==> ChildField(elem) == Some(NavKey(elem)))
    && (!HasModelType(elem, LIST) ==> Named(Children(elem)))
    && forall i :: 0 <= i < |Children(elem)| ==> WellFormedElement(Children(elem)[i])
  }

  predicate WellFormedSubmodel(doc: Json) {
    && Named(Kids(doc, "submodelElements"))
    && forall i :: 0 <= i < |Kids(doc, "submodelElements")| ==> WellFormedElement(Kids(doc, "submodelElements")[i])
  }

  lemma NamedFind(items: seq<Json>, i: nat)
    requires Named(items) && i < |items| && forall k :: 0 <= k < |items| ==> items[k].Obj?
    ensures Find(items, Name(IdShort(items[i]).value)) == Some(i)
  {
    var part := Name(IdShort(items[i]).value);
    forall k | 0 <= k < i ensures !Matches(items[k], k, part) {
      assert IdShort(items[k]) != IdShort(items[i]);
    }
    FindIs(items, part, i);
  }

  // A child is reached through its own path component.
  lemma ChildFound(elem: Json, i: nat)
    requires WellFormedElement(elem) && i < |Children(elem)|
    ensures ChildPart(elem, i).Some? && PlainPart(ChildPart(elem, i).value)
    ensures NavKids(elem) == Children(elem) && Find(NavKids(elem), ChildPart(elem, i).value) == Some(i)
  {
    assert WellFormedElement(Children(elem)[i]);
    if HasModelType(elem, LIST) {
      FindIs(Children(elem), Index(i), i);
    } else {
      NamedFind(Children(elem), i);
    }
  }

  // ---------------------------------------------------------------- round trip

  // The entry's path is printed from its parts, and both lead back to its element.
  predicate LeadsBack(doc: Json, e: Entry) {
    && e.parts != [] && e.parts[0].Name? && PlainParts(e.parts)
    && e.path == Print(e.parts)
    && Navigate(doc, e.parts) == Some(e.elem)
  }

  lemma {:induction false} EntriesLeadBack(doc: Json, elem: Json, parts: seq<Part>, path: string)
    requires WellFormedElement(elem) && LeadsBack(doc, Entry(elem, parts, path))
    ensures forall e :: e in EntriesOf(elem, parts, path) ==> LeadsBack(doc, e)
    decreases elem, |Children(elem)| + 1
  {
    BelowLeadBack(doc, elem, parts, path, 0);
  }

  lemma {:induction false} BelowLeadBack(doc: Json, elem: Json, parts: seq<Part>, path: string, i: nat)
    requires WellFormedElement(elem) && LeadsBack(doc, Entry(elem, parts, path)) && i <= |Children(elem)|
    ensures forall e :: e in EntriesBelow(elem, parts, path, i) ==> LeadsBack(doc, e)
    decreases elem, |Children(elem)| - i
  {
    if i < |Children(elem)| {
      ChildLeadsBack(doc, elem, parts, path, i);
      var part := ChildPart(elem, i).value;
      EntriesLeadBack(doc, Children(elem)[i], parts + [part], path + Piece(part));
      BelowLeadBack(doc, elem, parts, path, i + 1);
    }
  }

  lemma ChildLeadsBack(doc: Json, elem: Json, parts: seq<Part>, path: string, i: nat)
    requires WellFormedElement(elem) && LeadsBack(doc, Entry(elem, parts, path)) && i < |Children(elem)|
    ensures ChildPart(elem, i).Some?
    ensures var part := ChildPart(elem, i).value;
            LeadsBack(doc, Entry(Children(elem)[i], parts + [part], path + Piece(part)))
  {
    ChildFound(elem, i);
    var part := ChildPart(elem, i).value;
    PrintSnoc(parts, part);
    TailOfAppend(parts, [part]);
    ChildReached(doc, elem, parts, i, part);
  }

  lemma ChildReached(doc: Json, elem: Json, parts: seq<Part>, i: nat, part: Part)
    requires Navigate(doc, parts) == Some(elem) && i < |NavKids(elem)| && Find(NavKids(elem), part) == Some(i)
    ensures Navigate(doc, parts + [part]) == Some(NavKids(elem)[i])
  {
    var pos := NavPos(doc, parts).value;
    NavSnoc(doc, parts, part, pos);
    AtAppend(doc, pos, [Step(NavKey(elem), i)]);
  }

  lemma {:induction false} RootsLeadBack(doc: Json, i: nat)
    requires WellFormedSubmodel(doc) && i <= |Kids(doc, "submodelElements")|
    ensures forall e :: e in RootEntries(Kids(doc, "submodelElements"), i) ==> LeadsBack(doc, e)
    decreases |Kids(doc, "submodelElements")| - i
  {
    var elements := Kids(doc, "submodelElements");
    if i < |elements| {
      var name := IdShort(elements[i]).value;
      assert forall k :: 0 <= k < |elements| ==> WellFormedElement(elements[k]);
      NamedFind(elements, i);
      NavSnoc(doc, [], Name(name), []);
      AtAppend(doc, [], [Step("submodelElements", i)]);
      assert [] + [Name(name)] == [Name(name)] && name + PrintTail([]) == name;
      EntriesLeadBack(doc, elements[i], [Name(name)], name);
      RootsLeadBack(doc, i + 1);
    }
  }

  // Every listed path parses and navigates back to exactly the element it was listed for.
  lemma CollectedPathsLeadBack(doc: Json, i: nat)
    requires WellFormedSubmodel(doc) && i < |Entries(doc)|
    ensures Parse(Entries(doc)[i].path) == Some(Entries(doc)[i].parts)
    ensures NavigatePath(doc, Paths(Entries(doc))[i]) == Ok(Some(Entries(doc)[i].elem))
  {
    RootsLeadBack(doc, 0);
    var e := Entries(doc)[i];
    assert e in Entries(doc) && LeadsBack(doc, e);
    ParsePrint(e.parts);
    assert PlainPart(e.parts[0]);
  }

  // Every listed reference leads to an element of the kind it names, in the submodel it names.
  lemma ReferencesLeadBack(doc: Json, i: nat)
    requires WellFormedSubmodel(doc) && i < |Entries(doc)|
    ensures var r := References(Entries(doc), SubmodelId(doc))[i];
            && (Get(doc, "id") == Some(r.submodelId) || (Get(doc, "id") == None && r.submodelId == Str("")))
            && match NavigatePath(doc, r.path)
               case Ok(Some(elem)) =>
                 || Get(elem, "modelType") == Some(r.elementType)
                 || (Get(elem, "modelType") == None && r.elementType == Str("SubmodelElement"))
               case _ => false
  {
    CollectedPathsLeadBack(doc, i);
  }

  predicate HasName(elem: Json, name: string) {
    name != "" && Get(elem, "idShort") == Some(Str(name))
  }

  // Elements without a name are passed over, except in lists.
  lemma NamelessPassedOver(elem: Json, parts: seq<Part>, path: string, i: nat)
    requires i < |Children(elem)|
    ensures var child := Children(elem)[i];
            && (RootEntry(child) == [] <==> forall name :: !HasName(child, name))
            && (EntriesAt(elem, parts, path, i) == [] <==>
                  (forall name :: !HasName(child, name)) && Get(elem, "modelType") != Some(Str("SubmodelElementList")))
  {
    var child := Children(elem)[i];
    if IdShort(child).Some? {
      assert HasName(child, IdShort(child).value);
    }
  }

  // ---------------------------------------------------------------- distinctness

  predicate DistinctParts(entries: seq<Entry>) {
    forall i, k :: 0 <= i < k < |entries| ==> entries[i].parts != entries[k].parts
  }

  predicate AllUnder(entries: seq<Entry>, parts: seq<Part>) {
    forall i :: 0 <= i < |entries| ==> parts <= entries[i].parts
  }

  lemma {:induction false} EntriesUnder(elem: Json, parts: seq<Part>, path: string)
    ensures AllUnder(EntriesOf(elem, parts, path), parts)
    decreases elem, |Children(elem)| + 1
  {
    BelowUnder(elem, parts, path, 0);
  }

  // Entries below start with the component of one of the remaining children.
  lemma {:induction false} BelowUnder(elem: Json, parts: seq<Part>, path: string, i: nat)
    requires i <= |Children(elem)|
    ensures forall j :: 0 <= j < |EntriesBelow(elem, parts, path, i)| ==>
              UnderSome(elem, parts, i, EntriesBelow(elem, parts, path, i)[j].parts)
    decreases elem, |Children(elem)| - i
  {
    if i < |Children(elem)| {
      var here, rest := EntriesAt(elem, parts, path, i), EntriesBelow(elem, parts, path, i + 1);
      BelowUnder(elem, parts, path, i + 1);
      if ChildPart(elem, i).Some? {
        var part := ChildPart(elem, i).value;
        EntriesUnder(Children(elem)[i], parts + [part], path + Piece(part));
      }
      var all: seq<Entry> := here + rest;
      forall j | 0 <= j < |all| ensures UnderSome(elem, parts, i, all[j].parts) {
        if j < |here| {
          assert UnderChild(elem, parts, i, here[j].parts);
        } else {
          assert UnderSome(elem, parts, i + 1, rest[j - |here|].parts);
        }
      }
    }
  }

  ghost predicate UnderSome(elem: Json, parts: seq<Part>, from: nat, longer: seq<Part>) {
    parts <= longer && exists k :: from <= k < |Children(elem)| && UnderChild(elem, parts, k, longer)
  }

  predicate UnderChild(elem: Json, parts: seq<Part>, k: nat, longer: seq<Part>) {
    k < |Children(elem)| && ChildPart(elem, k).Some? && parts + [ChildPart(elem, k).value] <= longer
  }

  lemma ChildPartsDiffer(elem: Json, i: nat, k: nat)
    requires WellFormedElement(elem) && i < k < |Children(elem)|
    ensures ChildPart(elem, i).Some? && ChildPart(elem, k).Some? && ChildPart(elem, i) != ChildPart(elem, k)
  {
    ChildFound(elem, i);
    ChildFound(elem, k);
  }

  lemma ConcatDistinct(here: seq<Entry>, rest: seq<Entry>)
    requires DistinctParts(here) && DistinctParts(rest)
    requires forall j, l :: 0 <= j < |here| && 0 <= l < |rest| ==> here[j].parts != rest[l].parts
    ensures DistinctParts(here + rest)
  {
  }

  lemma {:induction false} EntriesDistinct(elem: Json, parts: seq<Part>, path: string)
    requires WellFormedElement(elem)
    ensures DistinctParts(EntriesOf(elem, parts, path))
    decreases elem, |Children(elem)| + 1
  {
    BelowDistinct(elem, parts, path, 0);
    BelowUnder(elem, parts, path, 0);
    var rest := EntriesBelow(elem, parts, path, 0);
    forall l | 0 <= l < |rest| ensures parts != rest[l].parts {
      assert UnderSome(elem, parts, 0, rest[l].parts);
      var k :| 0 <= k < |Children(elem)| && UnderChild(elem, parts, k, rest[l].parts);
      assert |parts| < |parts + [ChildPart(elem, k).value]|;
    }
    ConcatDistinct([Entry(elem, parts, path)], rest);
  }

  lemma {:induction false} BelowDistinct(elem: Json, parts: seq<Part>, path: string, i: nat)
    requires WellFormedElement(elem) && i <= |Children(elem)|
    ensures DistinctParts(EntriesBelow(elem, parts, path, i))
    decreases elem, |Children(elem)| - i
  {
    if i < |Children(elem)| {
      ChildFound(elem, i);
      var part := ChildPart(elem, i).value;
      var here, rest := EntriesAt(elem, parts, path, i), EntriesBelow(elem, parts, path, i + 1);
      EntriesDistinct(Children(elem)[i], parts + [part], path + Piece(part));
      EntriesUnder(Children(elem)[i], parts + [part], path + Piece(part));
      BelowDistinct(elem, parts, path, i + 1);
      BelowUnder(elem, parts, path, i + 1);
      forall j, l | 0 <= j < |here| && 0 <= l < |rest| ensures here[j].parts != rest[l].parts {
        assert UnderSome(elem, parts, i + 1, rest[l].parts);
        var k :| i + 1 <= k < |Children(elem)| && UnderChild(elem, parts, k, rest[l].parts);
        ChildPartsDiffer(elem, i, k);
        assert here[j].parts[|parts|] == (parts + [part])[|parts|];
        assert rest[l].parts[|parts|] == (parts + [ChildPart(elem, k).value])[|parts|];
      }
      ConcatDistinct(here, rest);
    }
  }

  lemma {:induction false} RootsDistinct(elements: seq<Json>, i: nat)
    requires i <= |elements| && Named(elements)
    requires forall k :: 0 <= k < |elements| ==> WellFormedElement(elements[k])
    ensures DistinctParts(RootEntries(elements, i))
    ensures forall j :: 0 <= j < |RootEntries(elements, i)| ==> UnderRoot(elements, i, RootEntries(elements, i)[j].parts)
    decreases |elements| - i
  {
    if i < |elements| {
      var name := IdShort(elements[i]).value;
      var here, rest := RootEntry(elements[i]), RootEntries(elements, i + 1);
      EntriesDistinct(elements[i], [Name(name)], name);
      EntriesUnder(elements[i], [Name(name)], name);
      RootsDistinct(elements, i + 1);
      assert forall j :: 0 <= j < |here| ==> here[j].parts[0] == [Name(name)][0];
      var all: seq<Entry> := here + rest;
      forall j | 0 <= j < |all| ensures UnderRoot(elements, i, all[j].parts) {
        if j < |here| {
          assert StartsAt(elements, i, here[j].parts);
        } else {
          assert UnderRoot(elements, i + 1, rest[j - |here|].parts);
        }
      }
      forall j, l | 0 <= j < |here| && 0 <= l < |rest| ensures here[j].parts != rest[l].parts {
        assert UnderRoot(elements, i + 1, rest[l].parts);
        var k :| i + 1 <= k < |elements| && StartsAt(elements, k, rest[l].parts);
        assert IdShort(elements[i]) != IdShort(elements[k]);
      }
      ConcatDistinct(here, rest);
    }
  }

  predicate StartsAt(elements: seq<Json>, k: nat, parts: seq<Part>) {
    k < |elements| && IdShort(elements[k]).Some? && parts != [] && parts[0] == Name(IdShort(elements[k]).value)
  }

  ghost predicate UnderRoot(elements: seq<Json>, from: nat, parts: seq<Part>) {
    exists k :: from <= k < |elements| && StartsAt(elements, k, parts)
  }

  // No path is listed twice.
  lemma CollectedPathsDistinct(doc: Json, i: nat, k: nat)
    requires WellFormedSubmodel(doc) && i < k < |Entries(doc)|
    ensures Paths(Entries(doc))[i] != Paths(Entries(doc))[k]
  {
    RootsDistinct(Kids(doc, "submodelElements"), 0);
    CollectedPathsLeadBack(doc, i);
    CollectedPathsLeadBack(doc, k);
    assert Entries(doc)[i].parts != Entries(doc)[k].parts;
  }

  // ---------------------------------------------------------------- coverage

  // Where each kind of element holds others.
  predicate HeldUnder(elem: Json, key: string) {
    match Get(elem, "modelType")
    case Some(Str(kind)) =>
      || ((kind == "SubmodelElementCollection" || kind == "SubmodelElementList") && key == "value")
      || (kind == "Entity" && key == "statements")
      || (kind == "AnnotatedRelationshipElement" && key == "annotations")
    case _ => false
  }

  lemma ChildFieldIs(elem: Json, key: string)
    ensures ChildField(elem) == Some(key) <==> HeldUnder(elem, key)
  {
  }

  // A position of an element below another, going through such fields only.
  predicate ElementBelow(elem: Json, pos: Pos)
    decreases |pos|
  {
    pos != [] ==>
      && HeldUnder(elem, pos[0].key) && pos[0].idx < |Kids(elem, pos[0].key)|
      && ElementBelow(Kids(elem, pos[0].key)[pos[0].idx], pos[1..])
  }

  predicate ElementPos(doc: Json, pos: Pos) {
    && pos != [] && pos[0].key == "submodelElements" && pos[0].idx < |Kids(doc, "submodelElements")|
    && ElementBelow(Kids(doc, "submodelElements")[pos[0].idx], pos[1..])
  }

  lemma {:induction false} AtInBelow(elem: Json, parts: seq<Part>, path: string, i: nat, k: nat, e: Entry)
    requires i <= k < |Children(elem)| && e in EntriesAt(elem, parts, path, k)
    ensures e in EntriesBelow(elem, parts, path, i)
    decreases k - i
  {
    if i < k {
      AtInBelow(elem, parts, path, i + 1, k, e);
    }
  }

  // One step down: the child's component leads to the child's position.
  lemma StepDown(doc: Json, elem: Json, parts: seq<Part>, at: Pos, step: Step)
    requires WellFormedElement(elem) && NavPos(doc, parts) == Some(at) && At(doc, at) == elem
    requires ChildField(elem) == Some(step.key) && step.idx < |Children(elem)|
    ensures ChildPart(elem, step.idx).Some?
    ensures NavPos(doc, parts + [ChildPart(elem, step.idx).value]) == Some(at + [step])
    ensures ValidPos(doc, at + [step]) && At(doc, at + [step]) == Children(elem)[step.idx]
  {
    ChildFound(elem, step.idx);
    NavSnoc(doc, parts, ChildPart(elem, step.idx).value, at);
    assert step == Step(NavKey(elem), step.idx);
    AtAppend(doc, at, [step]);
  }

  lemma {:induction false} BelowIsListed(doc: Json, elem: Json, parts: seq<Part>, path: string, at: Pos, pos: Pos)
    returns (e: Entry)
    requires WellFormedElement(elem) && NavPos(doc, parts) == Some(at) && At(doc, at) == elem
    requires ElementBelow(elem, pos)
    ensures e in EntriesOf(elem, parts, path) && NavPos(doc, e.parts) == Some(at + pos)
    decreases |pos|
  {
    if pos == [] {
      e := Entry(elem, parts, path);
      assert at + pos == at;
    } else {
      var i := pos[0].idx;
      StepDown(doc, elem, parts, at, pos[0]);
      var part := ChildPart(elem, i).value;
      e := BelowIsListed(doc, Children(elem)[i], parts + [part], path + Piece(part), at + [pos[0]], pos[1..]);
      Regroup(at, pos);
      InChild(elem, parts, path, i, e);
    }
  }

  lemma Regroup(at: Pos, pos: Pos)
    requires pos != []
    ensures at + [pos[0]] + pos[1..] == at + pos
  {
  }

  lemma InChild(elem: Json, parts: seq<Part>, path: string, i: nat, e: Entry)
    requires i < |Children(elem)| && ChildPart(elem, i).Some?
    requires var part := ChildPart(elem, i).value;
             e in EntriesOf(Children(elem)[i], parts + [part], path + Piece(part))
    ensures e in EntriesOf(elem, parts, path)
  {
    AtInBelow(elem, parts, path, 0, i, e);
  }

  lemma {:induction false} RootInEntries(elements: seq<Json>, i: nat, k: nat, e: Entry)
    requires i <= k < |elements| && e in RootEntry(elements[k])
    ensures e in RootEntries(elements, i)
    decreases k - i
  {
    if i < k {
      RootInEntries(elements, i + 1, k, e);
    }
    InAppend(RootEntry(elements[i]), RootEntries(elements, i + 1), e);
  }

  // Every element of the submodel is listed, with a path that leads to its position.
  lemma EveryElementIsListed(doc: Json, pos: Pos) returns (e: Entry)
    requires WellFormedSubmodel(doc) && ElementPos(doc, pos)
    ensures e in Entries(doc) && NavPos(doc, e.parts) == Some(pos) && e.elem == At(doc, pos)
  {
    var elements := Kids(doc, "submodelElements");
    var i := pos[0].idx;
    var name := IdShort(elements[i]).value;
    RootIsReached(doc, i);
    e := BelowIsListed(doc, elements[i], [Name(name)], name, [pos[0]], pos[1..]);
    HeadAndTail(pos);
    RootInEntries(elements, 0, i, e);
    RootsLeadBack(doc, 0);
    assert LeadsBack(doc, e);
  }

  // A top-level element is reached by its idShort.
  lemma RootIsReached(doc: Json, i: nat)
    requires WellFormedSubmodel(doc) && i < |Kids(doc, "submodelElements")|
    ensures var element := Kids(doc, "submodelElements")[i];
            && IdShort(element).Some? && NavPos(doc, [Name(IdShort(element).value)]) == Some([Step("submodelElements", i)])
            && ValidPos(doc, [Step("submodelElements", i)]) && At(doc, [Step("submodelElements", i)]) == element
  {
    var elements := Kids(doc, "submodelElements");
    var name := IdShort(elements[i]).value;
    assert forall k :: 0 <= k < |elements| ==> WellFormedElement(elements[k]);
    NamedFind(elements, i);
    NavSnoc(doc, [], Name(name), []);
    AtAppend(doc, [], [Step("submodelElements", i)]);
    AppendNothing([Name(name)]);
    AppendNothing([Step("submodelElements", i)]);
  }
}

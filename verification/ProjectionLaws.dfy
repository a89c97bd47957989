// What each projection keeps, position by position and field by field.
module ProjectionLaws {
  import opened Wrappers
  import opened Documents
  import opened IdShortPath
  import opened Navigation
  import opened Projection

  // ---------------------------------------------------------------- one element

  predicate Composite(e: Json) {
    || Get(e, "modelType") == Some(Str("SubmodelElementCollection"))
    || Get(e, "modelType") == Some(Str("SubmodelElementList"))
  }

  // The lists of elements that a projection goes through.
  predicate HoldsElements(e: Json, key: string) {
    && (key == "submodelElements" || (key == "value" && Composite(e)))
    && Get(e, key).Some? && Get(e, key).value.Arr?
  }

  // A position that is reached through such lists.
  predicate Along(c: Json, pos: Pos)
    decreases |pos|
  {
    pos != [] ==>
      && HoldsElements(c, pos[0].key) && pos[0].idx < |Kids(c, pos[0].key)|
      && Along(Kids(c, pos[0].key)[pos[0].idx], pos[1..])
  }

  // An element whose value is no list of elements.
  predicate IsLeaf(e: Json) {
    e.Obj? && !HoldsElements(e, "value") && !HoldsElements(e, "submodelElements")
  }

  // $value of an element keeps what the table says and nothing else.
  predicate IsValueField(key: string) {
    || key == "modelType" || key == "value" || key == "valueType" || key == "min" || key == "max"
    || key == "contentType" || key == "first" || key == "second" || key == "entityType" || key == "globalAssetId"
    || key == "specificAssetIds" || key == "observed" || key == "direction" || key == "state"
  }

  // $metadata of an element.
  predicate IsMetadataField(key: string) {
    || key == "modelType" || key == "idShort" || key == "semanticId" || key == "supplementalSemanticIds"
    || key == "qualifiers" || key == "category" || key == "description" || key == "displayName"
    || key == "extensions" || key == "embeddedDataSpecifications"
  }

  lemma LeafValue(e: Json, key: string)
    requires IsLeaf(e)
    ensures Get(Project(ValueOf, e), key) == if IsValueField(key) then Get(e, key) else None
  {
  }

  lemma LeafMetadata(e: Json, key: string)
    requires IsLeaf(e)
    ensures Get(Project(MetadataOf, e), key) == if IsMetadataField(key) then Get(e, key) else None
    ensures Get(Project(ExtractedMetadata, e), key)
            == if IsMetadataField(key) || key == "id" || key == "administration" || key == "kind"
               then Get(e, key) else None
  {
  }

  lemma OnlyModelTypeIsBoth(key: string)
    ensures IsMetadataField(key) && IsValueField(key) <==> key == "modelType"
  {
  }

  // What one key becomes in the two projections of an element.
  predicate KeyedAs(e: Json, a: map<string, Json>, b: map<string, Json>, inA: bool, inB: bool, key: string)
    requires e.Obj?
  {
    && (key in a <==> key in e.fields && inA) && (key in b <==> key in e.fields && inB)
    && (key in a ==> a[key] == e.fields[key]) && (key in b ==> b[key] == e.fields[key])
  }

  lemma LeafKey(e: Json, key: string)
    requires IsLeaf(e)
    ensures Project(MetadataOf, e).Obj? && Project(ValueOf, e).Obj?
    ensures KeyedAs(e, Project(MetadataOf, e).fields, Project(ValueOf, e).fields,
              IsMetadataField(key), IsValueField(key), key)
  {
    LeafMetadata(e, key);
    LeafValue(e, key);
    assert key in Project(MetadataOf, e).fields <==> Get(Project(MetadataOf, e), key).Some?;
    assert key in Project(ValueOf, e).fields <==> Get(Project(ValueOf, e), key).Some?;
  }

  lemma UnionOfTwo(e: Json, a: map<string, Json>, b: map<string, Json>, inA: string -> bool, inB: string -> bool)
    requires e.Obj? && forall key :: KeyedAs(e, a, b, inA(key), inB(key), key)
    requires forall key :: key in e.fields ==> inA(key) || inB(key)
    requires forall key :: inA(key) && inB(key) <==> key == "modelType"
    ensures a + b == e.fields && a.Keys * b.Keys == e.fields.Keys * {"modelType"}
  {
    forall key ensures (key in a + b <==> key in e.fields) && (key in e.fields ==> (a + b)[key] == e.fields[key]) {
      assert KeyedAs(e, a, b, inA(key), inB(key), key);
    }
    forall key ensures key in a.Keys * b.Keys <==> key in e.fields.Keys * {"modelType"} {
      assert KeyedAs(e, a, b, inA(key), inB(key), key);
    }
  }

  // Between them $metadata and $value of an element without children have every field that
  // is one or the other, and they share the model type only.
  lemma LeafSplits(e: Json)
    requires IsLeaf(e) && forall key :: key in e.fields ==> IsMetadataField(key) || IsValueField(key)
    ensures var metadata, value := Project(MetadataOf, e), Project(ValueOf, e);
            && metadata.Obj? && value.Obj? && metadata.fields + value.fields == e.fields
            && metadata.fields.Keys * value.fields.Keys == e.fields.Keys * {"modelType"}
  {
    var metadata, value := Project(MetadataOf, e), Project(ValueOf, e);
    forall key
      ensures KeyedAs(e, metadata.fields, value.fields, IsMetadataField(key), IsValueField(key), key)
      ensures IsMetadataField(key) && IsValueField(key) <==> key == "modelType"
    {
      LeafKey(e, key);
      OnlyModelTypeIsBoth(key);
    }
    UnionOfTwo(e, metadata.fields, value.fields, IsMetadataField, IsValueField);
  }

  // ---------------------------------------------------------------- every element of the tree

  predicate KeepsLists(stage: Stage) {
    !stage.Core?
  }

  lemma DescendedKept(stage: Stage, c: Json, key: string)
    requires KeepsLists(stage) && HoldsElements(c, key)
    ensures Kids(Project(stage, c), key) == ProjectAll(stage, Kids(c, key))
  {
    ProjectShape(stage, c);
    assert Keep(stage, c, key);
  }

  // Along collections and lists every element stays where it was, projected.
  lemma {:induction false} ProjectedAt(stage: Stage, c: Json, pos: Pos)
    requires KeepsLists(stage) && Along(c, pos)
    ensures ValidPos(c, pos) && ValidPos(Project(stage, c), pos)
    ensures At(Project(stage, c), pos) == Project(stage, At(c, pos))
    decreases |pos|
  {
    if pos != [] {
      DescendedKept(stage, c, pos[0].key);
      ProjectedAt(stage, Kids(c, pos[0].key)[pos[0].idx], pos[1..]);
    }
  }

  // After $value every leaf has its value fields as they were, and no other field;
  lemma ValueKeepsValues(c: Json, pos: Pos, key: string)
    requires Along(c, pos) && ValidPos(c, pos) && IsLeaf(At(c, pos))
    ensures ValidPos(Project(ValueOf, c), pos)
    ensures Get(At(Project(ValueOf, c), pos), key) == if IsValueField(key) then Get(At(c, pos), key) else None
  {
    ProjectedAt(ValueOf, c, pos);
    LeafValue(At(c, pos), key);
  }

  // after $metadata every leaf has its metadata fields, and no value.
  lemma MetadataKeepsMetadata(c: Json, pos: Pos, key: string)
    requires Along(c, pos) && ValidPos(c, pos) && IsLeaf(At(c, pos))
    ensures ValidPos(Project(MetadataOf, c), pos)
    ensures Get(At(Project(MetadataOf, c), pos), key) == if IsMetadataField(key) then Get(At(c, pos), key) else None
  {
    ProjectedAt(MetadataOf, c, pos);
    LeafMetadata(At(c, pos), key);
  }

  // Both keep the tree: a collection or list has as many entries as before.
  lemma ListsKeepLength(stage: Stage, c: Json, pos: Pos, key: string)
    requires KeepsLists(stage) && Along(c, pos) && ValidPos(c, pos) && HoldsElements(At(c, pos), key)
    ensures ValidPos(Project(stage, c), pos)
    ensures |Kids(At(Project(stage, c), pos), key)| == |Kids(At(c, pos), key)|
  {
    ProjectedAt(stage, c, pos);
    DescendedKept(stage, At(c, pos), key);
  }

  // ---------------------------------------------------------------- blobs

  // extent=withoutBlobValue takes the value of every Blob and leaves every other field of
  // every element as it was.
  lemma OnlyBlobValuesGo(c: Json, pos: Pos, key: string)
    requires Along(c, pos) && ValidPos(c, pos) && At(c, pos).Obj?
    ensures ValidPos(Project(WithoutBlobs, c), pos)
    ensures var before, after := At(c, pos), At(Project(WithoutBlobs, c), pos);
            if key == "value" && Get(before, "modelType") == Some(Str("Blob")) then Get(after, key) == None
            else if HoldsElements(before, key) then
              |Kids(after, key)| == |Kids(before, key)| && Get(after, key) == Some(Arr(Kids(after, key)))
            else Get(after, key) == Get(before, key)
  {
    ProjectedAt(WithoutBlobs, c, pos);
    ProjectShape(WithoutBlobs, At(c, pos));
  }

  // ---------------------------------------------------------------- level=core

  // Nothing is below a core projection: readers find the element itself and nothing else,
  // and every other field is as it was.
  lemma CoreIsFlat(c: Json, parts: seq<Part>, key: string)
    requires c.Obj?
    ensures parts != [] ==> NavPos(Project(Core, c), parts) == None
    ensures Get(Project(Core, c), key)
            == if key == "submodelElements" || key == "value" || key == "statements" || key == "annotations" then None
               else Get(c, key)
  {
    var core := Project(Core, c);
    ProjectShape(Core, c);
    assert NavKids(core) == [];
  }
}

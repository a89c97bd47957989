// The serialization modifiers ($metadata, $value, level=core, extent=withoutBlobValue):
// each stage is idempotent, all stages commute, and metadata projection and blob
// stripping commute with navigation.
module Projection {
  import opened Wrappers
  import opened Documents
  import opened IdShortPath
  import opened Navigation

  const METADATA_FIELDS := {"modelType", "idShort", "semanticId", "supplementalSemanticIds", "qualifiers",
                            "category", "description", "displayName", "extensions", "embeddedDataSpecifications"}

  const VALUE_FIELDS := {"modelType", "value", "valueType", "min", "max", "contentType", "first", "second",
                         "entityType", "globalAssetId", "specificAssetIds", "observed", "direction", "state"}

  // MetadataOf is _project_metadata, ValueOf is _project_value, WithoutBlobs is
  // _strip_blob_values, ExtractedMetadata is extract_metadata, Core is _apply_core_level.
  datatype Stage = MetadataOf | ValueOf | WithoutBlobs | ExtractedMetadata | Core

  // The lists of elements that a stage maps over.
  predicate Descends(j: Json, key: string) {
    && (key == "submodelElements" || (key == "value" && IsBranch(j)))
    && Get(j, key).Some? && Get(j, key).value.Arr?
  }

  // Which fields of an object a stage keeps.
  predicate Keep(stage: Stage, j: Json, key: string) {
    match stage
    case MetadataOf => key in METADATA_FIELDS || Descends(j, key)
    case ExtractedMetadata =>
      key in METADATA_FIELDS || Descends(j, key) || key == "id" || key == "administration" || key == "kind"
    case ValueOf => Descends(j, key) || (key in VALUE_FIELDS && key != "submodelElements")
    case WithoutBlobs => !(key == "value" && HasModelType(j, BLOB))
    case Core => key != "submodelElements" && key != "value" && key != "statements" && key != "annotations"
  }

  function Project(stage: Stage, j: Json): Json
    decreases j
  {
    if !j.Obj? then j
    else
      Obj(map key | key in j.fields && Keep(stage, j, key) ::
            if Descends(j, key) then Arr(ProjectAll(stage, j.fields[key].items)) else j.fields[key])
  }

  function ProjectAll(stage: Stage, items: seq<Json>): (r: seq<Json>)
    ensures |r| == |items| && forall i :: 0 <= i < |r| ==> r[i] == Project(stage, items[i])
    decreases items
  {
    seq(|items|, i requires 0 <= i < |items| => Project(stage, items[i]))
  }

  // ---------------------------------------------------------------- two stages in a row

  // What two stages keep between them, without saying which came first.
  function Both(s: Stage, t: Stage, j: Json): Json
    decreases j
  {
    if !j.Obj? then j
    else
      Obj(map key | key in j.fields && Keep(s, j, key) && Keep(t, j, key) ::
            if Descends(j, key) then Arr(BothAll(s, t, j.fields[key].items)) else j.fields[key])
  }

  function BothAll(s: Stage, t: Stage, items: seq<Json>): (r: seq<Json>)
    ensures |r| == |items| && forall i :: 0 <= i < |r| ==> r[i] == Both(s, t, items[i])
    decreases items
  {
    seq(|items|, i requires 0 <= i < |items| => Both(s, t, items[i]))
  }

  // A stage keeps what the other stages decide by.
  lemma ProjectShape(stage: Stage, j: Json)
    requires j.Obj?
    ensures Project(stage, j).Obj? && Get(Project(stage, j), "modelType") == Get(j, "modelType")
    ensures forall key :: key in Project(stage, j).fields <==> key in j.fields && Keep(stage, j, key)
    ensures forall key :: key in Project(stage, j).fields ==>
              && Descends(Project(stage, j), key) == Descends(j, key)
              && Project(stage, j).fields[key] ==
                 (if Descends(j, key) then Arr(ProjectAll(stage, j.fields[key].items)) else j.fields[key])
  {
    assert Keep(stage, j, "modelType");
  }

  lemma KeepAfterStage(s: Stage, t: Stage, j: Json, key: string)
    requires j.Obj? && key in Project(t, j).fields
    ensures Descends(Project(t, j), key) == Descends(j, key)
    ensures Keep(s, Project(t, j), key) == Keep(s, j, key)
  {
    ProjectShape(t, j);
  }

  // What two stages make of one field.
  lemma TwoStageField(s: Stage, t: Stage, j: Json, key: string)
    requires j.Obj?
    ensures Get(Project(s, Project(t, j)), key) ==
            if key !in j.fields || !Keep(s, j, key) || !Keep(t, j, key) then None
            else if Descends(j, key) then Some(Arr(ProjectAll(s, ProjectAll(t, j.fields[key].items))))
            else Some(j.fields[key])
  {
    ProjectShape(t, j);
    ProjectShape(s, Project(t, j));
    if key in Project(t, j).fields {
      KeepAfterStage(s, t, j, key);
    }
  }

  lemma BothField(s: Stage, t: Stage, j: Json, key: string)
    requires j.Obj?
    ensures Get(Both(s, t, j), key) ==
            if key !in j.fields || !Keep(s, j, key) || !Keep(t, j, key) then None
            else if Descends(j, key) then Some(Arr(BothAll(s, t, j.fields[key].items)))
            else Some(j.fields[key])
  {
  }

  lemma SameFields(a: Json, b: Json)
    requires a.Obj? && b.Obj? && forall key :: Get(a, key) == Get(b, key)
    ensures a == b
  {
    assert forall key :: key in a.fields <==> Get(a, key).Some?;
    assert forall key :: key in b.fields <==> Get(b, key).Some?;
    assert a.fields == b.fields;
  }

  lemma {:induction false} TwoStages(s: Stage, t: Stage, j: Json)
    ensures Project(s, Project(t, j)) == Both(s, t, j)
    decreases j
  {
    if j.Obj? {
      forall key ensures Get(Project(s, Project(t, j)), key) == Get(Both(s, t, j), key) {
        TwoStageField(s, t, j, key);
        BothField(s, t, j, key);
        if key in j.fields && Descends(j, key) {
          TwoStagesAll(s, t, j.fields[key].items);
        }
      }
      SameFields(Project(s, Project(t, j)), Both(s, t, j));
    }
  }

  lemma {:induction false} TwoStagesAll(s: Stage, t: Stage, items: seq<Json>)
    ensures ProjectAll(s, ProjectAll(t, items)) == BothAll(s, t, items)
    decreases items
  {
    forall i | 0 <= i < |items| ensures Project(s, Project(t, items[i])) == Both(s, t, items[i]) {
      TwoStages(s, t, items[i]);
    }
  }

  lemma {:induction false} BothSymmetric(s: Stage, t: Stage, j: Json)
    ensures Both(s, t, j) == Both(t, s, j)
    decreases j
  {
    if j.Obj? {
      var a, b := Both(s, t, j), Both(t, s, j);
      forall key | key in a.fields ensures a.fields[key] == b.fields[key] {
        if Descends(j, key) {
          BothAllSymmetric(s, t, j.fields[key].items);
        }
      }
      assert a.fields == b.fields;
    }
  }

  lemma {:induction false} BothAllSymmetric(s: Stage, t: Stage, items: seq<Json>)
    ensures BothAll(s, t, items) == BothAll(t, s, items)
    decreases items
  {
    forall i | 0 <= i < |items| ensures Both(s, t, items[i]) == Both(t, s, items[i]) {
      BothSymmetric(s, t, items[i]);
    }
  }

  lemma {:induction false} BothOfOne(s: Stage, j: Json)
    ensures Both(s, s, j) == Project(s, j)
    decreases j
  {
    if j.Obj? {
      var a, b := Both(s, s, j), Project(s, j);
      forall key | key in a.fields ensures a.fields[key] == b.fields[key] {
        if Descends(j, key) {
          var items := j.fields[key].items;
          forall i | 0 <= i < |items| ensures Both(s, s, items[i]) == Project(s, items[i]) {
            BothOfOne(s, items[i]);
          }
          assert BothAll(s, s, items) == ProjectAll(s, items);
        }
      }
      assert a.fields == b.fields;
    }
  }

  lemma StageIdempotent(s: Stage, j: Json)
    ensures Project(s, Project(s, j)) == Project(s, j)
  {
    TwoStages(s, s, j);
    BothOfOne(s, j);
  }

  lemma StagesCommute(s: Stage, t: Stage, j: Json)
    ensures Project(s, Project(t, j)) == Project(t, Project(s, j))
  {
    TwoStages(s, t, j);
    TwoStages(t, s, j);
    BothSymmetric(s, t, j);
  }

  // ---------------------------------------------------------------- whole pipelines

  function Pipeline(stages: seq<Stage>, j: Json): Json {
    if stages == [] then j else Pipeline(stages[1..], Project(stages[0], j))
  }

  lemma {:induction false} PipelineAppend(a: seq<Stage>, b: seq<Stage>, j: Json)
    ensures Pipeline(a + b, j) == Pipeline(b, Pipeline(a, j))
  {
    if a == [] {
      assert a + b == b;
    } else {
      assert (a + b)[1..] == a[1..] + b;
      PipelineAppend(a[1..], b, Project(a[0], j));
    }
  }

  // A stage may run first or last.
  lemma {:induction false} StageMoves(stages: seq<Stage>, s: Stage, j: Json)
    ensures Pipeline(stages, Project(s, j)) == Project(s, Pipeline(stages, j))
  {
    if stages != [] {
      StagesCommute(stages[0], s, j);
      StageMoves(stages[1..], s, Project(stages[0], j));
    }
  }

  lemma StageToFront(stages: seq<Stage>, k: nat, j: Json)
    requires k < |stages|
    ensures Pipeline(stages, j) == Pipeline(stages[..k] + stages[k + 1..], Project(stages[k], j))
  {
    var front, back := stages[..k], stages[k + 1..];
    assert stages == front + ([stages[k]] + back);
    PipelineAppend(front, [stages[k]] + back, j);
    assert ([stages[k]] + back)[1..] == back;
    StageMoves(front, stages[k], j);
    PipelineAppend(front, back, Project(stages[k], j));
  }

  lemma RemoveFromMultiset(stages: seq<Stage>, k: nat)
    requires k < |stages|
    ensures multiset(stages[..k] + stages[k + 1..]) == multiset(stages) - multiset{stages[k]}
  {
    assert stages == stages[..k] + ([stages[k]] + stages[k + 1..]);
  }

  lemma Occurrence(a: seq<Stage>, b: seq<Stage>) returns (k: nat)
    requires a != [] && multiset(a) == multiset(b)
    ensures k < |b| && b[k] == a[0]
  {
    assert a[0] in multiset(b);
    k :| 0 <= k < |b| && b[k] == a[0];
  }

  lemma SameRest(a: seq<Stage>, b: seq<Stage>, k: nat)
    requires a != [] && multiset(a) == multiset(b) && k < |b| && b[k] == a[0]
    ensures multiset(a[1..]) == multiset(b[..k] + b[k + 1..])
  {
    RemoveFromMultiset(a, 0);
    RemoveFromMultiset(b, k);
    assert a[..0] + a[1..] == a[1..];
  }

  // The result depends only on which stages run, not on their order.
  lemma {:induction false} PipelineOrderFree(a: seq<Stage>, b: seq<Stage>, j: Json)
    requires multiset(a) == multiset(b)
    ensures Pipeline(a, j) == Pipeline(b, j)
  {
    if a == [] {
      assert |multiset(b)| == 0;
    } else {
      var k := Occurrence(a, b);
      StageToFront(b, k, j);
      SameRest(a, b, k);
      PipelineOrderFree(a[1..], b[..k] + b[k + 1..], Project(a[0], j));
    }
  }

  // Running a pipeline twice is running it once.
  lemma {:induction false} PipelineIdempotent(stages: seq<Stage>, j: Json)
    ensures Pipeline(stages, Pipeline(stages, j)) == Pipeline(stages, j)
  {
    if stages != [] {
      var s, rest := stages[0], stages[1..];
      StageMoves(rest, s, j);
      StageIdempotent(s, Pipeline(rest, j));
      PipelineIdempotent(rest, j);
      StageMoves(rest, s, Pipeline(rest, j));
    }
  }

  datatype Content = NormalContent | MetadataContent | ValueContent

  datatype Modifiers = Modifiers(content: Content, core: bool, blobValues: bool)

  function StagesOf(m: Modifiers): seq<Stage> {
    (match m.content case NormalContent => [] case MetadataContent => [MetadataOf] case ValueContent => [ValueOf]) +
    (if m.core then [Core] else []) +
    (if m.blobValues then [] else [WithoutBlobs])
  }

  // The slow path of the source: content first, then level, then extent.
  method ApplyProjection(payload: Json, modifiers: Option<Modifiers>) returns (result: Json)
    ensures modifiers.None? ==> result == payload
    ensures modifiers.Some? ==> forall order :: multiset(order) == multiset(StagesOf(modifiers.value)) ==>
                                  result == Pipeline(order, payload)
    ensures modifiers.Some? ==> Pipeline(StagesOf(modifiers.value), result) == result
  {
    if modifiers.None? {
      return payload;
    }
    var m := modifiers.value;
    result := payload;
    match m.content {
      case MetadataContent => result := Project(MetadataOf, result);
      case ValueContent => result := Project(ValueOf, result);
      case NormalContent =>
    }
    if m.core {
      result := Project(Core, result);
    }
    if !m.blobValues {
      result := Project(WithoutBlobs, result);
    }
    PipelineOf(m, payload);
    assert result == Pipeline(StagesOf(m), payload);
    forall order | multiset(order) == multiset(StagesOf(m)) ensures result == Pipeline(order, payload) {
      PipelineOrderFree(order, StagesOf(m), payload);
    }
    PipelineIdempotent(StagesOf(m), payload);
  }

  // The pipeline of the modifiers, stage by stage.
  lemma PipelineOf(m: Modifiers, j: Json)
    ensures var a := match m.content
                     case NormalContent => j
                     case MetadataContent => Project(MetadataOf, j)
                     case ValueContent => Project(ValueOf, j);
            var b := if m.core then Project(Core, a) else a;
            Pipeline(StagesOf(m), j) == if m.blobValues then b else Project(WithoutBlobs, b)
  {
    var content := match m.content case NormalContent => [] case MetadataContent => [MetadataOf] case ValueContent => [ValueOf];
    var level := if m.core then [Core] else [];
    var extent := if m.blobValues then [] else [WithoutBlobs];
    PipelineAppend(content + level, extent, j);
    PipelineAppend(content, level, j);
  }

  // ---------------------------------------------------------------- projections and navigation

  // Every step of the position goes through a list that the stages map over.
  predicate SpineDescends(c: Json, pos: Pos)
    decreases |pos|
  {
    pos != [] ==>
      && Descends(c, pos[0].key) && pos[0].idx < |Kids(c, pos[0].key)|
      && SpineDescends(Kids(c, pos[0].key)[pos[0].idx], pos[1..])
  }

  predicate KeepsNames(stage: Stage) {
    stage.MetadataOf? || stage.WithoutBlobs? || stage.ExtractedMetadata?
  }

  lemma ProjectedChild(stage: Stage, elem: Json, i: nat, part: Part)
    requires KeepsNames(stage)
    ensures Matches(Project(stage, elem), i, part) == Matches(elem, i, part)
  {
    if elem.Obj? {
      ProjectShape(stage, elem);
      assert Keep(stage, elem, "idShort") && !Descends(elem, "idShort");
    }
  }

  lemma ProjectedContainer(stage: Stage, c: Json)
    requires KeepsNames(stage) && Descends(c, NavKey(c)) && Kids(c, NavKey(c)) != []
    ensures NavKey(Project(stage, c)) == NavKey(c)
    ensures NavKids(Project(stage, c)) == ProjectAll(stage, NavKids(c))
  {
    ProjectShape(stage, c);
    var key := NavKey(c);
    assert Keep(stage, c, key);
    var p := Project(stage, c);
    assert p.fields[key] == Arr(ProjectAll(stage, Kids(c, key)));
    if key == "value" {
      assert !Truthy(Get(c, "submodelElements"));
      if "submodelElements" in p.fields && Descends(c, "submodelElements") {
        assert p.fields["submodelElements"] == Arr(ProjectAll(stage, []));
      }
    }
  }

  // Projecting the submodel and then navigating along collections and lists reads the
  // projection of what navigation alone reads.
  lemma {:induction false} ProjectThenNavigate(stage: Stage, c: Json, parts: seq<Part>, pos: Pos)
    requires KeepsNames(stage) && NavPos(c, parts) == Some(pos) && SpineDescends(c, pos)
    ensures NavPos(Project(stage, c), parts) == Some(pos)
    ensures At(Project(stage, c), pos) == Project(stage, At(c, pos))
    decreases |parts|
  {
    if parts != [] {
      var i := pos[0].idx;
      assert pos[0].key == NavKey(c) && pos == [pos[0]] + pos[1..];
      ProjectedContainer(stage, c);
      var kids := NavKids(c);
      forall k | 0 <= k < |kids|
        ensures Matches(ProjectAll(stage, kids)[k], k, parts[0]) == Matches(kids[k], k, parts[0])
      {
        ProjectedChild(stage, kids[k], k, parts[0]);
      }
      FindFromSame(ProjectAll(stage, kids), kids, parts[0], 0);
      assert NavPos(kids[i], parts[1..]) == Some(pos[1..]);
      ProjectThenNavigate(stage, kids[i], parts[1..], pos[1..]);
    }
  }
}

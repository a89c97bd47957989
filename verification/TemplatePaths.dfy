// The template setter and the reader on arbitrary path texts and documents: when the element
// that the setter changes is the one the reader finds under the same text.
module TemplatePaths {
  import opened Wrappers
  import opened Sequences
  import opened Documents
  import opened IdShortPath
  import opened Navigation
  import opened LensLaws
  import opened Templates

  // ---------------------------------------------------------------- on one document

  // What the template parser takes a path text for.
  function Reading(path: string): seq<Part> {
    Unpair(TemplateParse(path))
  }

  function IndexPart(index: Option<int>): seq<Part> {
    match index case None => [] case Some(k) => [Index(k)]
  }

  // No element strictly inside the position carries submodelElements of its own.
  predicate Clear(c: Json, p: Pos)
    requires ValidPos(c, p)
    decreases |p|
  {
    |p| > 1 ==>
      var child := Kids(c, p[0].key)[p[0].idx];
      !Truthy(Get(child, "submodelElements")) && Clear(child, p[1..])
  }

  lemma ValueRead(c: Json)
    requires Kids(c, "value") != []
    ensures NavKey(c) == "value" <==> !Truthy(Get(c, "submodelElements"))
  {
  }

  lemma UnpairCons(pairs: seq<Pair>)
    requires pairs != []
    ensures Unpair(pairs) != [] && Unpair(pairs)[0] == Name(pairs[0].name)
    ensures Unpair(pairs)[1..] == IndexPart(pairs[0].index) + Unpair(pairs[1..])
  {
    Associative([Name(pairs[0].name)], IndexPart(pairs[0].index), Unpair(pairs[1..]));
  }

  lemma {:induction false} AlongPairs(c: Json, key: string, pairs: seq<Pair>, p: Pos)
    requires TemplatePos(c, key, pairs) == Some(p)
    ensures NavPos(c, Unpair(pairs)) == Some(p) <==> NavKey(c) == key && Clear(c, p)
    decreases |pairs|, 1
  {
    var i := Find(Kids(c, key), Name(pairs[0].name)).value;
    UnpairCons(pairs);
    assert p[0] == Step(key, i) && p[1..] == TemplateFrom(Kids(c, key)[i], pairs[0].index, pairs[1..]).value;
    AlongIndex(Kids(c, key)[i], pairs[0].index, pairs[1..], p[1..]);
    NavSteps(c, Unpair(pairs), p);
  }

  lemma {:induction false} AlongIndex(found: Json, index: Option<int>, rest: seq<Pair>, below: Pos)
    requires found.Obj? && TemplateFrom(found, index, rest) == Some(below)
    ensures NavPos(found, IndexPart(index) + Unpair(rest)) == Some(below) <==>
              (below != [] ==> !Truthy(Get(found, "submodelElements")) && Clear(found, below))
    decreases |rest|, 3
  {
    match index
    case None =>
      AppendNothing(Unpair(rest));
      if rest != [] {
        AlongPairs(found, "value", rest, below);
        ValueRead(found);
      }
    case Some(k) =>
      AlongItem(found, k, rest, below);
  }

  lemma {:induction false} AlongItem(found: Json, k: int, rest: seq<Pair>, below: Pos)
    requires found.Obj? && TemplateFrom(found, Some(k), rest) == Some(below)
    ensures NavPos(found, [Index(k)] + Unpair(rest)) == Some(below) <==>
              !Truthy(Get(found, "submodelElements")) && Clear(found, below)
    decreases |rest|, 2
  {
    var items := Kids(found, "value");
    ValueRead(found);
    FindIs(items, Index(k), k);
    TailOfAppend([Index(k)], Unpair(rest));
    AppendNothing(Unpair(rest));
    NavSteps(found, [Index(k)] + Unpair(rest), below);
    assert [Index(k)][1..] == [] && below[0] == Step("value", k);
    if rest == [] {
      assert below[1..] == [] && NavPos(items[k], []) == Some([]);
    } else {
      assert below[1..] == TemplatePos(items[k], "value", rest).value;
      AlongPairs(items[k], "value", rest, below[1..]);
      ValueRead(items[k]);
    }
  }

  // For every path text and document, where the setter finds an element the reader finds the
  // same one under the setter's reading of the path, if and only if no element on the way
  // has submodelElements of its own.
  lemma SetterFindsWhatReaderFinds(doc: Json, path: string, p: Pos)
    requires TemplatePos(doc, "submodelElements", TemplateParse(path)) == Some(p)
    ensures NavPos(doc, Reading(path)) == Some(p) <==> Clear(doc, p)
  {
    AlongPairs(doc, "submodelElements", TemplateParse(path), p);
  }

  // ---------------------------------------------------------------- on every document

  // Where the setter finds an element, and nothing on the way hides it from readers, the
  // reader finds it under the same text.
  predicate Follows(doc: Json, path: string) {
    var found := TemplatePos(doc, "submodelElements", TemplateParse(path));
    found.Some? && Clear(doc, found.value) ==> Parse(path).Some? && NavPos(doc, Parse(path).value) == found
  }

  // Pairs that lead to an element of some document: negative indexes never do.
  predicate Addressable(pairs: seq<Pair>) {
    pairs != [] && forall i :: 0 <= i < |pairs| && pairs[i].index.Some? ==> pairs[i].index.value >= 0
  }

  lemma {:induction false} FoundIsAddressable(c: Json, key: string, pairs: seq<Pair>)
    requires TemplatePos(c, key, pairs).Some?
    ensures Addressable(pairs)
    decreases |pairs|
  {
    var found, rest := Kids(c, key)[Find(Kids(c, key), Name(pairs[0].name)).value], pairs[1..];
    if rest != [] {
      var inner := if pairs[0].index.Some? then Kids(found, "value")[pairs[0].index.value] else found;
      FoundIsAddressable(inner, "value", rest);
      forall i | 0 <= i < |pairs| && pairs[i].index.Some? ensures pairs[i].index.value >= 0 {
        assert i > 0 ==> rest[i - 1] == pairs[i];
      }
    }
  }

  // A document made for the pairs: behind n empty entries of each level stands the element
  // that the next pair names.
  function Fillers(n: nat): (r: seq<Json>)
    ensures |r| == n && forall i :: 0 <= i < n ==> r[i] == Obj(map[])
  {
    seq(n, i => Obj(map[]))
  }

  function Row(pairs: seq<Pair>, n: nat): (r: seq<Json>)
    requires Addressable(pairs)
    ensures |r| == n + 1 && forall i :: 0 <= i < n ==> r[i] == Obj(map[])
    decreases |pairs|, 1
  {
    Fillers(n) + [Made(pairs, n)]
  }

  function Made(pairs: seq<Pair>, n: nat): Json
    requires Addressable(pairs)
    decreases |pairs|, 0
  {
    var name, rest := Str(pairs[0].name), pairs[1..];
    match pairs[0].index
    case Some(k) => Obj(map["idShort" := name, "modelType" := LIST, "value" := Arr(Fillers(k) + [MadeItem(rest, n)])])
    case None =>
      if rest == [] then Obj(map["idShort" := name])
      else Obj(map["idShort" := name, "modelType" := COLLECTION, "value" := Arr(Row(rest, n))])
  }

  function MadeItem(rest: seq<Pair>, n: nat): (r: Json)
    requires rest == [] || Addressable(rest)
    ensures r.Obj? && Get(r, "idShort") == None && Get(r, "submodelElements") == None
    ensures rest != [] ==> Kids(r, "value") == Row(rest, n)
    decreases |rest|, 2
  {
    if rest == [] then Obj(map[]) else Obj(map["value" := Arr(Row(rest, n))])
  }

  function MadeFor(pairs: seq<Pair>, n: nat): Json
    requires Addressable(pairs)
  {
    Obj(map["submodelElements" := Arr(Row(pairs, n))])
  }

  lemma RestAddressable(pairs: seq<Pair>)
    requires Addressable(pairs)
    ensures pairs[1..] == [] || Addressable(pairs[1..])
  {
  }

  lemma MadeIs(pairs: seq<Pair>, n: nat)
    requires Addressable(pairs)
    ensures var made := Made(pairs, n);
            && made.Obj? && Get(made, "idShort") == Some(Str(pairs[0].name)) && Get(made, "submodelElements") == None
            && (pairs[0].index.Some? ==>
                  && HasModelType(made, LIST) && |Kids(made, "value")| == pairs[0].index.value + 1
                  && Kids(made, "value")[pairs[0].index.value] == MadeItem(pairs[1..], n)
                  && forall i :: 0 <= i < pairs[0].index.value ==> Kids(made, "value")[i] == Obj(map[]))
            && (pairs[0].index.None? && pairs[1..] != [] ==>
                  IsBranch(made) && Kids(made, "value") == Row(pairs[1..], n))
  {
  }

  // The setter finds its element there, and nothing hides it.
  lemma {:induction false} MadeFound(c: Json, key: string, pairs: seq<Pair>, n: nat)
    requires Addressable(pairs) && Kids(c, key) == Row(pairs, n)
    ensures TemplatePos(c, key, pairs).Some? && Clear(c, TemplatePos(c, key, pairs).value)
    ensures TemplatePos(c, key, pairs).value[0] == Step(key, n)
    decreases |pairs|
  {
    var made, rest := Made(pairs, n), pairs[1..];
    MadeIs(pairs, n);
    FindIs(Row(pairs, n), Name(pairs[0].name), n);
    RestAddressable(pairs);
    if rest != [] {
      MadeFound(if pairs[0].index.Some? then MadeItem(rest, n) else made, "value", rest, n);
    }
    assert TemplateFrom(made, pairs[0].index, rest).Some?;
    var below := TemplateFrom(made, pairs[0].index, rest).value;
    assert TemplatePos(c, key, pairs) == Some([Step(key, n)] + below);
    assert ([Step(key, n)] + below)[1..] == below;
    BelowClear(made, pairs, n, below);
  }

  lemma BelowClear(made: Json, pairs: seq<Pair>, n: nat, below: Pos)
    requires Addressable(pairs) && made == Made(pairs, n)
    requires TemplateFrom(made, pairs[0].index, pairs[1..]) == Some(below)
    requires pairs[1..] != [] ==> Addressable(pairs[1..])
    requires pairs[1..] != [] ==>
               var inner := if pairs[0].index.Some? then MadeItem(pairs[1..], n) else made;
               && TemplatePos(inner, "value", pairs[1..]).Some?
               && Clear(inner, TemplatePos(inner, "value", pairs[1..]).value)
    ensures Clear(made, below)
  {
    MadeIs(pairs, n);
    if pairs[0].index.Some? && pairs[1..] != [] {
      var deeper := TemplatePos(MadeItem(pairs[1..], n), "value", pairs[1..]).value;
      TailOfAppend([Step("value", pairs[0].index.value)], deeper);
      AppendNothing(deeper);
      assert below[1..] == deeper;
    }
  }

  // The parts count below n.
  predicate Small(parts: seq<Part>, n: nat) {
    forall i :: 0 <= i < |parts| && parts[i].Index? ==> parts[i].index < n
  }

  function Above(parts: seq<Part>): (n: nat)
    ensures Small(parts, n)
  {
    if parts == [] then 0
    else
      var rest := Above(parts[1..]);
      if parts[0].Index? && parts[0].index >= rest then parts[0].index + 1 else rest
  }

  // A reader gets to that element only by the parts that the pairs stand for: the empty
  // entries keep small indexes away from it, and items of lists have no name.
  lemma {:induction false} MadeRead(c: Json, key: string, pairs: seq<Pair>, n: nat, parts: seq<Part>)
    requires Addressable(pairs) && Kids(c, key) == Row(pairs, n) && Small(parts, n)
    requires TemplatePos(c, key, pairs).Some? && NavPos(c, parts) == TemplatePos(c, key, pairs)
    ensures parts == Unpair(pairs)
    decreases |pairs|, 2
  {
    var made, p := Made(pairs, n), TemplatePos(c, key, pairs).value;
    MadeIs(pairs, n);
    FindIs(Row(pairs, n), Name(pairs[0].name), n);
    NavSteps(c, parts, p);
    assert p[0] == Step(key, n) && p[1..] == TemplateFrom(made, pairs[0].index, pairs[1..]).value;
    assert Matches(made, n, parts[0]);
    assert Small(parts[1..], n);
    BelowRead(made, pairs, n, parts[1..]);
    UnpairCons(pairs);
    HeadAndTail(parts);
    HeadAndTail(Unpair(pairs));
  }

  lemma {:induction false} BelowRead(made: Json, pairs: seq<Pair>, n: nat, parts: seq<Part>)
    requires Addressable(pairs) && made == Made(pairs, n) && made.Obj? && Small(parts, n)
    requires TemplateFrom(made, pairs[0].index, pairs[1..]).Some?
    requires NavPos(made, parts) == TemplateFrom(made, pairs[0].index, pairs[1..])
    ensures parts == IndexPart(pairs[0].index) + Unpair(pairs[1..])
    decreases |pairs|, 1
  {
    var rest := pairs[1..];
    MadeIs(pairs, n);
    RestAddressable(pairs);
    AppendNothing(Unpair(rest));
    if pairs[0].index.None? {
      if rest != [] {
        MadeRead(made, "value", rest, n, parts);
      }
    } else {
      ItemRead(made, pairs, n, parts);
    }
  }

  lemma {:induction false} ItemRead(made: Json, pairs: seq<Pair>, n: nat, parts: seq<Part>)
    requires Addressable(pairs) && made == Made(pairs, n) && made.Obj? && Small(parts, n) && pairs[0].index.Some?
    requires TemplateFrom(made, pairs[0].index, pairs[1..]).Some?
    requires NavPos(made, parts) == TemplateFrom(made, pairs[0].index, pairs[1..])
    ensures parts == [Index(pairs[0].index.value)] + Unpair(pairs[1..])
    decreases |pairs|, 0
  {
    var k, rest := pairs[0].index.value, pairs[1..];
    var below := TemplateFrom(made, pairs[0].index, rest).value;
    MadeIs(pairs, n);
    RestAddressable(pairs);
    assert below[0] == Step("value", k);
    NavSteps(made, parts, below);
    assert Matches(MadeItem(rest, n), k, parts[0]);
    HeadAndTail(parts);
    assert Small(parts[1..], n);
    if rest == [] {
      assert below[1..] == [];
    } else {
      assert below[1..] == TemplatePos(MadeItem(rest, n), "value", rest).value;
      MadeRead(MadeItem(rest, n), "value", rest, n, parts[1..]);
    }
  }

  lemma {:induction false} MisreadSomewhere(path: string) returns (doc: Json)
    requires Addressable(TemplateParse(path)) && Parse(path) != Some(Reading(path))
    ensures !Follows(doc, path)
  {
    var pairs := TemplateParse(path);
    var n := if Parse(path).Some? then Above(Parse(path).value) else 0;
    doc := MadeFor(pairs, n);
    MadeFound(doc, "submodelElements", pairs, n);
    if Parse(path).Some? && Follows(doc, path) {
      MadeRead(doc, "submodelElements", pairs, n, Parse(path).value);
    }
  }

  // A path text is safe on every document, that is, the setter changes nothing that readers
  // would not find under it, if and only if both parsers read it alike or the template
  // parser reads nothing addressable.
  lemma SameReadingExactly(path: string)
    ensures (forall doc :: Follows(doc, path)) <==>
              Parse(path) == Some(Reading(path)) || !Addressable(TemplateParse(path))
  {
    if Parse(path) == Some(Reading(path)) || !Addressable(TemplateParse(path)) {
      forall doc ensures Follows(doc, path) {
        var found := TemplatePos(doc, "submodelElements", TemplateParse(path));
        if found.Some? {
          FoundIsAddressable(doc, "submodelElements", TemplateParse(path));
          SetterFindsWhatReaderFinds(doc, path, found.value);
        }
      }
    } else {
      var doc := MisreadSomewhere(path);
    }
  }
}

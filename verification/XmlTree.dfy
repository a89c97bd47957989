// The XML form of documents as element trees: the printer, the parser, and exactly which
// values come back as they were.
module XmlTree {
  import opened Wrappers
  import opened Sequences
  import opened Text

  // Documents with the order of their keys, which the printer keeps.
  datatype Json = Null | Bool(b: bool) | Num(digits: string) | Str(s: string) | List(items: seq<Json>) | Obj(fields: seq<Field>)

  datatype Field = Field(key: string, value: Json)

  // Tags are without the namespace, which every element carries and the parser strips.
  datatype Xml = Elem(tag: string, text: Option<string>, children: seq<Xml>)

  // ---------------------------------------------------------------- constants

  const LIST_CONTAINER_TAGS := {
    "assetAdministrationShells", "submodels", "conceptDescriptions", "submodelElements", "value", "keys",
    "description", "displayName", "extensions", "qualifiers", "embeddedDataSpecifications", "specificAssetIds",
    "isCaseOf", "supplementalSemanticIds", "statements", "annotations", "inputVariables", "outputVariables",
    "inoutputVariables", "valueList", "preferredName", "shortName", "definition" }

  const BOOLEAN_TAGS := { "min", "max", "nom", "typ", "allowDuplicates" }

  const SUBMODEL_ELEMENT_TAGS := {
    "annotatedRelationshipElement", "basicEventElement", "blob", "capability", "entity", "file",
    "multiLanguageProperty", "operation", "property", "range", "referenceElement", "relationshipElement",
    "submodelElementCollection", "submodelElementList", "dataElement", "eventElement", "submodelElement" }

  // ---------------------------------------------------------------- text

  // Letter case outside ASCII is left alone.
  function LowerChar(c: char): char {
    if 'A' <= c <= 'Z' then c + 32 as char else c
  }

  function UpperChar(c: char): char {
    if 'a' <= c <= 'z' then c - 32 as char else c
  }

  function Lower(s: string): (r: string)
    ensures |r| == |s|
  {
    if s == "" then "" else [LowerChar(s[0])] + Lower(s[1..])
  }

  function LowerFirst(s: string): string
    requires s != ""
  {
    [LowerChar(s[0])] + s[1..]
  }

  function UpperFirst(s: string): string {
    if s == "" then "" else [UpperChar(s[0])] + s[1..]
  }

  function Trim(s: string): string {
    StripRight(StripLeft(s))
  }

  predicate EndsWith(s: string, suffix: string) {
    |suffix| <= |s| && s[|s| - |suffix|..] == suffix
  }

  function Singularize(tag: string): string {
    if EndsWith(tag, "ies") then tag[..|tag| - 3] + "y"
    else if EndsWith(tag, "ses") then tag[..|tag| - 2]
    else if EndsWith(tag, "s") && !EndsWith(tag, "ss") then tag[..|tag| - 1]
    else tag
  }

  // ---------------------------------------------------------------- documents

  function Get(fields: seq<Field>, key: string): Option<Json> {
    if fields == [] then None else if fields[0].key == key then Some(fields[0].value) else Get(fields[1..], key)
  }

  predicate Has(fields: seq<Field>, key: string) {
    Get(fields, key).Some?
  }

  predicate DistinctKeys(fields: seq<Field>) {
    forall i, j :: 0 <= i < j < |fields| ==> fields[i].key != fields[j].key
  }

  // Element lists take their tags from modelType.
  predicate ByModelType(tag: string, first: seq<Field>) {
    tag in {"submodelElements", "value"} && Has(first, "modelType")
  }

  // What the printer accepts without raising: dictionaries, and objects with a non-empty
  // text wherever it reads a model type.
  predicate Printable(v: Json, tag: string)
    decreases v
  {
    match v
    case Obj(fields) => DistinctKeys(fields) && PrintableFields(fields)
    case List(items) => items != [] && items[0].Obj? ==> PrintableItems(items, tag, items[0].fields)
    case _ => true
  }

  predicate PrintableFields(fields: seq<Field>)
    decreases fields
  {
    fields == [] || (Printable(fields[0].value, fields[0].key) && PrintableFields(fields[1..]))
  }

  predicate PrintableItems(items: seq<Json>, tag: string, first: seq<Field>)
    decreases items
  {
    items == [] ||
      (&& (ByModelType(tag, first) ==> items[0].Obj? && HasModelName(items[0].fields))
       && Printable(items[0], ItemTag(tag, first, FieldsOf(items[0])))
       && PrintableItems(items[1..], tag, first))
  }

  predicate HasModelName(fields: seq<Field>) {
    match Get(fields, "modelType")
    case None => true
    case Some(Str(name)) => name != ""
    case _ => false
  }

  // ---------------------------------------------------------------- printer

  // An empty text is written as an empty element, which has no text when read back.
  function Leaf(tag: string, text: string): Xml {
    Elem(tag, if text == "" then None else Some(text), [])
  }

  function ToText(v: Json): string {
    match v
    case Bool(b) => if b then "true" else "false"
    case Str(s) => s
    case _ => Repr(v)
  }

  // How Python writes a value that is inside another one.
  function Repr(v: Json): string
    decreases v
  {
    match v
    case Null => "None"
    case Bool(b) => if b then "True" else "False"
    case Num(digits) => digits
    case Str(s) => Quoted(s)
    case List(items) => "[" + ReprItems(items) + "]"
    case Obj(fields) => "{" + ReprFields(fields) + "}"
  }

  function ReprItems(items: seq<Json>): string
    decreases items
  {
    if items == [] then "" else Repr(items[0]) + (if |items| > 1 then ", " else "") + ReprItems(items[1..])
  }

  function ReprFields(fields: seq<Field>): string
    decreases fields
  {
    if fields == [] then ""
    else
      Quoted(fields[0].key) + ": " + Repr(fields[0].value) + (if |fields| > 1 then ", " else "") + ReprFields(fields[1..])
  }

  // Control characters other than these three are written as they are.
  function Quoted(s: string): string {
    var quote := if '\'' in s && '\"' !in s then '\"' else '\'';
    [quote] + Escaped(s, quote) + [quote]
  }

  function Escaped(s: string, quote: char): string {
    if s == "" then ""
    else
      (match s[0]
       case '\n' => "\\n"
       case '\r' => "\\r"
       case '\t' => "\\t"
       case c => if c == quote || c == '\\' then ['\\', c] else [c])
      + Escaped(s[1..], quote)
  }

  function ModelName(item: seq<Field>): (name: string)
    ensures name != ""
  {
    match Get(item, "modelType")
    case Some(Str(name)) => if name == "" then "submodelElement" else name
    case _ => "submodelElement"
  }

  function ItemTag(tag: string, first: seq<Field>, item: seq<Field>): string {
    if ByModelType(tag, first) then LowerFirst(ModelName(item))
    else if tag == "value" && Has(first, "language") && Has(first, "text") then "langStringTextType"
    else if Has(first, "type") && Has(first, "keys") then "reference"
    else Singularize(tag)
  }

  function FieldsOf(v: Json): seq<Field> {
    if v.Obj? then v.fields else []
  }

  // The elements that a value adds to its parent.
  function Print(v: Json, tag: string): seq<Xml> {
    match v
    case Null => []
    case Obj(fields) => [Elem(tag, None, PrintFields(fields))]
    case List(items) =>
      if items == [] then []
      else if items[0].Obj? then [Elem(tag, None, PrintItems(items, tag, items[0].fields))]
      else PrintScalars(items, tag)
    case _ => [Leaf(tag, ToText(v))]
  }

  function PrintFields(fields: seq<Field>): seq<Xml> {
    if fields == [] then [] else Print(fields[0].value, fields[0].key) + PrintFields(fields[1..])
  }

  function PrintItems(items: seq<Json>, tag: string, first: seq<Field>): seq<Xml> {
    if items == [] then []
    else Print(items[0], ItemTag(tag, first, FieldsOf(items[0]))) + PrintItems(items[1..], tag, first)
  }

  function PrintScalars(items: seq<Json>, tag: string): seq<Xml> {
    if items == [] then [] else [Leaf(tag, ToText(items[0]))] + PrintScalars(items[1..], tag)
  }

  // ---------------------------------------------------------------- parser

  // result[key] = value
  function Assign(d: seq<Field>, key: string, value: Json): seq<Field> {
    if d == [] then [Field(key, value)]
    else if d[0].key == key then [Field(key, value)] + d[1..]
    else [d[0]] + Assign(d[1..], key, value)
  }

  predicate SameTags(children: seq<Xml>) {
    |children| > 1 && forall i :: 0 <= i < |children| ==> children[i].tag == children[0].tag
  }

  predicate IsListContainer(x: Xml) {
    if x.tag in LIST_CONTAINER_TAGS then x.children != [] else SameTags(x.children)
  }

  function AddModelType(tag: string, d: seq<Field>): seq<Field> {
    if tag in SUBMODEL_ELEMENT_TAGS && !Has(d, "modelType") && !Has(d, "model_type")
    then d + [Field("modelType", Str(UpperFirst(tag)))]
    else d
  }

  function LeafValue(tag: string, text: Option<string>): Json {
    match text
    case None => Null
    case Some(raw) =>
      var s := Trim(raw);
      if tag in BOOLEAN_TAGS && Lower(s) == "true" then Bool(true)
      else if tag in BOOLEAN_TAGS && Lower(s) == "false" then Bool(false)
      else Str(s)
  }

  // _parse_element_value
  function ElementValue(x: Xml): Json
    decreases x, 0
  {
    if x.children != [] then Obj(AddModelType(x.tag, ChildrenInto([], x.children))) else LeafValue(x.tag, x.text)
  }

  // What a child becomes in its parent's dictionary.
  function ChildValue(x: Xml): Json
    decreases x, 1
  {
    if IsListContainer(x) then List(ElementValues(x.children)) else ElementValue(x)
  }

  function ElementValues(xs: seq<Xml>): (r: seq<Json>)
    ensures |r| == |xs|
    decreases xs
  {
    if xs == [] then [] else [ElementValue(xs[0])] + ElementValues(xs[1..])
  }

  // _element_to_dict, from a dictionary already filled by earlier children
  function ChildrenInto(d: seq<Field>, children: seq<Xml>): seq<Field>
    decreases children
  {
    if children == [] then d
    else ChildrenInto(Assign(d, children[0].tag, ChildValue(children[0])), children[1..])
  }

  // ---------------------------------------------------------------- the procedures

  // An element under construction.
  class Element {
    const tag: string
    var text: Option<string>
    var children: seq<Xml>

    constructor (tag: string)
      ensures this.tag == tag && text == None && children == []
    {
      this.tag := tag;
      text, children := None, [];
    }

    method Append(child: Xml)
      modifies this`children
      ensures children == old(children) + [child]
    {
      children := children + [child];
    }

    function Finished(): Xml
      reads this
    {
      Elem(tag, text, children)
    }
  }

  method ValueToElement(value: Json, tag: string, parent: Element)
    requires Printable(value, tag)
    modifies parent`children
    ensures parent.children == old(parent.children) + Print(value, tag)
    decreases value
  {
    match value {
      case Null => assert Print(value, tag) == [];
      case Obj(fields) =>
        var elem := new Element(tag);
        FieldsToElement(fields, elem);
        assert elem.children == PrintFields(fields);
        parent.Append(elem.Finished());
      case List(items) =>
        if items == [] {
          assert Print(value, tag) == [];
        } else if items[0].Obj? {
          var container := new Element(tag);
          ItemsToElement(items, tag, container);
          assert container.children == PrintItems(items, tag, items[0].fields);
          parent.Append(container.Finished());
        } else {
          ScalarsToElement(items, tag, parent);
        }
      case _ => parent.Append(Leaf(tag, ToText(value)));
    }
  }

  // The loop over the entries of an object.
  method FieldsToElement(fields: seq<Field>, elem: Element)
    requires PrintableFields(fields)
    modifies elem`children
    ensures elem.children == old(elem.children) + PrintFields(fields)
    decreases fields
  {
    for i := 0 to |fields|
      invariant elem.children + PrintFields(fields[i..]) == old(elem.children) + PrintFields(fields)
    {
      PrintableFieldAt(fields, i);
      FieldsFrom(fields, i, elem.children);
      ValueToElement(fields[i].value, fields[i].key, elem);
    }
  }

  lemma FieldsFrom(fields: seq<Field>, i: nat, done: seq<Xml>)
    requires i < |fields|
    ensures done + PrintFields(fields[i..])
            == done + Print(fields[i].value, fields[i].key) + PrintFields(fields[i + 1..])
  {
    assert fields[i..][0] == fields[i] && fields[i..][1..] == fields[i + 1..];
  }

  // The loop over the items of a list that starts with an object.
  method ItemsToElement(items: seq<Json>, tag: string, container: Element)
    requires items != [] && items[0].Obj? && PrintableItems(items, tag, items[0].fields)
    modifies container`children
    ensures container.children == old(container.children) + PrintItems(items, tag, items[0].fields)
    decreases items
  {
    var first := items[0].fields;
    for i := 0 to |items|
      invariant container.children + PrintItems(items[i..], tag, first)
             == old(container.children) + PrintItems(items, tag, first)
    {
      PrintableItemAt(items, tag, first, i);
      ItemsFrom(items, tag, first, i, container.children);
      ValueToElement(items[i], ItemTag(tag, first, FieldsOf(items[i])), container);
    }
  }

  lemma ItemsFrom(items: seq<Json>, tag: string, first: seq<Field>, i: nat, done: seq<Xml>)
    requires i < |items|
    ensures done + PrintItems(items[i..], tag, first)
            == done + Print(items[i], ItemTag(tag, first, FieldsOf(items[i]))) + PrintItems(items[i + 1..], tag, first)
  {
    assert items[i..][0] == items[i] && items[i..][1..] == items[i + 1..];
  }

  // The loop over the items of any other list, straight into the parent.
  method ScalarsToElement(items: seq<Json>, tag: string, parent: Element)
    modifies parent`children
    ensures parent.children == old(parent.children) + PrintScalars(items, tag)
  {
    for i := 0 to |items|
      invariant parent.children + PrintScalars(items[i..], tag) == old(parent.children) + PrintScalars(items, tag)
    {
      ScalarsFrom(items, tag, i, parent.children);
      parent.Append(Leaf(tag, ToText(items[i])));
    }
  }

  lemma ScalarsFrom(items: seq<Json>, tag: string, i: nat, done: seq<Xml>)
    requires i < |items|
    ensures done + PrintScalars(items[i..], tag) == done + [Leaf(tag, ToText(items[i]))] + PrintScalars(items[i + 1..], tag)
  {
    assert items[i..][0] == items[i] && items[i..][1..] == items[i + 1..];
  }

  lemma {:induction false} PrintableFieldAt(fields: seq<Field>, i: nat)
    requires PrintableFields(fields) && i < |fields|
    ensures Printable(fields[i].value, fields[i].key)
  {
    if i > 0 {
      PrintableFieldAt(fields[1..], i - 1);
    }
  }

  lemma {:induction false} PrintableItemAt(items: seq<Json>, tag: string, first: seq<Field>, i: nat)
    requires PrintableItems(items, tag, first) && i < |items|
    ensures Printable(items[i], ItemTag(tag, first, FieldsOf(items[i])))
  {
    if i > 0 {
      PrintableItemAt(items[1..], tag, first, i - 1);
    }
  }

  method ElementToDict(element: Xml) returns (result: seq<Field>)
    ensures result == ChildrenInto([], element.children)
    decreases element, 0
  {
    result := [];
    for i := 0 to |element.children|
      invariant ChildrenInto(result, element.children[i..]) == ChildrenInto([], element.children)
    {
      var child := element.children[i];
      assert element.children[i..][0] == child && element.children[i..][1..] == element.children[i + 1..];
      var value;
      if IsListContainer(child) {
        var items := ParseItems(child);
        value := List(items);
      } else {
        value := ParseElementValue(child);
      }
      result := Assign(result, child.tag, value);
    }
  }

  // The inner loop over the items of a list container.
  method ParseItems(container: Xml) returns (items: seq<Json>)
    ensures items == ElementValues(container.children)
    decreases container, 0
  {
    items := [];
    for k := 0 to |container.children|
      invariant items + ElementValues(container.children[k..]) == ElementValues(container.children)
    {
      var item := ParseElementValue(container.children[k]);
      ValuesFrom(container.children, k, items);
      items := items + [item];
    }
  }

  lemma ValuesFrom(xs: seq<Xml>, k: nat, done: seq<Json>)
    requires k < |xs|
    ensures done + ElementValues(xs[k..]) == done + [ElementValue(xs[k])] + ElementValues(xs[k + 1..])
  {
    assert xs[k..][0] == xs[k] && xs[k..][1..] == xs[k + 1..];
    Associative(done, [ElementValue(xs[k])], ElementValues(xs[k + 1..]));
  }

  method ParseElementValue(element: Xml) returns (value: Json)
    ensures value == ElementValue(element)
    decreases element, 1
  {
    if element.children != [] {
      var data := ElementToDict(element);
      if element.tag in SUBMODEL_ELEMENT_TAGS && !Has(data, "modelType") && !Has(data, "model_type") {
        data := data + [Field("modelType", Str(UpperFirst(element.tag)))];
      }
      return Obj(data);
    }
    if element.text.None? {
      return Null;
    }
    var text := Trim(element.text.value);
    if element.tag in BOOLEAN_TAGS {
      if Lower(text) == "true" {
        return Bool(true);
      } else if Lower(text) == "false" {
        return Bool(false);
      }
    }
    value := Str(text);
  }

  // ---------------------------------------------------------------- what survives

  predicate Survives(v: Json, tag: string)
    decreases v, 0
  {
    match v
    case Null => false
    case Num(_) => false
    case Bool(_) => tag in BOOLEAN_TAGS
    case Str(s) => s != "" && Trim(s) == s && (tag in BOOLEAN_TAGS ==> Lower(s) != "true" && Lower(s) != "false")
    case Obj(fields) => tag !in LIST_CONTAINER_TAGS && ObjectSurvives(fields, tag)
    case List(items) =>
      && items != [] && items[0].Obj? && (tag in LIST_CONTAINER_TAGS || |items| > 1)
      && ItemsSurvive(items, tag, items[0].fields)
  }

  predicate ObjectSurvives(fields: seq<Field>, tag: string)
    decreases fields, 1
  {
    && fields != [] && FieldsSurvive(fields)
    && (tag in SUBMODEL_ELEMENT_TAGS ==> Has(fields, "modelType") || Has(fields, "model_type"))
  }

  predicate FieldsSurvive(fields: seq<Field>)
    decreases fields, 0
  {
    fields == [] || (Survives(fields[0].value, fields[0].key) && FieldsSurvive(fields[1..]))
  }

  predicate ItemSurvives(item: Json, tag: string)
    decreases item, 1
  {
    match item
    case Obj(fields) => ObjectSurvives(fields, tag)
    case List(_) => false
    case _ => Survives(item, tag)
  }

  predicate ItemsSurvive(items: seq<Json>, tag: string, first: seq<Field>)
    decreases items
  {
    items == [] ||
      (ItemSurvives(items[0], ItemTag(tag, first, FieldsOf(items[0]))) && ItemsSurvive(items[1..], tag, first))
  }

  // What a dictionary reads back for a value that was printed under a key.
  function Read(v: Json, tag: string): Option<Json> {
    var xs := Print(v, tag);
    if xs == [] then None else Some(ChildValue(xs[|xs| - 1]))
  }

  // The entry that a printed value leaves in a dictionary, if any.
  function Entry(v: Json, key: string): (r: seq<Field>)
    ensures |r| <= 1 && forall i :: 0 <= i < |r| ==> r[i].key == key
  {
    match Read(v, key)
    case None => []
    case Some(read) => [Field(key, read)]
  }

  function Kept(fields: seq<Field>): (r: seq<Field>)
    ensures |r| <= |fields|
  {
    if fields == [] then [] else Entry(fields[0].value, fields[0].key) + Kept(fields[1..])
  }

  // ---------------------------------------------------------------- dictionaries

  predicate Lacks(d: seq<Field>, key: string) {
    forall i :: 0 <= i < |d| ==> d[i].key != key
  }

  lemma {:induction false} AssignFresh(d: seq<Field>, key: string, value: Json)
    requires Lacks(d, key)
    ensures Assign(d, key, value) == d + [Field(key, value)]
  {
    if d != [] {
      assert Lacks(d[1..], key);
      AssignFresh(d[1..], key, value);
    }
  }

  lemma {:induction false} AssignLast(d: seq<Field>, key: string, before: Json, value: Json)
    requires Lacks(d, key)
    ensures Assign(d + [Field(key, before)], key, value) == d + [Field(key, value)]
  {
    var all := d + [Field(key, before)];
    if d != [] {
      assert Lacks(d[1..], key) && all[1..] == d[1..] + [Field(key, before)];
      AssignLast(d[1..], key, before, value);
    } else {
      assert all[1..] == [];
    }
  }

  lemma {:induction false} ChildrenIntoAppend(d: seq<Field>, a: seq<Xml>, b: seq<Xml>)
    ensures ChildrenInto(d, a + b) == ChildrenInto(ChildrenInto(d, a), b)
    decreases |a|
  {
    if a == [] {
      assert a + b == b;
    } else {
      assert (a + b)[1..] == a[1..] + b;
      ChildrenIntoAppend(Assign(d, a[0].tag, ChildValue(a[0])), a[1..], b);
    }
  }

  // Of several children with one tag the last one stays.
  lemma {:induction false} LastStays(d: seq<Field>, key: string, before: Json, xs: seq<Xml>)
    requires Lacks(d, key) && forall i :: 0 <= i < |xs| ==> xs[i].tag == key
    ensures ChildrenInto(d + [Field(key, before)], xs)
            == d + [Field(key, if xs == [] then before else ChildValue(xs[|xs| - 1]))]
    decreases |xs|
  {
    if xs != [] {
      AssignLast(d, key, before, ChildValue(xs[0]));
      LastStays(d, key, ChildValue(xs[0]), xs[1..]);
    }
  }

  lemma {:induction false} ScalarTags(items: seq<Json>, tag: string)
    ensures forall i :: 0 <= i < |PrintScalars(items, tag)| ==>
              PrintScalars(items, tag)[i].tag == tag && PrintScalars(items, tag)[i].children == []
    ensures |PrintScalars(items, tag)| == |items|
  {
    if items != [] {
      ScalarTags(items[1..], tag);
    }
  }

  // A value prints only elements with its own tag.
  lemma PrintTags(v: Json, tag: string)
    ensures forall i :: 0 <= i < |Print(v, tag)| ==> Print(v, tag)[i].tag == tag
  {
    if v.List? {
      ScalarTags(v.items, tag);
    }
  }

  // One printed value read into a dictionary without its key.
  lemma ReadInto(d: seq<Field>, v: Json, key: string)
    requires Lacks(d, key)
    ensures ChildrenInto(d, Print(v, key)) == d + Entry(v, key)
  {
    var xs := Print(v, key);
    PrintTags(v, key);
    if xs != [] {
      AssignFresh(d, key, ChildValue(xs[0]));
      LastStays(d, key, ChildValue(xs[0]), xs[1..]);
    }
  }

  // A printed object reads back what its fields read back, in order.
  lemma {:induction false} FieldsInto(d: seq<Field>, fields: seq<Field>)
    requires DistinctKeys(fields) && forall i :: 0 <= i < |fields| ==> Lacks(d, fields[i].key)
    ensures ChildrenInto(d, PrintFields(fields)) == d + Kept(fields)
    decreases |fields|
  {
    if fields != [] {
      var v, key := fields[0].value, fields[0].key;
      var head := Entry(v, key);
      ReadInto(d, v, key);
      ChildrenIntoAppend(d, Print(v, key), PrintFields(fields[1..]));
      LacksAll(d, head, fields);
      FieldsInto(d + head, fields[1..]);
      Associative(d, head, Kept(fields[1..]));
    }
  }

  lemma LacksAll(d: seq<Field>, head: seq<Field>, fields: seq<Field>)
    requires fields != [] && DistinctKeys(fields) && forall i :: 0 <= i < |fields| ==> Lacks(d, fields[i].key)
    requires forall i :: 0 <= i < |head| ==> head[i].key == fields[0].key
    ensures DistinctKeys(fields[1..]) && forall i :: 0 <= i < |fields[1..]| ==> Lacks(d + head, fields[1..][i].key)
  {
    forall i | 0 <= i < |fields[1..]| ensures Lacks(d + head, fields[1..][i].key) {
      assert fields[1..][i] == fields[i + 1] && Lacks(d, fields[i + 1].key);
    }
  }

  // ---------------------------------------------------------------- survivors print once

  lemma SurvivorPrintsOnce(v: Json, tag: string)
    requires Survives(v, tag)
    ensures |Print(v, tag)| == 1
  {
  }

  lemma {:induction false} SurvivingFieldsPrint(fields: seq<Field>)
    requires FieldsSurvive(fields)
    ensures |PrintFields(fields)| == |fields|
    ensures forall i :: 0 <= i < |fields| ==> PrintFields(fields)[i].tag == fields[i].key
  {
    if fields != [] {
      SurvivorPrintsOnce(fields[0].value, fields[0].key);
      PrintTags(fields[0].value, fields[0].key);
      SurvivingFieldsPrint(fields[1..]);
    }
  }

  // Fields with distinct keys never look like a list.
  lemma NotMistakenForList(fields: seq<Field>)
    requires FieldsSurvive(fields) && DistinctKeys(fields)
    ensures !SameTags(PrintFields(fields))
  {
    SurvivingFieldsPrint(fields);
    assert |fields| > 1 ==> fields[0].key != fields[1].key;
  }

  // ---------------------------------------------------------------- model types

  lemma {:induction false} HasByKey(fields: seq<Field>, key: string)
    ensures Has(fields, key) <==> exists i :: 0 <= i < |fields| && fields[i].key == key
  {
    if fields != [] {
      HasByKey(fields[1..], key);
      if i :| 0 <= i < |fields| && fields[i].key == key {
        assert i > 0 ==> fields[1..][i - 1] == fields[i];
      }
      if i :| 0 <= i < |fields[1..]| && fields[1..][i].key == key {
        assert fields[i + 1].key == key;
      }
    }
  }

  // A printed text is never dropped.
  lemma {:induction false} TextIsKept(fields: seq<Field>, i: nat)
    requires i < |fields| && fields[i].value.Str?
    ensures exists k :: 0 <= k < |Kept(fields)| && Kept(fields)[k].key == fields[i].key
  {
    if i == 0 {
      assert Read(fields[0].value, fields[0].key).Some?;
      assert Kept(fields)[0].key == fields[0].key;
    } else {
      TextIsKept(fields[1..], i - 1);
      var k :| 0 <= k < |Kept(fields[1..])| && Kept(fields[1..])[k].key == fields[i].key;
      var at := |Kept(fields)| - |Kept(fields[1..])| + k;
      assert Kept(fields)[at] == Kept(fields[1..])[k];
    }
  }

  // A model type that was lost is not repaired by adding one.
  lemma NotRepaired(fields: seq<Field>, name: string)
    requires !Has(Kept(fields), "modelType")
    ensures Kept(fields) + [Field("modelType", Str(name))] != fields
  {
    if Kept(fields) + [Field("modelType", Str(name))] == fields {
      assert fields[|fields| - 1] == Field("modelType", Str(name));
      TextIsKept(fields, |fields| - 1);
      HasByKey(Kept(fields), "modelType");
    }
  }

  lemma AddedModelType(fields: seq<Field>, tag: string)
    ensures AddModelType(tag, Kept(fields)) == fields <==>
              && Kept(fields) == fields
              && (tag in SUBMODEL_ELEMENT_TAGS ==> Has(fields, "modelType") || Has(fields, "model_type"))
  {
    var kept := Kept(fields);
    if tag in SUBMODEL_ELEMENT_TAGS && !Has(kept, "modelType") && !Has(kept, "model_type") {
      NotRepaired(fields, UpperFirst(tag));
    }
  }

  // ---------------------------------------------------------------- the round trip

  // An element without children is read by its text.
  lemma ChildlessRead(x: Xml)
    requires x.children == []
    ensures ChildValue(x) == LeafValue(x.tag, x.text)
  {
    assert !IsListContainer(x);
  }

  lemma LeafExactly(v: Json, tag: string)
    requires v.Null? || v.Bool? || v.Num? || v.Str?
    ensures Read(v, tag) == Some(v) <==> Survives(v, tag)
  {
    if v.Null? {
      assert Print(v, tag) == [];
    } else {
      var x := Leaf(tag, ToText(v));
      assert Print(v, tag) == [x];
      ChildlessRead(x);
      TrueAndFalse();
    }
  }

  lemma TrueAndFalse()
    ensures Trim("true") == "true" && Trim("false") == "false" && Lower("true") == "true" && Lower("false") == "false"
  {
    assert "true"[1..] == "rue" && "rue"[1..] == "ue" && "ue"[1..] == "e" && "e"[1..] == "";
    assert Lower("e") == "e" && Lower("ue") == "ue" && Lower("rue") == "rue";
    assert "false"[1..] == "alse" && "alse"[1..] == "lse" && "lse"[1..] == "se" && "se"[1..] == "e";
    assert Lower("se") == "se" && Lower("lse") == "lse" && Lower("alse") == "alse";
  }

  lemma {:induction false} FieldsExactly(fields: seq<Field>)
    requires PrintableFields(fields)
    ensures Kept(fields) == fields <==> FieldsSurvive(fields)
    decreases fields, 0
  {
    if fields != [] {
      ReadExactly(fields[0].value, fields[0].key);
      FieldsExactly(fields[1..]);
      assert Read(fields[0].value, fields[0].key).None? ==> |Kept(fields)| < |fields|;
      assert fields == [fields[0]] + fields[1..];
    }
  }

  // One object element, read as a value.
  lemma {:induction false} ObjectExactly(fields: seq<Field>, tag: string)
    requires DistinctKeys(fields) && PrintableFields(fields)
    ensures ElementValue(Elem(tag, None, PrintFields(fields))) == Obj(fields) <==> ObjectSurvives(fields, tag)
    decreases fields, 1
  {
    FieldsExactly(fields);
    FieldsInto([], fields);
    assert [] + Kept(fields) == Kept(fields);
    AddedModelType(fields, tag);
    if FieldsSurvive(fields) {
      SurvivingFieldsPrint(fields);
    }
  }

  // An item that is no list, read from the element it was printed as.
  lemma {:induction false} ItemExactly(item: Json, tag: string)
    requires Printable(item, tag) && !item.Null? && !item.List?
    ensures |Print(item, tag)| == 1
    ensures ElementValue(Print(item, tag)[0]) == item <==> ItemSurvives(item, tag)
    decreases item, 0
  {
    if item.Obj? {
      ObjectExactly(item.fields, tag);
    } else {
      LeafExactly(item, tag);
      ChildlessRead(Print(item, tag)[0]);
    }
  }

  lemma ItemsCons(items: seq<Json>, tag: string, first: seq<Field>, x: Xml)
    requires items != [] && Print(items[0], ItemTag(tag, first, FieldsOf(items[0]))) == [x]
    ensures PrintItems(items, tag, first) == [x] + PrintItems(items[1..], tag, first)
    ensures ElementValues(PrintItems(items, tag, first))
            == [ElementValue(x)] + ElementValues(PrintItems(items[1..], tag, first))
  {
    assert PrintItems(items, tag, first)[1..] == PrintItems(items[1..], tag, first);
  }

  predicate NoLists(items: seq<Json>) {
    forall i :: 0 <= i < |items| ==> !items[i].List?
  }

  // A list directly inside a list is never read back.
  lemma {:induction false} ValuesNoLists(xs: seq<Xml>)
    ensures NoLists(ElementValues(xs))
    decreases |xs|
  {
    if xs != [] {
      ValuesNoLists(xs[1..]);
    }
  }

  lemma {:induction false} SurvivorsPrintOnce(items: seq<Json>, tag: string, first: seq<Field>)
    requires ItemsSurvive(items, tag, first)
    ensures NoLists(items) && |PrintItems(items, tag, first)| == |items|
    decreases |items|
  {
    if items != [] {
      SurvivorsPrintOnce(items[1..], tag, first);
    }
  }

  lemma {:induction false} AtMostOneEach(items: seq<Json>, tag: string, first: seq<Field>)
    requires NoLists(items)
    ensures |PrintItems(items, tag, first)| <= |items|
    decreases |items|
  {
    if items != [] {
      assert NoLists(items[1..]);
      AtMostOneEach(items[1..], tag, first);
    }
  }

  lemma {:induction false} ItemsExactly(items: seq<Json>, tag: string, first: seq<Field>)
    requires PrintableItems(items, tag, first)
    ensures ElementValues(PrintItems(items, tag, first)) == items <==> ItemsSurvive(items, tag, first)
    decreases items, 0
  {
    if ItemsSurvive(items, tag, first) {
      SurvivorsPrintOnce(items, tag, first);
    }
    if !NoLists(items) {
      ValuesNoLists(PrintItems(items, tag, first));
    } else if items != [] {
      var rest, itemTag := items[1..], ItemTag(tag, first, FieldsOf(items[0]));
      assert NoLists(rest);
      if items[0].Null? {
        AtMostOneEach(rest, tag, first);
        assert PrintItems(items, tag, first) == PrintItems(rest, tag, first);
      } else {
        ItemExactly(items[0], itemTag);
        ItemsExactly(rest, tag, first);
        ItemsCons(items, tag, first, Print(items[0], itemTag)[0]);
        assert items == [items[0]] + rest;
      }
    }
  }

  predicate AllTagged(xs: seq<Xml>, tag: string) {
    forall i :: 0 <= i < |xs| ==> xs[i].tag == tag
  }

  lemma TaggedAppend(a: seq<Xml>, b: seq<Xml>, tag: string)
    requires AllTagged(a, tag) && AllTagged(b, tag)
    ensures AllTagged(a + b, tag)
  {
  }

  lemma SameItemTag(tag: string, first: seq<Field>, item: seq<Field>)
    requires tag !in LIST_CONTAINER_TAGS
    ensures ItemTag(tag, first, item) == ItemTag(tag, first, [])
  {
    assert !ByModelType(tag, first);
  }

  // Outside the list table all items of a list have the same tag.
  lemma {:induction false} ItemTags(items: seq<Json>, tag: string, first: seq<Field>)
    requires tag !in LIST_CONTAINER_TAGS
    ensures AllTagged(PrintItems(items, tag, first), ItemTag(tag, first, []))
    decreases |items|
  {
    if items != [] {
      var itemTag := ItemTag(tag, first, []);
      SameItemTag(tag, first, FieldsOf(items[0]));
      PrintTags(items[0], itemTag);
      ItemTags(items[1..], tag, first);
      TaggedAppend(Print(items[0], itemTag), PrintItems(items[1..], tag, first), itemTag);
    }
  }

  // What is read for a container depends on its children and on whether it looks like a list.
  lemma ContainerRead(items: seq<Json>, tag: string)
    requires items != [] && items[0].Obj?
    ensures var x := Elem(tag, None, PrintItems(items, tag, items[0].fields));
            && x.children != []
            && Read(List(items), tag) == Some(if IsListContainer(x) then List(ElementValues(x.children)) else ElementValue(x))
  {
    assert Print(List(items), tag) == [Elem(tag, None, PrintItems(items, tag, items[0].fields))];
  }

  // A printed object list looks like one if and only if its key is in the list table or it
  // has more than one child.
  lemma LooksLikeList(items: seq<Json>, tag: string)
    requires items != [] && items[0].Obj?
    ensures var xs := PrintItems(items, tag, items[0].fields);
            IsListContainer(Elem(tag, None, xs)) <==> tag in LIST_CONTAINER_TAGS || |xs| > 1
  {
    ContainerRead(items, tag);
    if tag !in LIST_CONTAINER_TAGS {
      ItemTags(items, tag, items[0].fields);
    }
  }

  // Lists of scalars are never read back as lists.
  lemma ScalarListLost(items: seq<Json>, tag: string)
    requires items == [] || !items[0].Obj?
    ensures Read(List(items), tag) != Some(List(items))
  {
    ScalarTags(items, tag);
    if items != [] {
      var xs := PrintScalars(items, tag);
      assert Print(List(items), tag) == xs;
      ChildlessRead(xs[|xs| - 1]);
    } else {
      assert Print(List(items), tag) == [];
    }
  }

  // A value comes back as it was if and only if it survives.
  lemma {:induction false} ReadExactly(v: Json, tag: string)
    requires Printable(v, tag)
    ensures Read(v, tag) == Some(v) <==> Survives(v, tag)
    decreases v
  {
    if v.Obj? {
      ObjectExactly(v.fields, tag);
      if FieldsSurvive(v.fields) {
        NotMistakenForList(v.fields);
      }
    } else if v.List? {
      if v.items == [] || !v.items[0].Obj? {
        ScalarListLost(v.items, tag);
      } else {
        ItemsExactly(v.items, tag, v.items[0].fields);
        ContainerRead(v.items, tag);
        LooksLikeList(v.items, tag);
        if ItemsSurvive(v.items, tag, v.items[0].fields) {
          SurvivorsPrintOnce(v.items, tag, v.items[0].fields);
        }
      }
    } else {
      LeafExactly(v, tag);
    }
  }

  // A shell, submodel or concept description comes back as it was if and only if all its
  // fields survive.
  lemma DocumentRoundTrip(fields: seq<Field>)
    requires DistinctKeys(fields) && PrintableFields(fields)
    ensures ChildrenInto([], PrintFields(fields)) == fields <==> FieldsSurvive(fields)
  {
    FieldsInto([], fields);
    assert [] + Kept(fields) == Kept(fields);
    FieldsExactly(fields);
  }
}

// Which tags the printer writes, and what the parser makes of an element whose model type
// only its tag still tells.
module XmlTags {
  import opened Wrappers
  import opened Sequences
  import opened XmlTree

  // ---------------------------------------------------------------- tags of elements

  // Every kind of submodel element and its tag.
  const ELEMENT_TAGS: map<string, string> := map[
    "AnnotatedRelationshipElement" := "annotatedRelationshipElement", "BasicEventElement" := "basicEventElement",
    "Blob" := "blob", "Capability" := "capability", "Entity" := "entity", "File" := "file",
    "MultiLanguageProperty" := "multiLanguageProperty", "Operation" := "operation", "Property" := "property",
    "Range" := "range", "ReferenceElement" := "referenceElement", "RelationshipElement" := "relationshipElement",
    "SubmodelElementCollection" := "submodelElementCollection", "SubmodelElementList" := "submodelElementList",
    "DataElement" := "dataElement", "EventElement" := "eventElement", "SubmodelElement" := "submodelElement" ]

  // A name and the same with its first letter lowered.
  predicate Lowered(name: string, tag: string) {
    name != "" && tag != "" && name[1..] == tag[1..] && 'A' <= name[0] <= 'Z' && tag[0] == name[0] + 32 as char
  }

  lemma LoweredIsTag(name: string, tag: string)
    requires Lowered(name, tag)
    ensures LowerFirst(name) == tag && UpperFirst(tag) == name
  {
    HeadAndTail(name);
    HeadAndTail(tag);
  }

  lemma LeafElementTags(name: string)
    requires name in {"BasicEventElement", "Blob", "Capability", "File", "MultiLanguageProperty", "Property", "Range",
                      "ReferenceElement"}
    ensures Lowered(name, ELEMENT_TAGS[name]) && ELEMENT_TAGS[name] in SUBMODEL_ELEMENT_TAGS
  {
    if name == "BasicEventElement" {
    } else if name == "Blob" {
    } else if name == "Capability" {
    } else if name == "File" {
    } else if name == "MultiLanguageProperty" {
    } else if name == "Property" {
    } else if name == "Range" {
    } else {
    }
  }

  lemma ElementTags(name: string)
    requires name in ELEMENT_TAGS
    ensures Lowered(name, ELEMENT_TAGS[name]) && ELEMENT_TAGS[name] in SUBMODEL_ELEMENT_TAGS
  {
    if name == "AnnotatedRelationshipElement" {
    } else if name == "Entity" {
    } else if name == "Operation" {
    } else if name == "RelationshipElement" {
    } else if name == "SubmodelElementCollection" {
    } else if name == "SubmodelElementList" {
    } else if name == "DataElement" {
    } else if name == "EventElement" {
    } else if name == "SubmodelElement" {
    } else {
      LeafElementTags(name);
    }
  }

  // No other tag counts as a submodel element.
  lemma AllElementTags(tag: string)
    ensures tag in SUBMODEL_ELEMENT_TAGS <==> exists name :: name in ELEMENT_TAGS && ELEMENT_TAGS[name] == tag
  {
    if tag == "annotatedRelationshipElement" {
      assert ELEMENT_TAGS["AnnotatedRelationshipElement"] == tag;
    } else if tag == "basicEventElement" {
      assert ELEMENT_TAGS["BasicEventElement"] == tag;
    } else if tag == "blob" {
      assert ELEMENT_TAGS["Blob"] == tag;
    } else if tag == "capability" {
      assert ELEMENT_TAGS["Capability"] == tag;
    } else if tag == "entity" {
      assert ELEMENT_TAGS["Entity"] == tag;
    } else if tag == "file" {
      assert ELEMENT_TAGS["File"] == tag;
    } else if tag == "multiLanguageProperty" {
      assert ELEMENT_TAGS["MultiLanguageProperty"] == tag;
    } else if tag == "operation" {
      assert ELEMENT_TAGS["Operation"] == tag;
    } else if tag == "property" {
      assert ELEMENT_TAGS["Property"] == tag;
    } else if tag == "range" {
      assert ELEMENT_TAGS["Range"] == tag;
    } else if tag == "referenceElement" {
      assert ELEMENT_TAGS["ReferenceElement"] == tag;
    } else if tag == "relationshipElement" {
      assert ELEMENT_TAGS["RelationshipElement"] == tag;
    } else if tag == "submodelElementCollection" {
      assert ELEMENT_TAGS["SubmodelElementCollection"] == tag;
    } else if tag == "submodelElementList" {
      assert ELEMENT_TAGS["SubmodelElementList"] == tag;
    } else if tag == "dataElement" {
      assert ELEMENT_TAGS["DataElement"] == tag;
    } else if tag == "eventElement" {
      assert ELEMENT_TAGS["EventElement"] == tag;
    } else if tag == "submodelElement" {
      assert ELEMENT_TAGS["SubmodelElement"] == tag;
    }
    if name :| name in ELEMENT_TAGS && ELEMENT_TAGS[name] == tag {
      ElementTags(name);
    }
  }

  // The tag of an element in a list of elements.
  lemma ElementItemTag(tag: string, first: seq<Field>, item: seq<Field>, name: string)
    requires (tag == "submodelElements" || tag == "value") && Has(first, "modelType")
    requires Get(item, "modelType") == Some(Str(name)) && name in ELEMENT_TAGS
    ensures ItemTag(tag, first, item) == ELEMENT_TAGS[name]
  {
    ElementTags(name);
    LoweredIsTag(name, ELEMENT_TAGS[name]);
  }

  // An item that has none although the first one has is printed as a submodelElement.
  lemma UntypedItemTag(tag: string, first: seq<Field>, item: seq<Field>)
    requires (tag == "submodelElements" || tag == "value") && Has(first, "modelType") && !Has(item, "modelType")
    ensures ItemTag(tag, first, item) == "submodelElement"
  {
    assert "submodelElement"[1..] == "ubmodelElement" && ['s'] + "ubmodelElement" == "submodelElement";
  }

  // ---------------------------------------------------------------- the model type from the tag

  function WithoutTag(xs: seq<Xml>, tag: string): seq<Xml> {
    if xs == [] then [] else (if xs[0].tag == tag then [] else [xs[0]]) + WithoutTag(xs[1..], tag)
  }

  predicate Tagged(xs: seq<Xml>, tag: string) {
    exists i :: 0 <= i < |xs| && xs[i].tag == tag
  }

  lemma {:induction false} WithoutTagHasNone(xs: seq<Xml>, tag: string)
    ensures !Tagged(WithoutTag(xs, tag), tag)
  {
    if xs != [] {
      WithoutTagHasNone(xs[1..], tag);
      var kept := WithoutTag(xs, tag);
      if kept != [] && xs[0].tag != tag {
        TaggedCons(kept, tag);
        assert kept[1..] == WithoutTag(xs[1..], tag);
      } else {
        assert kept == WithoutTag(xs[1..], tag);
      }
    }
  }

  lemma {:induction false} AssignHas(d: seq<Field>, key: string, value: Json, other: string)
    ensures Has(Assign(d, key, value), other) <==> Has(d, other) || other == key
  {
    if d == [] {
      assert Get([Field(key, value)][1..], other) == None;
    } else if d[0].key == key {
      HasCons(Field(key, value), d[1..], other);
      HasCons(d[0], d[1..], other);
      HeadAndTail(d);
    } else {
      AssignHas(d[1..], key, value, other);
      HasCons(d[0], Assign(d[1..], key, value), other);
      HasCons(d[0], d[1..], other);
      HeadAndTail(d);
    }
  }

  lemma HasCons(f: Field, d: seq<Field>, key: string)
    ensures Has([f] + d, key) <==> f.key == key || Has(d, key)
  {
    assert ([f] + d)[1..] == d;
  }

  // A dictionary has the tags of its children as keys.
  lemma {:induction false} ChildrenHave(d: seq<Field>, xs: seq<Xml>, key: string)
    ensures Has(ChildrenInto(d, xs), key) <==> Has(d, key) || Tagged(xs, key)
    decreases |xs|
  {
    if xs != [] {
      ChildrenHave(Assign(d, xs[0].tag, ChildValue(xs[0])), xs[1..], key);
      AssignHas(d, xs[0].tag, ChildValue(xs[0]), key);
      TaggedCons(xs, key);
    }
  }

  lemma TaggedCons(xs: seq<Xml>, key: string)
    requires xs != []
    ensures Tagged(xs, key) <==> xs[0].tag == key || Tagged(xs[1..], key)
  {
    if i :| 0 <= i < |xs| && xs[i].tag == key {
      assert i > 0 ==> xs[1..][i - 1] == xs[i];
    }
    if i :| 0 <= i < |xs[1..]| && xs[1..][i].tag == key {
      assert xs[i + 1] == xs[1..][i];
    }
  }

  lemma {:induction false} GetOfSnoc(d: seq<Field>, f: Field)
    requires !Has(d, f.key)
    ensures Get(d + [f], f.key) == Some(f.value)
  {
    if d != [] {
      TailOfAppend(d, [f]);
      GetOfSnoc(d[1..], f);
    } else {
      AppendNothing([f]);
    }
  }

  // An element that is printed for an item of a list of elements tells its model type by its
  // tag alone: with the modelType child taken out it still parses to an object of that type.
  lemma ModelTypeFromTag(tag: string, first: seq<Field>, item: seq<Field>, name: string)
    requires (tag == "submodelElements" || tag == "value") && Has(first, "modelType")
    requires Get(item, "modelType") == Some(Str(name)) && name in ELEMENT_TAGS
    requires WithoutTag(PrintFields(item), "modelType") != []
    requires !Tagged(WithoutTag(PrintFields(item), "modelType"), "model_type")
    ensures var children := WithoutTag(PrintFields(item), "modelType");
            var read := ElementValue(Elem(ItemTag(tag, first, item), None, children));
            read.Obj? && Get(read.fields, "modelType") == Some(Str(name))
  {
    var children := WithoutTag(PrintFields(item), "modelType");
    ElementItemTag(tag, first, item, name);
    ElementTags(name);
    LoweredIsTag(name, ELEMENT_TAGS[name]);
    WithoutTagHasNone(PrintFields(item), "modelType");
    var d := ChildrenInto([], children);
    ChildrenHave([], children, "modelType");
    ChildrenHave([], children, "model_type");
    GetOfSnoc(d, Field("modelType", Str(name)));
  }

  // ---------------------------------------------------------------- tags of other items

  // Under every key but "value", model types matter for submodelElements only, and the first
  // item is a reference when it has both a type and keys; under "value" lang strings, which
  // have a language and a text, come before references.
  lemma SpecialItemTags(tag: string, first: seq<Field>, item: seq<Field>)
    requires !Has(first, "modelType") || (tag != "submodelElements" && tag != "value")
    ensures ItemTag(tag, first, item) ==
            if tag == "value" && Has(first, "language") && Has(first, "text") then "langStringTextType"
            else if Has(first, "type") && Has(first, "keys") then "reference"
            else Singularize(tag)
    ensures Singularize("value") == "value"
  {
    assert "value"[4..] == "e" && "value"[2..] == "lue" && "s"[0] == 's';
    NoPlural("value");
  }

  // Items without such fields have the singular of their key.
  const SINGULARS_OF_LISTS: map<string, string> := map[
    "assetAdministrationShells" := "assetAdministrationShell", "submodels" := "submodel",
    "conceptDescriptions" := "conceptDescription", "submodelElements" := "submodelElement",
    "statements" := "statement", "annotations" := "annotation", "inputVariables" := "inputVariable",
    "outputVariables" := "outputVariable", "inoutputVariables" := "inoutputVariable" ]

  const SINGULARS_OF_DETAILS: map<string, string> := map[
    "keys" := "key", "extensions" := "extension", "qualifiers" := "qualifier",
    "embeddedDataSpecifications" := "embeddedDataSpecification", "specificAssetIds" := "specificAssetId",
    "supplementalSemanticIds" := "supplementalSemanticId" ]

  const SINGULARS := SINGULARS_OF_LISTS + SINGULARS_OF_DETAILS

  // The rule for a plural in -s: it is undone if and only if the singular does not itself
  // end in -s, -ie or -se.
  lemma SingularOfPlural(word: string)
    ensures Singularize(word + "s") == word <==> !EndsWith(word, "s") && !EndsWith(word, "ie") && !EndsWith(word, "se")
  {
    var plural := word + "s";
    SuffixOfPlural(word, "ie", "ies");
    SuffixOfPlural(word, "se", "ses");
    SuffixOfPlural(word, "s", "ss");
    assert plural[|plural| - 1..] == "s" && plural[..|plural| - 1] == word;
    if EndsWith(word, "ie") {
      assert |Singularize(plural)| == |plural| - 2 && Singularize(plural)[|plural| - 3] == 'y';
      assert word[|word| - 2..][1] == 'e';
    }
  }

  lemma SuffixOfPlural(word: string, suffix: string, longer: string)
    requires longer == suffix + "s"
    ensures EndsWith(word + "s", longer) <==> EndsWith(word, suffix)
  {
    var plural := word + "s";
    if |suffix| <= |word| {
      assert plural[|plural| - |longer|..] == word[|word| - |suffix|..] + "s";
      assert word[|word| - |suffix|..] == (word[|word| - |suffix|..] + "s")[..|suffix|];
      assert suffix == longer[..|suffix|];
    }
  }

  // Words in -y and -s.
  lemma SingularOfOthers(stem: string)
    ensures Singularize(stem + "ies") == stem + "y" && Singularize(stem + "ses") == stem + "s"
  {
    assert (stem + "ies")[|stem|..] == "ies" && (stem + "ies")[..|stem|] == stem;
    assert (stem + "ses")[|stem|..] == "ses" && (stem + "ses")[..|stem| + 1] == stem + "s";
  }

  // The last two letters of a word with such an ending.
  lemma LastLetters(word: string, suffix: string)
    requires EndsWith(word, suffix) && suffix != ""
    ensures word[|word| - 1] == suffix[|suffix| - 1]
    ensures |suffix| > 1 ==> word[|word| - 2] == suffix[|suffix| - 2]
  {
    assert word[|word| - |suffix|..][|suffix| - 1] == word[|word| - 1];
    if |suffix| > 1 {
      assert word[|word| - |suffix|..][|suffix| - 2] == word[|word| - 2];
    }
  }

  lemma NotEnding(word: string, suffix: string)
    requires |word| >= |suffix| == 2 && (word[|word| - 1] != suffix[1] || word[|word| - 2] != suffix[0])
    ensures !EndsWith(word, suffix)
  {
    if EndsWith(word, suffix) {
      LastLetters(word, suffix);
    }
  }

  // Such a singular ends in another letter, or in -e after another letter.
  lemma OrdinaryEnd(word: string)
    requires |word| >= 2 && word[|word| - 1] != 's'
    requires word[|word| - 1] == 'e' ==> word[|word| - 2] != 'i' && word[|word| - 2] != 's'
    ensures Singularize(word + "s") == word
  {
    assert word[|word| - 1..] == [word[|word| - 1]];
    NotEnding(word, "ie");
    NotEnding(word, "se");
    SingularOfPlural(word);
  }

  lemma OrdinaryPlural(tag: string, word: string)
    requires tag == word + "s" && |word| >= 2 && word[|word| - 1] != 's'
    requires word[|word| - 1] == 'e' ==> word[|word| - 2] != 'i' && word[|word| - 2] != 's'
    ensures Singularize(tag) == word
  {
    OrdinaryEnd(word);
  }

  lemma ListSingulars(tag: string)
    requires tag in SINGULARS_OF_LISTS
    ensures Singularize(tag) == SINGULARS_OF_LISTS[tag] && tag == SINGULARS_OF_LISTS[tag] + "s"
  {
    if tag == "assetAdministrationShells" {
      OrdinaryPlural(tag, "assetAdministrationShell");
    } else if tag == "submodels" {
      OrdinaryPlural(tag, "submodel");
    } else if tag == "conceptDescriptions" {
      OrdinaryPlural(tag, "conceptDescription");
    } else if tag == "submodelElements" {
      OrdinaryPlural(tag, "submodelElement");
    } else if tag == "statements" {
      OrdinaryPlural(tag, "statement");
    } else if tag == "annotations" {
      OrdinaryPlural(tag, "annotation");
    } else if tag == "inputVariables" {
      OrdinaryPlural(tag, "inputVariable");
    } else if tag == "outputVariables" {
      OrdinaryPlural(tag, "outputVariable");
    } else {
      OrdinaryPlural(tag, "inoutputVariable");
    }
  }

  lemma DetailSingulars(tag: string)
    requires tag in SINGULARS_OF_DETAILS
    ensures Singularize(tag) == SINGULARS_OF_DETAILS[tag] && tag == SINGULARS_OF_DETAILS[tag] + "s"
  {
    if tag == "keys" {
      OrdinaryPlural(tag, "key");
    } else if tag == "extensions" {
      OrdinaryPlural(tag, "extension");
    } else if tag == "qualifiers" {
      OrdinaryPlural(tag, "qualifier");
    } else if tag == "embeddedDataSpecifications" {
      OrdinaryPlural(tag, "embeddedDataSpecification");
    } else if tag == "specificAssetIds" {
      OrdinaryPlural(tag, "specificAssetId");
    } else {
      OrdinaryPlural(tag, "supplementalSemanticId");
    }
  }

  lemma Singulars(tag: string)
    requires tag in SINGULARS
    ensures Singularize(tag) == SINGULARS[tag] && tag == SINGULARS[tag] + "s"
  {
    if tag in SINGULARS_OF_DETAILS {
      DetailSingulars(tag);
    } else {
      ListSingulars(tag);
    }
  }

  lemma PluralsEndInS(tag: string)
    requires tag in SINGULARS
    ensures tag != "" && tag[|tag| - 1] == 's' && tag != "value"
  {
    Singulars(tag);
    var plural := SINGULARS[tag] + "s";
    assert tag == plural && plural[|plural| - 1] == 's';
    assert "value"[4] == 'e';
  }

  // The items of every list key, printed under the singular of the key unless the first item
  // tells something else.
  lemma SingularItemTags(tag: string, first: seq<Field>, item: seq<Field>)
    requires tag in SINGULARS && (tag == "submodelElements" ==> !Has(first, "modelType"))
    requires !Has(first, "type") || !Has(first, "keys")
    ensures ItemTag(tag, first, item) == SINGULARS[tag]
  {
    PluralsEndInS(tag);
    SpecialItemTags(tag, first, item);
    Singulars(tag);
  }

  lemma LongerSuffix(tag: string, suffix: string)
    requires EndsWith(tag, suffix) && suffix != ""
    ensures EndsWith(tag, [suffix[|suffix| - 1]])
  {
    LastLetters(tag, suffix);
    assert tag[|tag| - 1..] == [tag[|tag| - 1]];
  }

  // Keys that are no plural stay as they are.
  lemma NoPlural(tag: string)
    ensures Singularize(tag) != tag ==> EndsWith(tag, "s")
  {
    if EndsWith(tag, "ies") {
      LongerSuffix(tag, "ies");
    } else if EndsWith(tag, "ses") {
      LongerSuffix(tag, "ses");
    }
  }

  // ---------------------------------------------------------------- what a leaf is read as

  // A text that survives trimming and is no boolean.
  predicate PlainText(s: string) {
    s != "" && Trim(s) == s && Lower(s) != "true" && Lower(s) != "false"
  }

  // What becomes of the values that do not survive: null is dropped, an empty text becomes
  // null, a number becomes its digits, a boolean outside the boolean tags becomes a text.
  lemma LeavesReadAs(tag: string, b: bool, digits: string, text: string)
    requires PlainText(digits) && PlainText(text)
    ensures Read(Null, tag) == None && Read(Str(""), tag) == Some(Null)
    ensures Read(Bool(b), tag)
            == Some(if tag in {"min", "max", "nom", "typ", "allowDuplicates"} then Bool(b)
                    else Str(if b then "true" else "false"))
    ensures Read(Num(digits), tag) == Some(Str(digits)) && Read(Str(text), tag) == Some(Str(text))
  {
    BooleanReadsAs(tag, b);
    LeafReads(Str(""), tag, "");
    LeafReads(Num(digits), tag, digits);
    LeafReads(Str(text), tag, text);
  }

  lemma BooleanReadsAs(tag: string, b: bool)
    ensures Read(Bool(b), tag)
            == Some(if tag in {"min", "max", "nom", "typ", "allowDuplicates"} then Bool(b)
                    else Str(if b then "true" else "false"))
  {
    var text := if b then "true" else "false";
    BooleanText(b, text);
    LeafReads(Bool(b), tag, text);
  }

  lemma BooleanText(b: bool, text: string)
    requires text == if b then "true" else "false"
    ensures Trim(text) == text && Lower(text) == text && text != ""
  {
    TrueAndFalse();
  }

  lemma LeafReads(v: Json, tag: string, text: string)
    requires (v.Bool? || v.Num? || v.Str?) && ToText(v) == text
    ensures Read(v, tag) == Some(LeafValue(tag, if text == "" then None else Some(text)))
  {
    assert Print(v, tag) == [Leaf(tag, text)];
    LeafRead(tag, text);
  }

  lemma LeafRead(tag: string, text: string)
    ensures ChildValue(Leaf(tag, text)) == LeafValue(tag, if text == "" then None else Some(text))
  {
    ChildlessRead(Leaf(tag, text));
  }

  // Of a list of scalars only the last one is left.
  lemma ScalarListReadsLast(items: seq<Json>, tag: string)
    requires items != [] && !items[0].Obj?
    ensures Read(List(items), tag) == Some(ChildValue(Leaf(tag, ToText(items[|items| - 1]))))
  {
    ScalarAt(items, tag, |items| - 1);
    assert Print(List(items), tag) == PrintScalars(items, tag);
  }

  lemma {:induction false} ScalarAt(items: seq<Json>, tag: string, i: nat)
    requires i < |items|
    ensures |PrintScalars(items, tag)| == |items| && PrintScalars(items, tag)[i] == Leaf(tag, ToText(items[i]))
  {
    ScalarTags(items, tag);
    if i > 0 {
      ScalarAt(items[1..], tag, i - 1);
    }
  }

  lemma OneChildRead(x: Xml)
    requires |x.children| == 1
    ensures ChildValue(x).List? <==> x.tag in LIST_CONTAINER_TAGS
  {
    assert !SameTags(x.children);
    assert IsListContainer(x) <==> x.tag in LIST_CONTAINER_TAGS;
  }

  // A list of one object comes back as a list under these keys, and as an object under others.
  lemma OneItemReadsAsList(tag: string, item: seq<Field>)
    ensures Read(List([Obj(item)]), tag).Some?
    ensures Read(List([Obj(item)]), tag).value.List? <==>
              tag in {"assetAdministrationShells", "submodels", "conceptDescriptions", "submodelElements", "value",
                      "keys", "description", "displayName", "extensions", "qualifiers", "embeddedDataSpecifications",
                      "specificAssetIds", "isCaseOf", "supplementalSemanticIds", "statements", "annotations",
                      "inputVariables", "outputVariables", "inoutputVariables", "valueList", "preferredName",
                      "shortName", "definition"}
  {
    var child := Elem(ItemTag(tag, item, item), None, PrintFields(item));
    var x := Elem(tag, None, [child]);
    var items := [Obj(item)];
    assert items[0] == Obj(item) && items[1..] == [];
    assert Print(Obj(item), ItemTag(tag, item, item)) == [child];
    AppendNothing([child]);
    assert PrintItems(items, tag, item) == [child] + PrintItems([], tag, item);
    assert Print(List([Obj(item)]), tag) == [x];
    OneChildRead(x);
  }

  // ---------------------------------------------------------------- text inside scalar lists

  // What a Python string literal stands for, between its quotes.
  function Unescaped(s: string): string {
    if s == "" then ""
    else if s[0] == '\\' && |s| > 1 then
      [match s[1] case 'n' => '\n' case 'r' => '\r' case 't' => '\t' case c => c] + Unescaped(s[2..])
    else [s[0]] + Unescaped(s[1..])
  }

  // The literal does not end early.
  predicate Unbroken(s: string, quote: char) {
    || s == ""
    || (s[0] == '\\' && |s| > 1 && Unbroken(s[2..], quote))
    || (s[0] != '\\' && s[0] != quote && Unbroken(s[1..], quote))
  }

  // A text inside another value is written as a literal that stands for it, in double quotes
  // if and only if it holds a single quote and no double one.
  lemma QuotedStandsFor(s: string)
    ensures var quote := if '\'' in s && '\"' !in s then '\"' else '\'';
            && |Quoted(s)| >= 2 && Quoted(s)[0] == quote && Quoted(s)[|Quoted(s)| - 1] == quote
            && Unescaped(Quoted(s)[1..|Quoted(s)| - 1]) == s && Unbroken(Quoted(s)[1..|Quoted(s)| - 1], quote)
  {
    var quote := if '\'' in s && '\"' !in s then '\"' else '\'';
    assert Quoted(s)[1..|Quoted(s)| - 1] == Escaped(s, quote);
    EscapedStandsFor(s, quote);
  }

  lemma {:induction false} EscapedStandsFor(s: string, quote: char)
    requires quote == '\'' || quote == '\"'
    ensures Unescaped(Escaped(s, quote)) == s && Unbroken(Escaped(s, quote), quote)
  {
    if s != "" {
      var rest := Escaped(s[1..], quote);
      EscapedStandsFor(s[1..], quote);
      HeadAndTail(s);
      var piece := EscapedChar(s, quote);
      PieceStandsFor(piece, s[0], quote, rest);
    }
  }

  // What one character is written as.
  predicate IsPiece(piece: string, c: char, quote: char) {
    || (piece == [c] && c != '\\' && c != quote)
    || (|piece| == 2 && piece[0] == '\\' && Unescaped(piece) == [c])
  }

  lemma EscapedChar(s: string, quote: char) returns (piece: string)
    requires s != "" && (quote == '\'' || quote == '\"')
    ensures Escaped(s, quote) == piece + Escaped(s[1..], quote) && IsPiece(piece, s[0], quote)
  {
    piece := match s[0]
      case '\n' => "\\n"
      case '\r' => "\\r"
      case '\t' => "\\t"
      case c => if c == quote || c == '\\' then ['\\', c] else [c];
    assert |piece| == 2 ==> piece[2..] == "";
  }

  lemma PieceStandsFor(piece: string, c: char, quote: char, rest: string)
    requires IsPiece(piece, c, quote) && Unbroken(rest, quote)
    ensures Unescaped(piece + rest) == [c] + Unescaped(rest) && Unbroken(piece + rest, quote)
  {
    assert (piece + rest)[|piece|..] == rest;
    if |piece| == 2 {
      assert piece[2..] == "" && (piece + rest)[1] == piece[1];
    }
  }

  function CommaJoin(texts: seq<string>): string {
    if texts == [] then "" else if |texts| == 1 then texts[0] else texts[0] + ", " + CommaJoin(texts[1..])
  }

  function Reprs(items: seq<Json>): (r: seq<string>)
    ensures |r| == |items| && forall i :: 0 <= i < |r| ==> r[i] == Repr(items[i])
  {
    seq(|items|, i requires 0 <= i < |items| => Repr(items[i]))
  }

  lemma {:induction false} ItemsJoined(items: seq<Json>)
    ensures ReprItems(items) == CommaJoin(Reprs(items))
  {
    if items != [] {
      ItemsJoined(items[1..]);
      assert Reprs(items)[1..] == Reprs(items[1..]);
      AppendNothing(Repr(items[0]));
    }
  }

  function Entries(fields: seq<Field>): (r: seq<string>)
    ensures |r| == |fields| && forall i :: 0 <= i < |r| ==> r[i] == Quoted(fields[i].key) + ": " + Repr(fields[i].value)
  {
    seq(|fields|, i requires 0 <= i < |fields| => Quoted(fields[i].key) + ": " + Repr(fields[i].value))
  }

  lemma {:induction false} EntriesJoined(fields: seq<Field>)
    ensures ReprFields(fields) == CommaJoin(Entries(fields))
  {
    if fields != [] {
      EntriesJoined(fields[1..]);
      assert Entries(fields)[1..] == Entries(fields[1..]);
      AppendNothing(Quoted(fields[0].key) + ": " + Repr(fields[0].value));
    }
  }

  // Other values there are written as Python writes them.
  lemma WrittenAsPython(b: bool, digits: string, items: seq<Json>, fields: seq<Field>)
    ensures ToText(Null) == "None" && Repr(Null) == "None" && ToText(Num(digits)) == digits
    ensures ToText(Bool(b)) == (if b then "true" else "false") && Repr(Bool(b)) == (if b then "True" else "False")
    ensures ToText(List(items)) == "[" + CommaJoin(Reprs(items)) + "]"
    ensures ToText(Obj(fields)) == "{" + CommaJoin(Entries(fields)) + "}"
  {
    ItemsJoined(items);
    EntriesJoined(fields);
  }
}

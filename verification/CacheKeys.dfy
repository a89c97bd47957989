// The cache key schema: distinct entries never share a key, and the invalidation glob of
// one submodel matches exactly the keys of its own elements.
module CacheKeys {
  import opened Wrappers
  import opened Sequences
  import opened Text
  import opened Ids

  const PREFIX := "titan"

  // Every key the schema can build; identifiers are already base64url encoded.
  datatype Key =
    | AasBytes(id: string)
    | AasEtag(id: string)
    | SubmodelBytes(id: string)
    | SubmodelEtag(id: string)
    | ConceptBytes(id: string)
    | ConceptEtag(id: string)
    | ElementValue(id: string, path: string)

  // _encode_component
  function EncodeComponent(value: string): (s: string)
    ensures forall i :: 0 <= i < |s| ==> InAlphabet(s[i])
  {
    if value == "" then "" else Base64Encode(Utf8Encode(value))
  }

  // {prefix}:{entity_type}:{identifier_b64}:{variant}
  function EntityKey(entityType: string, id: string, variant: string): string {
    PREFIX + ":" + entityType + ":" + id + ":" + variant
  }

  function Render(key: Key): string {
    match key
    case AasBytes(id) => EntityKey("aas", id, "bytes")
    case AasEtag(id) => EntityKey("aas", id, "etag")
    case SubmodelBytes(id) => EntityKey("sm", id, "bytes")
    case SubmodelEtag(id) => EntityKey("sm", id, "etag")
    case ConceptBytes(id) => EntityKey("cd", id, "bytes")
    case ConceptEtag(id) => EntityKey("cd", id, "etag")
    case ElementValue(id, path) => EntityKey("sm", id, "elem") + ":" + EncodeComponent(path) + ":" + "value"
  }

  // The fields between the colons.
  function Fields(key: Key): seq<string> {
    match key
    case AasBytes(id) => [PREFIX, "aas", id, "bytes"]
    case AasEtag(id) => [PREFIX, "aas", id, "etag"]
    case SubmodelBytes(id) => [PREFIX, "sm", id, "bytes"]
    case SubmodelEtag(id) => [PREFIX, "sm", id, "etag"]
    case ConceptBytes(id) => [PREFIX, "cd", id, "bytes"]
    case ConceptEtag(id) => [PREFIX, "cd", id, "etag"]
    case ElementValue(id, path) => [PREFIX, "sm", id, "elem", EncodeComponent(path), "value"]
  }

  // The keys as they are written.
  lemma KeyTexts(id: string)
    ensures Render(AasBytes(id)) == "titan:aas:" + (id + ":bytes")
    ensures Render(AasEtag(id)) == "titan:aas:" + (id + ":etag")
    ensures Render(SubmodelBytes(id)) == "titan:sm:" + (id + ":bytes")
    ensures Render(SubmodelEtag(id)) == "titan:sm:" + (id + ":etag")
    ensures Render(ConceptBytes(id)) == "titan:cd:" + (id + ":bytes")
    ensures Render(ConceptEtag(id)) == "titan:cd:" + (id + ":etag")
  {
    PairTexts("aas", id, "titan:aas:");
    PairTexts("sm", id, "titan:sm:");
    PairTexts("cd", id, "titan:cd:");
  }

  lemma PairTexts(entityType: string, id: string, front: string)
    requires front == "titan:" + entityType + ":"
    ensures EntityKey(entityType, id, "bytes") == front + (id + ":bytes")
    ensures EntityKey(entityType, id, "etag") == front + (id + ":etag")
  {
    Spelled(entityType, id, "bytes");
    Spelled(entityType, id, "etag");
    assert ":" + "bytes" == ":bytes" && ":" + "etag" == ":etag";
    Associative(id, ":", "bytes");
    Associative(id, ":", "etag");
  }

  lemma Spelled(entityType: string, id: string, variant: string)
    ensures EntityKey(entityType, id, variant) == "titan:" + entityType + ":" + (id + ":" + variant)
  {
    assert PREFIX + ":" == "titan:";
    Associative("titan:" + entityType + ":", id, ":");
    Associative("titan:" + entityType + ":", id + ":", variant);
  }

  // Encoded identifiers are over the base64url alphabet.
  predicate Encoded(id: string) {
    forall i :: 0 <= i < |id| ==> InAlphabet(id[i])
  }

  function Join(fields: seq<string>): string
    requires fields != []
  {
    if |fields| == 1 then fields[0] else fields[0] + ":" + Join(fields[1..])
  }

  lemma {:induction false} SplitJoin(fields: seq<string>)
    requires fields != [] && forall i :: 0 <= i < |fields| ==> ':' !in fields[i]
    ensures Split(Join(fields), ':') == fields
  {
    if |fields| == 1 {
      SplitPlain(fields[0], ':');
    } else {
      SplitJoin(fields[1..]);
      SplitAfter(fields[0], ':', Join(fields[1..]));
      assert [fields[0]] + fields[1..] == fields;
    }
  }

  lemma EncodedPlain(id: string)
    requires Encoded(id)
    ensures ':' !in id
  {
  }

  lemma JoinFour(a: string, b: string, c: string, d: string)
    ensures Join([a, b, c, d]) == a + ":" + b + ":" + c + ":" + d
  {
    assert [a, b, c, d][1..] == [b, c, d] && [b, c, d][1..] == [c, d] && [c, d][1..] == [d];
    assert Join([c, d]) == c + ":" + d;
    assert Join([b, c, d]) == b + ":" + (c + ":" + d);
  }

  lemma JoinSix(a: string, b: string, c: string, d: string, e: string, f: string)
    ensures Join([a, b, c, d, e, f]) == a + ":" + b + ":" + c + ":" + d + ":" + e + ":" + f
  {
    assert [a, b, c, d, e, f][1..] == [b, c, d, e, f] && [b, c, d, e, f][1..] == [c, d, e, f];
    JoinFour(c, d, e, f);
    assert Join([b, c, d, e, f]) == b + ":" + (c + ":" + d + ":" + e + ":" + f);
  }

  lemma RenderIsJoin(key: Key)
    ensures Render(key) == Join(Fields(key))
  {
    match key
    case AasBytes(id) => JoinFour(PREFIX, "aas", id, "bytes");
    case AasEtag(id) => JoinFour(PREFIX, "aas", id, "etag");
    case SubmodelBytes(id) => JoinFour(PREFIX, "sm", id, "bytes");
    case SubmodelEtag(id) => JoinFour(PREFIX, "sm", id, "etag");
    case ConceptBytes(id) => JoinFour(PREFIX, "cd", id, "bytes");
    case ConceptEtag(id) => JoinFour(PREFIX, "cd", id, "etag");
    case ElementValue(id, path) => JoinSix(PREFIX, "sm", id, "elem", EncodeComponent(path), "value");
  }

  lemma FieldsInjective(k: Key, l: Key)
    requires Fields(k) == Fields(l)
    ensures k == l
  {
    if k.ElementValue? {
      EncodeComponentInjective(k.path, l.path);
    }
  }

  lemma EncodeComponentInjective(p: string, q: string)
    requires EncodeComponent(p) == EncodeComponent(q)
    ensures p == q
  {
    assert Utf8Encode("") == [] && Base64Encode([]) == "";
    EncodeInjective(p, q);
  }

  // Distinct entries have distinct keys.
  lemma KeysDistinct(k: Key, l: Key)
    requires Encoded(k.id) && Encoded(l.id) && Render(k) == Render(l)
    ensures k == l
  {
    RenderSplits(k);
    RenderSplits(l);
    FieldsInjective(k, l);
  }

  lemma RenderSplits(k: Key)
    requires Encoded(k.id)
    ensures Split(Render(k), ':') == Fields(k)
  {
    RenderIsJoin(k);
    EncodedPlain(k.id);
    if k.ElementValue? {
      EncodedPlain(EncodeComponent(k.path));
    }
    SplitJoin(Fields(k));
  }

  // In particular for unencoded identifiers and paths of elements.
  lemma ElementKeysDistinct(submodel: string, path: string, otherSubmodel: string, otherPath: string)
    requires Render(ElementValue(EncodeId(submodel), path)) == Render(ElementValue(EncodeId(otherSubmodel), otherPath))
    ensures submodel == otherSubmodel && path == otherPath
  {
    KeysDistinct(ElementValue(EncodeId(submodel), path), ElementValue(EncodeId(otherSubmodel), otherPath));
    EncodeInjective(submodel, otherSubmodel);
  }

  // ---------------------------------------------------------------- parsing keys

  datatype ParsedKey = ParsedKey(prefix: string, entityType: string, id: string, variant: string)

  function ParseKey(key: string): Option<ParsedKey> {
    var parts := Split(key, ':');
    if |parts| < 4 || parts[0] != PREFIX then None
    else Some(ParsedKey(parts[0], parts[1], parts[2], parts[3]))
  }

  // parse_key recovers the entity and the identifier of every key of the schema.
  lemma ParseRendered(k: Key)
    requires Encoded(k.id)
    ensures ParseKey(Render(k)) == Some(ParsedKey(PREFIX, Fields(k)[1], k.id, Fields(k)[3]))
  {
    RenderSplits(k);
  }

  // Any text of colon-free fields is parsed if and only if it has at least four of them and
  // the first is the prefix of this schema; further fields are ignored.
  lemma ParsedExactly(fields: seq<string>)
    requires fields != [] && forall i :: 0 <= i < |fields| ==> ':' !in fields[i]
    ensures ParseKey(Join(fields))
            == if |fields| >= 4 && fields[0] == "titan" then Some(ParsedKey("titan", fields[1], fields[2], fields[3]))
               else None
  {
    SplitJoin(fields);
  }

  // ---------------------------------------------------------------- invalidation by glob

  // Glob matching of SCAN for '*', '?' and escapes; character classes are left out.
  predicate GlobMatch(pattern: string, s: string)
    decreases |pattern| + |s|
  {
    if pattern == "" then s == ""
    else if pattern[0] == '*' then GlobMatch(pattern[1..], s) || (s != "" && GlobMatch(pattern, s[1..]))
    else if s == "" then false
    else if pattern[0] == '?' then GlobMatch(pattern[1..], s[1..])
    else if pattern[0] == '\\' && |pattern| > 1 then pattern[1] == s[0] && GlobMatch(pattern[2..], s[1..])
    else pattern[0] == s[0] && GlobMatch(pattern[1..], s[1..])
  }

  function ElementPattern(submodel: string): string {
    EntityKey("sm", submodel, "elem") + ":*"
  }

  predicate Literal(s: string) {
    '*' !in s && '?' !in s && '\\' !in s && '[' !in s
  }

  lemma {:induction false} StarMatchesAll(s: string)
    ensures GlobMatch("*", s)
    decreases |s|
  {
    assert "*"[1..] == "";
    if s != "" {
      StarMatchesAll(s[1..]);
    }
  }

  // A literal followed by a star matches exactly the texts that start with the literal.
  lemma {:induction false} PrefixGlob(literal: string, s: string)
    requires Literal(literal)
    ensures GlobMatch(literal + "*", s) <==> literal <= s
    decreases |literal|
  {
    if literal == "" {
      assert literal + "*" == "*";
      StarMatchesAll(s);
    } else {
      assert literal[0] in literal && (literal + "*")[1..] == literal[1..] + "*";
      if s != "" {
        PrefixGlob(literal[1..], s[1..]);
        assert literal == [literal[0]] + literal[1..] && s == [s[0]] + s[1..];
      }
    }
  }

  lemma {:induction false} JoinPrefix(a: seq<string>, b: seq<string>)
    requires a != [] && b != []
    ensures Join(a + b) == Join(a) + ":" + Join(b)
  {
    if |a| == 1 {
      assert (a + b)[1..] == b;
    } else {
      assert (a + b)[1..] == a[1..] + b;
      JoinPrefix(a[1..], b);
      assert a[0] + ":" + (Join(a[1..]) + ":" + Join(b)) == a[0] + ":" + Join(a[1..]) + ":" + Join(b);
    }
  }

  // A key that starts with some fields and a colon has exactly those fields first.
  lemma {:induction false} PrefixFields(front: seq<string>, fields: seq<string>)
    requires front != [] && fields != []
    requires forall i :: 0 <= i < |front| ==> ':' !in front[i]
    requires forall i :: 0 <= i < |fields| ==> ':' !in fields[i]
    requires Join(front) + ":" <= Join(fields)
    ensures |front| < |fields| && front == fields[..|front|]
  {
    var rest := Join(fields)[|Join(front)| + 1..];
    assert Join(fields) == Join(front) + ":" + rest;
    SplitJoin(fields);
    SplitFront(front, rest);
    assert Split(rest, ':') != [];
    assert fields == front + Split(rest, ':');
  }

  lemma Regroup(a: string, b: string, c: string)
    ensures a + ":" + b + ":" + c == a + ":" + (b + ":" + c)
  {
  }

  lemma {:induction false} SplitFront(front: seq<string>, rest: string)
    requires front != [] && forall i :: 0 <= i < |front| ==> ':' !in front[i]
    ensures Split(Join(front) + ":" + rest, ':') == front + Split(rest, ':')
  {
    if |front| == 1 {
      SplitAfter(front[0], ':', rest);
      assert front == [front[0]];
    } else {
      var later := Join(front[1..]) + ":" + rest;
      SplitFront(front[1..], rest);
      Regroup(front[0], Join(front[1..]), rest);
      SplitAfter(front[0], ':', later);
      assert [front[0]] + (front[1..] + Split(rest, ':')) == front + Split(rest, ':');
    }
  }

  // Every character written with a backslash before it.
  function EscapeGlob(s: string): string {
    if s == "" then "" else ['\\', s[0]] + EscapeGlob(s[1..])
  }

  // Such a pattern matches that text alone, whatever characters it holds.
  lemma {:induction false} EscapedIsExact(s: string, t: string)
    ensures GlobMatch(EscapeGlob(s), t) <==> t == s
    decreases |s|
  {
    if s != "" {
      var pattern := EscapeGlob(s);
      assert pattern[2..] == EscapeGlob(s[1..]);
      if t != "" {
        EscapedIsExact(s[1..], t[1..]);
        HeadAndTail(s);
        HeadAndTail(t);
      }
    }
  }

  // A question mark stands for any one character.
  lemma {:induction false} QuestionMarks(n: nat, t: string)
    ensures GlobMatch(seq(n, i => '?'), t) <==> |t| == n
    decreases n
  {
    if n > 0 {
      assert seq(n, i => '?')[1..] == seq(n - 1, i => '?');
      if t != "" {
        QuestionMarks(n - 1, t[1..]);
      }
    }
  }

  // What comes before the star in the invalidation glob.
  function ElementPrefix(submodel: string): string {
    EntityKey("sm", submodel, "elem") + ":"
  }

  lemma PatternIsPrefix(submodel: string, s: string)
    requires Encoded(submodel)
    ensures GlobMatch(ElementPattern(submodel), s) <==> ElementPrefix(submodel) <= s
  {
    assert ElementPattern(submodel) == ElementPrefix(submodel) + "*";
    LiteralFront(submodel);
    PrefixGlob(ElementPrefix(submodel), s);
  }

  lemma OwnKeysMatch(key: Key)
    requires Encoded(key.id) && key.ElementValue?
    ensures ElementPrefix(key.id) <= Render(key)
  {
    var encoded := EncodeComponent(key.path);
    assert Render(key) == ElementPrefix(key.id) + (encoded + ":" + "value");
  }

  lemma OnlyOwnKeysMatch(submodel: string, key: Key)
    requires Encoded(submodel) && Encoded(key.id) && ElementPrefix(submodel) <= Render(key)
    ensures key.ElementValue? && key.id == submodel
  {
    var front := [PREFIX, "sm", submodel, "elem"];
    var fields := Fields(key);
    EncodedPlain(submodel);
    EncodedPlain(key.id);
    if key.ElementValue? {
      EncodedPlain(EncodeComponent(key.path));
    }
    JoinFour(PREFIX, "sm", submodel, "elem");
    RenderIsJoin(key);
    PrefixFields(front, fields);
    assert fields[2] == front[2] && fields[3] == front[3];
  }

  // The glob of a submodel matches all keys of its elements and no other key of the schema.
  lemma PatternIsExact(submodel: string, key: Key)
    requires Encoded(submodel) && Encoded(key.id)
    ensures GlobMatch(ElementPattern(submodel), Render(key)) <==> key.ElementValue? && key.id == submodel
  {
    PatternIsPrefix(submodel, Render(key));
    if key.ElementValue? && key.id == submodel {
      OwnKeysMatch(key);
    }
    if ElementPrefix(submodel) <= Render(key) {
      OnlyOwnKeysMatch(submodel, key);
    }
  }

  lemma LiteralFront(submodel: string)
    requires Encoded(submodel)
    ensures Literal(ElementPrefix(submodel))
  {
    assert forall c :: c in submodel ==> InAlphabet(c);
  }
}

// The template instantiator's own path parser and in-place setter, compared with the
// shared parser and update_element_value.
module Templates {
  import opened Wrappers
  import opened Sequences
  import opened Documents
  import opened Text
  import opened IdShortPath
  import opened Navigation
  import opened ElementOperations
  import opened LensLaws
  import opened PathCollection
  import opened ValuePatch

  // ---------------------------------------------------------------- parsing

  // A name with the list index that directly follows it, if any.
  datatype Pair = Pair(name: string, index: Option<int>)

  // path.replace("[", ".[")
  function DotBrackets(s: string): string {
    if s == "" then "" else (if s[0] == '[' then ".[" else [s[0]]) + DotBrackets(s[1..])
  }

  predicate IsIndexPiece(piece: string) {
    |piece| > 1 && piece[0] == '[' && piece[|piece| - 1] == ']'
  }

  function Pending(name: Option<string>): seq<Pair> {
    match name case None => [] case Some(n) => [Pair(n, None)]
  }

  function Chain(front: seq<Pair>, rest: Option<seq<Pair>>): Option<seq<Pair>> {
    match rest case None => None case Some(more) => Some(front + more)
  }

  // The pairs still to come while `name` waits for an index; None is a bad index.
  function PairsFrom(pieces: seq<string>, name: Option<string>): Option<seq<Pair>> {
    if pieces == [] then Some(Pending(name))
    else if pieces[0] == "" then PairsFrom(pieces[1..], name)
    else if IsIndexPiece(pieces[0]) then
      match PyInt(pieces[0][1..|pieces[0]| - 1]) {
        case None => None
        case Some(k) =>
          match name
          case None => PairsFrom(pieces[1..], None)
          case Some(n) => Chain([Pair(n, Some(k))], PairsFrom(pieces[1..], None))
      }
    else Chain(Pending(name), PairsFrom(pieces[1..], Some(pieces[0])))
  }

  // A malformed index makes the whole path empty.
  function TemplateParse(path: string): seq<Pair> {
    if path == "" then []
    else
      match PairsFrom(Split(DotBrackets(path), '.'), None)
      case None => []
      case Some(pairs) => pairs
  }

  lemma ChainChain(a: seq<Pair>, b: seq<Pair>, rest: Option<seq<Pair>>)
    ensures Chain(a, Chain(b, rest)) == Chain(a + b, rest)
    ensures Chain([], rest) == rest
  {
    if rest.Some? {
      assert a + (b + rest.value) == a + b + rest.value;
      assert [] + rest.value == rest.value;
    }
  }

  method ParsePath(path: string) returns (r: seq<Pair>)
    ensures r == TemplateParse(path)
  {
    if path == "" {
      return [];
    }
    var pieces := Split(DotBrackets(path), '.');
    r := [];
    var name: Option<string> := None;
    ChainChain([], [], PairsFrom(pieces, None));
    assert pieces[0..] == pieces;
    for k := 0 to |pieces|
      invariant PairsFrom(pieces, None) == Chain(r, PairsFrom(pieces[k..], name))
    {
      var piece := pieces[k];
      assert pieces[k..][0] == piece && pieces[k..][1..] == pieces[k + 1..];
      if piece == "" {
        continue;
      }
      if IsIndexPiece(piece) {
        var index := PyInt(piece[1..|piece| - 1]);
        if index.None? {
          return [];
        }
        if name.Some? {
          ChainChain(r, [Pair(name.value, index)], PairsFrom(pieces[k + 1..], None));
          r := r + [Pair(name.value, index)];
          name := None;
        }
      } else {
        ChainChain(r, Pending(name), PairsFrom(pieces[k + 1..], Some(piece)));
        if name.Some? {
          r := r + [Pair(name.value, None)];
        }
        assert name.None? ==> r + Pending(name) == r;
        name := Some(piece);
      }
    }
    if name.Some? {
      r := r + [Pair(name.value, None)];
    } else {
      assert r + [] == r;
    }
  }

  // ---------------------------------------------------------------- what the parser keeps

  // The pairs of a list of parts: a second index in a row is dropped.
  function PairUp(parts: seq<Part>, name: Option<string>): seq<Pair> {
    if parts == [] then Pending(name)
    else
      match parts[0]
      case Name(n) => Pending(name) + PairUp(parts[1..], Some(n))
      case Index(k) =>
        match name
        case None => PairUp(parts[1..], None)
        case Some(n) => [Pair(n, Some(k))] + PairUp(parts[1..], None)
  }

  // The parts that a list of pairs can express.
  function Unpair(pairs: seq<Pair>): seq<Part> {
    if pairs == [] then []
    else
      [Name(pairs[0].name)] + (match pairs[0].index case None => [] case Some(k) => [Index(k)]) + Unpair(pairs[1..])
  }

  function PieceText(part: Part): string {
    match part
    case Name(name) => name
    case Index(k) => "[" + NatToString(if k < 0 then 0 else k) + "]"
  }

  function PieceTexts(parts: seq<Part>): (r: seq<string>)
    ensures |r| == |parts| && forall i :: 0 <= i < |r| ==> r[i] == PieceText(parts[i])
  {
    seq(|parts|, i requires 0 <= i < |parts| => PieceText(parts[i]))
  }

  lemma {:induction false} DotBracketsAppend(a: string, b: string)
    ensures DotBrackets(a + b) == DotBrackets(a) + DotBrackets(b)
  {
    if a == "" {
      AppendNothing(b);
      AppendNothing(DotBrackets(b));
    } else {
      TailOfAppend(a, b);
      DotBracketsAppend(a[1..], b);
      Associative(if a[0] == '[' then ".[" else [a[0]], DotBrackets(a[1..]), DotBrackets(b));
    }
  }

  lemma {:induction false} DotBracketsPlain(s: string)
    requires '[' !in s
    ensures DotBrackets(s) == s
  {
    if s != "" {
      DotBracketsPlain(s[1..]);
      HeadAndTail(s);
    }
  }

  lemma DotBracketsOne(c: char)
    ensures DotBrackets([c]) == if c == '[' then ".[" else [c]
  {
    assert [c][1..] == "";
    AppendNothing(if c == '[' then ".[" else [c]);
  }

  lemma NamePlain(name: string)
    requires PlainName(name)
    ensures DotBrackets("." + name) == "." + name
  {
    DotBracketsPlain(name);
    DotBracketsAppend(".", name);
    DotBracketsOne('.');
  }

  lemma IndexPlain(digits: string)
    requires '[' !in digits
    ensures DotBrackets("[" + digits + "]") == "." + ("[" + digits + "]")
  {
    DotBracketsPlain(digits + "]");
    DotBracketsAppend("[", digits + "]");
    DotBracketsOne('[');
    Associative("[", digits, "]");
    Associative(".", "[", digits + "]");
    assert "." + "[" == ".[";
  }

  lemma PiecePlain(part: Part)
    requires PlainPart(part)
    ensures '.' !in PieceText(part) && DotBrackets(Piece(part)) == "." + PieceText(part)
  {
    match part
    case Name(name) => NamePlain(name);
    case Index(k) =>
      assert forall i :: 0 <= i < |NatToString(k)| ==> IsDigit(NatToString(k)[i]);
      IndexPlain(NatToString(k));
  }

  lemma {:induction false} SplitPrinted(text: string, parts: seq<Part>)
    requires '.' !in text && PlainParts(parts)
    ensures Split(text + DotBrackets(PrintTail(parts)), '.') == [text] + PieceTexts(parts)
    decreases |parts|
  {
    if parts == [] {
      assert text + DotBrackets("") == text;
      SplitPlain(text, '.');
    } else {
      var rest := DotBrackets(PrintTail(parts[1..]));
      assert PlainPart(parts[0]);
      DottedTail(text, parts);
      PiecePlain(parts[0]);
      SplitAfter(text, '.', PieceText(parts[0]) + rest);
      SplitPrinted(PieceText(parts[0]), parts[1..]);
      assert PieceTexts(parts) == [PieceText(parts[0])] + PieceTexts(parts[1..]);
    }
  }

  lemma DottedTail(text: string, parts: seq<Part>)
    requires parts != [] && PlainPart(parts[0])
    ensures text + DotBrackets(PrintTail(parts)) == text + "." + (PieceText(parts[0]) + DotBrackets(PrintTail(parts[1..])))
  {
    PiecePlain(parts[0]);
    DotBracketsAppend(Piece(parts[0]), PrintTail(parts[1..]));
    Regrouped(text, ".", PieceText(parts[0]), DotBrackets(PrintTail(parts[1..])));
  }

  lemma Regrouped(a: string, b: string, c: string, d: string)
    ensures a + (b + c + d) == a + b + (c + d)
  {
  }

  lemma {:induction false} PairsOfTexts(parts: seq<Part>, name: Option<string>)
    requires PlainParts(parts)
    ensures PairsFrom(PieceTexts(parts), name) == Some(PairUp(parts, name))
    decreases |parts|
  {
    if parts != [] {
      var texts := PieceTexts(parts);
      assert texts[1..] == PieceTexts(parts[1..]);
      assert PlainPart(parts[0]);
      match parts[0] {
        case Name(n) =>
          assert !IsIndexPiece(n);
          PairsOfTexts(parts[1..], Some(n));
        case Index(k) =>
          assert texts[0][1..|texts[0]| - 1] == NatToString(k);
          PyIntOfNat(k);
          PairsOfTexts(parts[1..], None);
      }
    }
  }

  // On printed paths the template parser yields the pairs of the parts.
  lemma TemplateParsePrint(parts: seq<Part>)
    requires parts != [] && parts[0].Name? && PlainParts(parts)
    ensures TemplateParse(Print(parts)) == PairUp(parts, None)
  {
    assert PlainPart(parts[0]);
    var name := parts[0].name;
    DotBracketsPlain(name);
    DotBracketsAppend(name, PrintTail(parts[1..]));
    SplitPrinted(name, parts[1..]);
    assert PieceTexts(parts) == [name] + PieceTexts(parts[1..]);
    PairsOfTexts(parts, None);
    assert Print(parts) != "";
  }

  lemma {:induction false} BadPiece(pieces: seq<string>, name: Option<string>, i: nat)
    requires i < |pieces| && IsIndexPiece(pieces[i]) && PyInt(pieces[i][1..|pieces[i]| - 1]) == None
    ensures PairsFrom(pieces, name) == None
    decreases i
  {
    if i > 0 {
      assert pieces[1..][i - 1] == pieces[i];
      BadPiece(pieces[1..], name, i - 1);
      BadPiece(pieces[1..], None, i - 1);
      BadPiece(pieces[1..], Some(pieces[0]), i - 1);
    }
  }

  // A bracket that int() cannot read, the empty one included, makes the whole path empty,
  // whatever comes before it.
  lemma BadIndexEmptiesPath(front: string, text: string)
    requires '.' !in text && '[' !in text && PyInt(text) == None
    ensures TemplateParse(front + ("[" + text + "]")) == []
  {
    var piece := "[" + text + "]";
    IndexPlain(text);
    DotBracketsAppend(front, piece);
    SplitJoined(DotBrackets(front), '.', piece);
    SplitPlain(piece, '.');
    assert piece[1..|piece| - 1] == text && piece[|piece| - 1] == ']' && piece[0] == '[';
    var pieces := Split(DotBrackets(front), '.') + [piece];
    BadPiece(pieces, None, |pieces| - 1);
  }

  predicate NoIndexAfterIndex(parts: seq<Part>) {
    forall i :: 0 < i < |parts| && parts[i].Index? ==> parts[i - 1].Name?
  }

  function Waiting(name: Option<string>): seq<Part> {
    match name case None => [] case Some(n) => [Name(n)]
  }

  lemma {:induction false} UnpairLength(parts: seq<Part>, name: Option<string>)
    ensures |Unpair(PairUp(parts, name))| <= |parts| + |Waiting(name)|
    decreases |parts|
  {
    if parts == [] {
      UnpairPending(name, []);
      assert Pending(name) + [] == Pending(name);
    } else if parts[0].Name? {
      UnpairLength(parts[1..], Some(parts[0].name));
      UnpairPending(name, PairUp(parts[1..], Some(parts[0].name)));
    } else {
      UnpairLength(parts[1..], None);
      if name.Some? {
        UnpairIndexed(parts, name);
      }
    }
  }

  lemma UnpairIndexed(parts: seq<Part>, name: Option<string>)
    requires parts != [] && parts[0].Index? && name.Some?
    ensures Unpair(PairUp(parts, name)) == [Name(name.value), parts[0]] + Unpair(PairUp(parts[1..], None))
  {
    var pair := Pair(name.value, Some(parts[0].index));
    assert ([pair] + PairUp(parts[1..], None))[1..] == PairUp(parts[1..], None);
    assert [Name(name.value)] + [parts[0]] == [Name(name.value), parts[0]];
  }

  // The template parser loses nothing exactly when no index follows an index.
  lemma {:induction false} UnpairPairUp(parts: seq<Part>, name: Option<string>)
    requires name.None? && parts != [] ==> parts[0].Name?
    ensures Unpair(PairUp(parts, name)) == Waiting(name) + parts <==> NoIndexAfterIndex(parts)
    decreases |parts|
  {
    if parts == [] {
      UnpairPending(name, []);
      assert Pending(name) + [] == Pending(name) && Waiting(name) + [] == Waiting(name);
    } else {
      var rest := parts[1..];
      assert [parts[0]] + rest == parts;
      TailPattern(parts);
      if parts[0].Name? {
        UnpairPairUp(rest, Some(parts[0].name));
        UnpairPending(name, PairUp(rest, Some(parts[0].name)));
        SameTail(Waiting(name), Unpair(PairUp(rest, Some(parts[0].name))), parts);
      } else {
        UnpairIndexed(parts, name);
        var front := [Name(name.value), parts[0]];
        assert Waiting(name) + parts == front + rest;
        SameTail(front, Unpair(PairUp(rest, None)), rest);
        if rest != [] && rest[0].Index? {
          UnpairLength(rest[1..], None);
        } else {
          UnpairPairUp(rest, None);
          assert [] + rest == rest;
        }
      }
    }
  }

  lemma SameTail(front: seq<Part>, a: seq<Part>, b: seq<Part>)
    ensures front + a == front + b <==> a == b
  {
    assert a == (front + a)[|front|..] && b == (front + b)[|front|..];
  }

  // Parsing a printed path with the template parser is lossless exactly when the path
  // has no list directly inside a list.
  lemma TemplateParseLossless(parts: seq<Part>)
    requires parts != [] && parts[0].Name? && PlainParts(parts)
    ensures Unpair(TemplateParse(Print(parts))) == parts <==> NoIndexAfterIndex(parts)
  {
    TemplateParsePrint(parts);
    UnpairPairUp(parts, None);
    assert [] + parts == parts;
  }

  lemma {:induction false} SecondIndexIgnored(parts: seq<Part>, k: int, l: int, name: Option<string>)
    ensures PairUp(parts + [Index(k), Index(l)], name) == PairUp(parts + [Index(k)], name)
    decreases |parts|
  {
    var a, b := parts + [Index(k), Index(l)], parts + [Index(k)];
    if parts == [] {
      assert a[1..] == [Index(l)] && b[1..] == [];
      assert PairUp([Index(l)], None) == PairUp([], None);
    } else {
      assert a[1..] == parts[1..] + [Index(k), Index(l)] && b[1..] == parts[1..] + [Index(k)];
      SecondIndexIgnored(parts[1..], k, l, if parts[0].Name? then Some(parts[0].name) else None);
    }
  }

  // An item of a list inside a list is addressed as if it were the inner list itself.
  lemma NestedItemMeansInnerList(parts: seq<Part>, k: nat, l: nat)
    requires parts != [] && parts[0].Name? && PlainParts(parts)
    ensures TemplateParse(Print(parts + [Index(k), Index(l)])) == TemplateParse(Print(parts + [Index(k)]))
  {
    SecondIndexIgnored(parts, k, l, None);
    TemplateParsePrint(parts + [Index(k), Index(l)]);
    TemplateParsePrint(parts + [Index(k)]);
  }

  lemma UnpairPending(name: Option<string>, rest: seq<Pair>)
    ensures Unpair(Pending(name) + rest) == (match name case None => [] case Some(n) => [Name(n)]) + Unpair(rest)
  {
    match name
    case None => assert [] + rest == rest; assert [] + Unpair(rest) == Unpair(rest);
    case Some(n) =>
      assert (Pending(name) + rest)[1..] == rest;
      assert [Name(n)] + [] == [Name(n)];
  }

  lemma TailPattern(parts: seq<Part>)
    requires parts != []
    ensures NoIndexAfterIndex(parts) <==>
            NoIndexAfterIndex(parts[1..]) && (|parts| > 1 && parts[1].Index? ==> parts[0].Name?)
  {
    if NoIndexAfterIndex(parts[1..]) && (|parts| > 1 && parts[1].Index? ==> parts[0].Name?) {
      forall i | 0 < i < |parts| && parts[i].Index? ensures parts[i - 1].Name? {
        if i > 1 {
          assert parts[1..][i - 1] == parts[i] && parts[1..][i - 2] == parts[i - 1];
        }
      }
    }
    if NoIndexAfterIndex(parts) {
      forall i | 0 < i < |parts[1..]| && parts[1..][i].Index? ensures parts[1..][i - 1].Name? {
        assert parts[i + 1] == parts[1..][i] && parts[i] == parts[1..][i - 1];
      }
    }
  }

  // ---------------------------------------------------------------- setting a value

  // The element whose value the setter assigns, below the list stored under `key`.
  function TemplatePos(c: Json, key: string, pairs: seq<Pair>): (r: Option<Pos>)
    ensures r.Some? ==> r.value != [] && ValidPos(c, r.value) && At(c, r.value).Obj?
    decreases |pairs|, 1
  {
    if pairs == [] then None
    else
      var kids := Kids(c, key);
      match Find(kids, Name(pairs[0].name))
      case None => None
      case Some(i) =>
        var below := TemplateFrom(kids[i], pairs[0].index, pairs[1..]);
        if below.Some? then AtAppend(c, [Step(key, i)], below.value); Down([Step(key, i)], below)
        else None
  }

  // From an element found by name: its index first, then the remaining pairs.
  function TemplateFrom(found: Json, index: Option<int>, rest: seq<Pair>): (r: Option<Pos>)
    requires found.Obj?
    ensures r.Some? ==> ValidPos(found, r.value) && At(found, r.value).Obj?
    decreases |rest|, 2
  {
    match index
    case Some(k) =>
      var items := Kids(found, "value");
      if !HasModelType(found, LIST) || !(0 <= k < |items|) || !items[k].Obj? then None
      else if rest == [] then Some([Step("value", k)])
      else
        var below := TemplatePos(items[k], "value", rest);
        if below.Some? then AtAppend(found, [Step("value", k)], below.value); Down([Step("value", k)], below)
        else None
    case None =>
      if rest == [] then Some([])
      else if IsBranch(found) then TemplatePos(found, "value", rest)
      else None
  }

  // The setter: whether it found its element, and the document afterwards.
  function TemplateSet(doc: Json, path: string, value: Json): (bool, Json) {
    match TemplatePos(doc, "submodelElements", TemplateParse(path))
    case None => (false, doc)
    case Some(pos) => (true, Put(doc, pos, SetValue(At(doc, pos), value)))
  }

  // What is left of the walk when `current` is the list under `key` of the element at `pos`.
  function Walk(doc: Json, pos: Pos, key: string, rest: seq<Pair>): Option<Pos>
    requires ValidPos(doc, pos)
  {
    Down(pos, TemplatePos(At(doc, pos), key, rest))
  }

  // Where the walk stands after a pair: done, or in the value list of the found element.
  function WalkOn(doc: Json, found: Option<Pos>, rest: seq<Pair>): Option<Pos>
    requires found.Some? ==> ValidPos(doc, found.value)
  {
    match found
    case None => None
    case Some(pos) => if rest == [] then Some(pos) else Walk(doc, pos, "value", rest)
  }

  // The index of a pair, applied to the element found by its name.
  method FollowIndex(doc: Json, pos: Pos, index: Option<int>, rest: seq<Pair>) returns (next: Option<Pos>)
    requires ValidPos(doc, pos) && At(doc, pos).Obj?
    ensures next.Some? ==> ValidPos(doc, next.value) && At(doc, next.value).Obj?
    ensures Down(pos, TemplateFrom(At(doc, pos), index, rest)) == WalkOn(doc, next, rest)
  {
    var found := At(doc, pos);
    if index.Some? {
      WalkIndex(found, pos, index.value, rest);
      var k := index.value;
      var items := Kids(found, "value");
      if !HasModelType(found, LIST) || !(0 <= k < |items|) || !items[k].Obj? {
        return None;
      }
      AtAppend(doc, pos, [Step("value", k)]);
      return Some(pos + [Step("value", k)]);
    }
    AppendNothing(pos);
    if rest != [] && !IsBranch(found) {
      return None;
    }
    next := Some(pos);
  }

  // One pair of the walk.
  method FollowPair(doc: Json, pos: Pos, key: string, pairs: seq<Pair>, n: nat) returns (next: Option<Pos>)
    requires ValidPos(doc, pos) && n < |pairs|
    ensures next.Some? ==> ValidPos(doc, next.value) && At(doc, next.value).Obj?
    ensures Walk(doc, pos, key, pairs[n..]) == WalkOn(doc, next, pairs[n + 1..])
  {
    WalkName(At(doc, pos), pos, key, pairs, n);
    var current := Kids(At(doc, pos), key);
    var i := ScanForPart(current, Name(pairs[n].name));
    if i.None? {
      return None;
    }
    AtAppend(doc, pos, [Step(key, i.value)]);
    next := FollowIndex(doc, pos + [Step(key, i.value)], pairs[n].index, pairs[n + 1..]);
  }

  // The in-place walk over the pairs.
  method SetValueAtPath(doc: Json, path: string, value: Json) returns (done: bool, after: Json)
    ensures (done, after) == TemplateSet(doc, path, value)
  {
    var pairs := ParsePath(path);
    var pos: Pos := [];
    var key := "submodelElements";
    ghost var whole := TemplatePos(doc, key, pairs);
    DownNil(whole);
    assert pairs[0..] == pairs;
    for n := 0 to |pairs|
      invariant ValidPos(doc, pos)
      invariant whole == Walk(doc, pos, key, pairs[n..])
    {
      var next := FollowPair(doc, pos, key, pairs, n);
      if next.None? {
        return false, doc;
      }
      pos := next.value;
      if n + 1 == |pairs| {
        return true, Put(doc, pos, SetValue(At(doc, pos), value));
      }
      key := "value";
    }
    return false, doc;
  }

  lemma DownDown(pos: Pos, step: Pos, below: Option<Pos>)
    ensures Down(pos, Down(step, below)) == Down(pos + step, below)
  {
    if below.Some? {
      assert pos + (step + below.value) == pos + step + below.value;
    }
  }

  // One turn of the walk: by name, then by the index.
  lemma WalkName(c: Json, pos: Pos, key: string, pairs: seq<Pair>, n: nat)
    requires n < |pairs|
    ensures Down(pos, TemplatePos(c, key, pairs[n..])) ==
            match Find(Kids(c, key), Name(pairs[n].name))
            case None => None
            case Some(i) => Down(pos + [Step(key, i)], TemplateFrom(Kids(c, key)[i], pairs[n].index, pairs[n + 1..]))
  {
    assert pairs[n..][0] == pairs[n] && pairs[n..][1..] == pairs[n + 1..];
    match Find(Kids(c, key), Name(pairs[n].name))
    case None =>
    case Some(i) => DownDown(pos, [Step(key, i)], TemplateFrom(Kids(c, key)[i], pairs[n].index, pairs[n + 1..]));
  }

  lemma WalkIndex(found: Json, pos: Pos, k: int, rest: seq<Pair>)
    requires found.Obj?
    ensures var items := Kids(found, "value");
            Down(pos, TemplateFrom(found, Some(k), rest)) ==
            if !HasModelType(found, LIST) || !(0 <= k < |items|) || !items[k].Obj? then None
            else if rest == [] then Some(pos + [Step("value", k)])
            else Down(pos + [Step("value", k)], TemplatePos(items[k], "value", rest))
  {
    var items := Kids(found, "value");
    if 0 <= k < |items| {
      DownDown(pos, [Step("value", k)], TemplatePos(items[k], "value", rest));
    }
  }

  // ---------------------------------------------------------------- agreement with the editor

  // The pairs of a path whose first part is a name.
  lemma PairUpHead(parts: seq<Part>)
    requires parts != [] && parts[0].Name?
    ensures var name := parts[0].name;
            PairUp(parts, None) ==
            if |parts| > 1 && parts[1].Index? then [Pair(name, Some(parts[1].index))] + PairUp(parts[2..], None)
            else [Pair(name, None)] + PairUp(parts[1..], None)
  {
    var name, rest := parts[0].name, parts[1..];
    AppendNothing(PairUp(rest, Some(name)));
    if |parts| > 1 {
      assert rest[0] == parts[1] && rest[1..] == parts[2..];
      if rest[0].Name? {
        AppendNothing(PairUp(rest[1..], Some(rest[0].name)));
      }
    } else {
      AppendNothing([Pair(name, None)]);
    }
  }

  lemma PairUpEmpty(parts: seq<Part>)
    requires parts != [] ==> parts[0].Name?
    ensures PairUp(parts, None) == [] <==> parts == []
  {
    if parts != [] {
      PairUpHead(parts);
    }
  }

  // The first step of the walk and of the reader, in parallel.
  lemma NavHead(c: Json, parts: seq<Part>)
    requires parts != []
    ensures NavPos(c, parts) ==
            match Find(NavKids(c), parts[0])
            case None => None
            case Some(i) => Down([Step(NavKey(c), i)], NavPos(NavKids(c)[i], parts[1..]))
  {
  }

  lemma OneStepPairs(parts: seq<Part>)
    requires parts != [] && parts[0].Name? && !(|parts| > 1 && parts[1].Index?)
    ensures PairUp(parts, None) != [] && PairUp(parts, None)[0] == Pair(parts[0].name, None)
    ensures PairUp(parts, None)[1..] == PairUp(parts[1..], None)
    ensures PairUp(parts[1..], None) == [] <==> |parts| == 1
  {
    PairUpHead(parts);
    PairUpEmpty(parts[1..]);
  }

  lemma TwoStepPairs(parts: seq<Part>)
    requires |parts| > 1 && parts[0].Name? && parts[1].Index? && NoIndexAfterIndex(parts)
    ensures PairUp(parts, None) != [] && PairUp(parts, None)[0] == Pair(parts[0].name, Some(parts[1].index))
    ensures PairUp(parts, None)[1..] == PairUp(parts[2..], None)
    ensures PairUp(parts[2..], None) == [] <==> |parts| == 2
  {
    PairUpHead(parts);
    assert |parts| > 2 ==> parts[2].Name?;
    PairUpEmpty(parts[2..]);
  }

  // A path that the collectors would print through this element: each part is the
  // component of the child it reaches.
  predicate Printed(c: Json, parts: seq<Part>)
    decreases |parts|
  {
    parts != [] ==>
      && ChildField(c) == Some("value") && NavKey(c) == "value"
      && (forall j :: 0 <= j < |Children(c)| ==> Children(c)[j].Obj?)
      && Find(Children(c), parts[0]).Some?
      && ChildPart(c, Find(Children(c), parts[0]).value) == Some(parts[0])
      && Printed(Children(c)[Find(Children(c), parts[0]).value], parts[1..])
  }

  // The same from the submodel, whose first level is its submodelElements.
  predicate PrintedFromRoot(doc: Json, parts: seq<Part>) {
    var elements := Kids(doc, "submodelElements");
    && parts != [] && parts[0].Name? && (forall j :: 0 <= j < |elements| ==> elements[j].Obj?)
    && Find(elements, parts[0]).Some?
    && Printed(elements[Find(elements, parts[0]).value], parts[1..])
  }

  // Along a printed path the setter arrives where the reader arrives.
  lemma {:induction false} SetterNamesPrinted(c: Json, parts: seq<Part>)
    requires Printed(c, parts) && parts != [] && parts[0].Name? && NoIndexAfterIndex(parts)
    ensures TemplatePos(c, "value", PairUp(parts, None)) == NavPos(c, parts)
    decreases |parts|, 0
  {
    NavHead(c, parts);
    assert [Name(parts[0].name)] + parts[1..] == parts;
    PairUpHead(parts);
    SetterFollowsPrinted(Children(c)[Find(Children(c), parts[0]).value], parts[0].name, parts[1..]);
  }

  lemma {:induction false} SetterFollowsPrinted(found: Json, name: string, parts: seq<Part>)
    requires found.Obj? && Printed(found, parts) && NoIndexAfterIndex([Name(name)] + parts)
    ensures PairUp([Name(name)] + parts, None) != []
    ensures var pairs := PairUp([Name(name)] + parts, None);
            TemplateFrom(found, pairs[0].index, pairs[1..]) == NavPos(found, parts)
    decreases |parts|, 1
  {
    var whole := [Name(name)] + parts;
    assert whole[1..] == parts;
    TailPattern(whole);
    if parts != [] && parts[0].Index? {
      TwoStepPairs(whole);
      NavHead(found, parts);
      TailPattern(parts);
      var child := Children(found)[Find(Children(found), parts[0]).value];
      assert whole[2..] == parts[1..];
      assert forall s: Step :: [s] + [] == [s];
      if |parts| > 1 {
        SetterNamesPrinted(child, parts[1..]);
      }
    } else {
      OneStepPairs(whole);
      if parts != [] {
        SetterNamesPrinted(found, parts);
      }
    }
  }

  lemma SetterReachesPrinted(doc: Json, parts: seq<Part>)
    requires PrintedFromRoot(doc, parts) && NoIndexAfterIndex(parts)
    ensures TemplatePos(doc, "submodelElements", PairUp(parts, None)) == NavPos(doc, parts)
  {
    NavHead(doc, parts);
    var elements := Kids(doc, "submodelElements");
    var i := Find(elements, parts[0]).value;
    assert [Name(parts[0].name)] + parts[1..] == parts;
    SetterFollowsPrinted(elements[i], parts[0].name, parts[1..]);
  }

  // The editor's container walk, one step down.
  lemma ContainerStep(c: Json, parts: seq<Part>, i: nat)
    requires |parts| > 1 && EditKey(c) == "value" && Find(Kids(c, "value"), parts[0]) == Some(i)
    requires ContainerPos(Kids(c, "value")[i], Init(parts[1..])).Some?
    ensures var up := ContainerPos(Kids(c, "value")[i], Init(parts[1..])).value;
            && ContainerPos(c, Init(parts)) == Some([Step("value", i)] + up)
            && At(c, [Step("value", i)] + up) == At(Kids(c, "value")[i], up)
  {
    var up := ContainerPos(Kids(c, "value")[i], Init(parts[1..])).value;
    assert Init(parts)[1..] == Init(parts[1..]) && Init(parts)[0] == parts[0];
    AtAppend(c, [Step("value", i)], up);
  }

  // The editor locates the end of a printed path where the reader arrives.
  lemma {:induction false} EditorFollowsPrinted(c: Json, parts: seq<Part>)
    requires Printed(c, parts) && parts != []
    ensures ContainerPos(c, Init(parts)).Some? && NavPos(c, parts).Some?
    ensures var up := ContainerPos(c, Init(parts)).value;
            var container := At(c, up);
            && IsBranch(container)
            && Scan(Kids(container, "value"), Last(parts), 0).Ok?
            && NavPos(c, parts).value == up + [Step("value", Scan(Kids(container, "value"), Last(parts), 0).value)]
    decreases |parts|
  {
    NavHead(c, parts);
    var i := Find(Children(c), parts[0]).value;
    assert Children(c) == Kids(c, "value") == NavKids(c) && EditKey(c) == "value";
    if |parts| == 1 {
      FindIsScan(Children(c), parts[0], 0);
      AppendNothing([Step("value", i)]);
    } else {
      EditorFollowsPrinted(Children(c)[i], parts[1..]);
      ContainerStep(c, parts, i);
      var up := ContainerPos(Children(c)[i], Init(parts[1..])).value;
      Associative([Step("value", i)], up, [Step("value", Scan(Kids(At(Children(c)[i], up), "value"), Last(parts), 0).value)]);
    }
  }

  lemma {:induction false} FindIsScan(items: seq<Json>, target: Part, start: nat)
    requires forall j :: 0 <= j < |items| ==> items[j].Obj?
    requires start <= |items| && FindFrom(items, target, start).Some?
    ensures Scan(items, target, start) == Ok(FindFrom(items, target, start).value)
    decreases |items| - start
  {
    if !Matches(items[start], start, target) {
      FindIsScan(items, target, start + 1);
    }
  }

  lemma EditorReachesPrinted(doc: Json, parts: seq<Part>)
    requires PrintedFromRoot(doc, parts)
    ensures NavPos(doc, parts).Some? && Locate(doc, parts) == Ok(NavPos(doc, parts).value)
  {
    NavHead(doc, parts);
    var elements := Kids(doc, "submodelElements");
    var i := Find(elements, parts[0]).value;
    if |parts| == 1 {
      FindIsScan(elements, parts[0], 0);
      assert Init(parts) == [];
      AppendNothing([Step("submodelElements", i)]);
    } else {
      EditorFollowsPrinted(elements[i], parts[1..]);
      LocateFromRoot(doc, parts, i);
    }
  }

  // The editor's walk starts with the first element.
  lemma LocateFromRoot(doc: Json, parts: seq<Part>, i: nat)
    requires |parts| > 1 && EditKey(doc) == "submodelElements" && Find(Kids(doc, "submodelElements"), parts[0]) == Some(i)
    requires var first := Kids(doc, "submodelElements")[i];
             ContainerPos(first, Init(parts[1..])).Some?
    requires var first := Kids(doc, "submodelElements")[i];
             var container := At(first, ContainerPos(first, Init(parts[1..])).value);
             IsBranch(container) && Scan(Kids(container, "value"), Last(parts), 0).Ok?
    ensures var first := Kids(doc, "submodelElements")[i];
            var up := ContainerPos(first, Init(parts[1..])).value;
            var k := Scan(Kids(At(first, up), "value"), Last(parts), 0).value;
            Locate(doc, parts) == Ok([Step("submodelElements", i)] + (up + [Step("value", k)]))
  {
    var step := [Step("submodelElements", i)];
    var first := Kids(doc, "submodelElements")[i];
    var up := ContainerPos(first, Init(parts[1..])).value;
    assert Init(parts)[1..] == Init(parts[1..]) && Init(parts)[0] == parts[0];
    assert ContainerPos(doc, Init(parts)) == Some(step + up);
    AtAppend(doc, step, up);
    assert At(doc, step) == first;
    var k := Scan(Kids(At(first, up), "value"), Last(parts), 0).value;
    Associative(step, up, [Step("value", k)]);
  }

  // ---------------------------------------------------------------- listed paths are printed paths

  predicate OnTree(c: Json, parts: seq<Part>)
    decreases |parts|
  {
    parts != [] ==>
      && WellFormedElement(c)
      && Find(Children(c), parts[0]).Some?
      && ChildPart(c, Find(Children(c), parts[0]).value) == Some(parts[0])
      && OnTree(Children(c)[Find(Children(c), parts[0]).value], parts[1..])
  }

  lemma {:induction false} ListedOnTree(elem: Json, parts: seq<Part>, path: string, e: Entry)
    requires WellFormedElement(elem) && e in EntriesOf(elem, parts, path)
    ensures parts <= e.parts && OnTree(elem, e.parts[|parts|..])
    decreases elem, |Children(elem)| + 1
  {
    if e != Entry(elem, parts, path) {
      ListedBelow(elem, parts, path, 0, e);
    }
  }

  lemma {:induction false} ListedBelow(elem: Json, parts: seq<Part>, path: string, i: nat, e: Entry)
    requires WellFormedElement(elem) && i <= |Children(elem)| && e in EntriesBelow(elem, parts, path, i)
    ensures parts <= e.parts && OnTree(elem, e.parts[|parts|..])
    decreases elem, |Children(elem)| - i
  {
    if e in EntriesAt(elem, parts, path, i) {
      ChildFound(elem, i);
      var part := ChildPart(elem, i).value;
      ListedOnTree(Children(elem)[i], parts + [part], path + Piece(part), e);
      var rest := e.parts[|parts|..];
      assert rest[0] == (parts + [part])[|parts|] && rest[1..] == e.parts[|parts + [part]|..];
    } else {
      ListedBelow(elem, parts, path, i + 1, e);
    }
  }

  lemma {:induction false} TreeIsPrinted(c: Json, parts: seq<Part>)
    requires OnTree(c, parts) && NavPos(c, parts).Some? && ThroughTreesOnly(NavPos(c, parts).value)
    ensures Printed(c, parts)
    decreases |parts|
  {
    if parts != [] {
      NavHead(c, parts);
      assert forall j :: 0 <= j < |Children(c)| ==> WellFormedElement(Children(c)[j]);
      var pos := NavPos(c, parts).value;
      assert pos[0].key == NavKey(c);
      var below := pos[1..];
      forall k | 0 <= k < |below| ensures below[k].key == "submodelElements" || below[k].key == "value" {
        assert below[k] == pos[k + 1];
      }
      TreeIsPrinted(Children(c)[Find(Children(c), parts[0]).value], parts[1..]);
    }
  }

  lemma {:induction false} RootListed(elements: seq<Json>, i: nat, e: Entry) returns (k: nat)
    requires i <= |elements| && e in RootEntries(elements, i)
    ensures k < |elements| && e in RootEntry(elements[k])
    decreases |elements| - i
  {
    if e in RootEntry(elements[i]) {
      k := i;
    } else {
      k := RootListed(elements, i + 1, e);
    }
  }

  // Every listed path of a well-formed submodel that passes only through collections
  // and lists is a printed path in the sense above.
  lemma ListedIsPrinted(doc: Json, e: Entry)
    requires WellFormedSubmodel(doc) && e in Entries(doc)
    requires NavPos(doc, e.parts).Some? ==> ThroughTreesOnly(NavPos(doc, e.parts).value)
    ensures PlainParts(e.parts) && e.path == Print(e.parts) && PrintedFromRoot(doc, e.parts)
  {
    RootsLeadBack(doc, 0);
    assert LeadsBack(doc, e);
    var elements := Kids(doc, "submodelElements");
    assert forall j :: 0 <= j < |elements| ==> WellFormedElement(elements[j]);
    var k := RootListed(elements, 0, e);
    var name := IdShort(elements[k]).value;
    NamedFind(elements, k);
    ListedOnTree(elements[k], [Name(name)], name, e);
    assert e.parts[0] == [Name(name)][0];
    NavHead(doc, e.parts);
    var pos := NavPos(doc, e.parts).value;
    var below := pos[1..];
    forall j | 0 <= j < |below| ensures below[j].key == "submodelElements" || below[j].key == "value" {
      assert below[j] == pos[j + 1];
    }
    TreeIsPrinted(elements[k], e.parts[1..]);
  }

  // The template setter finds its element and gives the same document as update_element_value.
  predicate Agree(doc: Json, path: string, value: Json) {
    UpdateValue(doc, path, value).Ok? && TemplateSet(doc, path, value) == (true, UpdateValue(doc, path, value).value)
  }

  // A dropped index leaves fewer levels.
  lemma {:induction false} UnpairShorter(parts: seq<Part>, name: Option<string>)
    requires (name.None? && parts != [] ==> parts[0].Name?) && !NoIndexAfterIndex(parts)
    ensures |Unpair(PairUp(parts, name))| < |Waiting(name)| + |parts|
    decreases |parts|
  {
    var rest := parts[1..];
    TailPattern(parts);
    if parts[0].Name? {
      UnpairShorter(rest, Some(parts[0].name));
      UnpairPending(name, PairUp(rest, Some(parts[0].name)));
    } else {
      UnpairIndexed(parts, name);
      if rest != [] && rest[0].Index? {
        UnpairLength(rest[1..], None);
      } else {
        UnpairShorter(rest, None);
      }
    }
  }

  lemma {:induction false} TemplateDepth(c: Json, key: string, pairs: seq<Pair>)
    requires TemplatePos(c, key, pairs).Some?
    ensures |TemplatePos(c, key, pairs).value| == |Unpair(pairs)|
    decreases |pairs|, 1
  {
    var i := Find(Kids(c, key), Name(pairs[0].name)).value;
    BelowDepth(Kids(c, key)[i], pairs[0].index, pairs[1..]);
  }

  lemma {:induction false} BelowDepth(found: Json, index: Option<int>, rest: seq<Pair>)
    requires found.Obj? && TemplateFrom(found, index, rest).Some?
    ensures |TemplateFrom(found, index, rest).value| == (if index.Some? then 1 else 0) + |Unpair(rest)|
    decreases |rest|, 2
  {
    if rest != [] {
      TemplateDepth(if index.Some? then Kids(found, "value")[index.value] else found, "value", rest);
    }
  }

  // An update strictly below an element keeps its value or puts a list there.
  lemma ValueAbove(c: Json, below: Pos, w: Json)
    requires ValidPos(c, below) && below != []
    ensures var now := Get(Put(c, below, w), "value"); now == Get(c, "value") || (now.Some? && now.value.Arr?)
  {
  }

  lemma UpdateBelow(doc: Json, p: Pos, below: Pos, w: Json)
    requires ValidPos(doc, p + below) && below != []
    ensures ValidPos(doc, p) && ValidPos(Put(doc, p + below, w), p)
    ensures var now := Get(At(Put(doc, p + below, w), p), "value");
            now == Get(At(doc, p), "value") || (now.Some? && now.value.Arr?)
  {
    PrefixValid(doc, p, below);
    PutAppend(doc, p, below, w);
    PutAt(doc, p, Put(At(doc, p), below, w));
    ValueAbove(At(doc, p), below, w);
  }

  lemma UpdateAtPrefix(doc: Json, p: Pos, q: Pos, w: Json)
    requires ValidPos(doc, p) && ValidPos(doc, q) && p <= q && |p| < |q|
    ensures ValidPos(Put(doc, q, w), p)
    ensures var now := Get(At(Put(doc, q, w), p), "value");
            now == Get(At(doc, p), "value") || (now.Some? && now.value.Arr?)
  {
    var below := q[|p|..];
    assert q == p + below;
    UpdateBelow(doc, p, below, w);
  }

  // An update at another, deeper position does not set the value of an element.
  lemma ValueElsewhere(doc: Json, p: Pos, q: Pos, w: Json)
    requires ValidPos(doc, p) && ValidPos(doc, q) && |p| < |q|
    ensures ValidPos(Put(doc, q, w), p)
    ensures var now := Get(At(Put(doc, q, w), p), "value");
            now == Get(At(doc, p), "value") || (now.Some? && now.value.Arr?)
  {
    if p <= q {
      UpdateAtPrefix(doc, p, q, w);
    } else {
      PutDisjoint(doc, q, w, p);
    }
  }

  lemma SetElsewhere(doc: Json, p: Pos, q: Pos, text: string)
    requires ValidPos(doc, p) && ValidPos(doc, q) && |p| < |q| && At(doc, p).Obj?
    requires Get(At(doc, p), "value") != Some(Str(text))
    ensures Put(doc, p, SetValue(At(doc, p), Str(text))) != Put(doc, q, SetValue(At(doc, q), Str(text)))
  {
    ValueElsewhere(doc, p, q, SetValue(At(doc, q), Str(text)));
    PutAt(doc, p, SetValue(At(doc, p), Str(text)));
    assert Get(SetValue(At(doc, p), Str(text)), "value") == Some(Str(text));
  }

  // What Agree says once the template pairs and the located position are known.
  lemma AgreeMeans(doc: Json, path: string, pairs: seq<Pair>, q: Pos, value: Json)
    requires TemplateParse(path) == pairs && LocatePath(doc, path) == Ok(q) && At(doc, q).Obj?
    ensures Agree(doc, path, value) <==>
            match TemplatePos(doc, "submodelElements", pairs)
            case None => false
            case Some(p) => Put(doc, p, SetValue(At(doc, p), value)) == Put(doc, q, SetValue(At(doc, q), value))
  {
    UpdateIsPut(doc, path, value, q);
  }

  lemma PrintedPathParses(doc: Json, parts: seq<Part>) returns (q: Pos)
    requires PlainParts(parts) && PrintedFromRoot(doc, parts)
    ensures TemplateParse(Print(parts)) == PairUp(parts, None)
    ensures NavPos(doc, parts) == Some(q) && |q| == |parts| && LocatePath(doc, Print(parts)) == Ok(q) && At(doc, q).Obj?
  {
    ParsePrint(parts);
    TemplateParsePrint(parts);
    EditorReachesPrinted(doc, parts);
    q := NavPos(doc, parts).value;
    NavReaches(doc, parts, q);
  }

  lemma PrintedAgree(doc: Json, parts: seq<Part>, value: Json)
    requires PlainParts(parts) && PrintedFromRoot(doc, parts) && NoIndexAfterIndex(parts)
    ensures Agree(doc, Print(parts), value)
  {
    var q := PrintedPathParses(doc, parts);
    SetterReachesPrinted(doc, parts);
    AgreeMeans(doc, Print(parts), PairUp(parts, None), q, value);
  }

  // With an index after an index the two disagree on some value, because they address
  // different levels.
  lemma PrintedDisagree(doc: Json, parts: seq<Part>) returns (value: Json)
    requires PlainParts(parts) && PrintedFromRoot(doc, parts) && !NoIndexAfterIndex(parts)
    ensures !Agree(doc, Print(parts), value)
  {
    var q := PrintedPathParses(doc, parts);
    var pairs := PairUp(parts, None);
    var found := TemplatePos(doc, "submodelElements", pairs);
    value := Str("");
    if found.Some? {
      value := if Get(At(doc, found.value), "value") == Some(Str("")) then Str("x") else Str("");
      UnpairShorter(parts, None);
      TemplateDepth(doc, "submodelElements", pairs);
      SetElsewhere(doc, found.value, q, value.s);
    }
    AgreeMeans(doc, Print(parts), pairs, q, value);
  }

  // Along a printed path the template setter and update_element_value give the same document
  // for every value if and only if the path has no list directly inside a list.
  lemma InterpretersAgree(doc: Json, parts: seq<Part>)
    requires PlainParts(parts) && PrintedFromRoot(doc, parts)
    ensures NoIndexAfterIndex(parts) <==> forall value :: Agree(doc, Print(parts), value)
  {
    if NoIndexAfterIndex(parts) {
      forall value ensures Agree(doc, Print(parts), value) {
        PrintedAgree(doc, parts, value);
      }
    } else {
      var value := PrintedDisagree(doc, parts);
    }
  }

  // The same for every listed path of a well-formed submodel.
  lemma ListedPathsAgree(doc: Json, e: Entry)
    requires WellFormedSubmodel(doc) && e in Entries(doc)
    requires NavPos(doc, e.parts).Some? ==> ThroughTreesOnly(NavPos(doc, e.parts).value)
    ensures NoIndexAfterIndex(e.parts) <==> forall value :: Agree(doc, e.path, value)
  {
    ListedIsPrinted(doc, e);
    InterpretersAgree(doc, e.parts);
  }
}

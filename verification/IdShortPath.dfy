// The idShortPath language: the printed form used by the collectors and the
// parser shared by navigation and editing.
module IdShortPath {
  import opened Wrappers
  import opened Text
  import opened Sequences

  datatype Part = Name(name: string) | Index(index: int)

  // ---------------------------------------------------------------- printing

  // What one more path component adds: ".name" or "[index]".
  function Piece(part: Part): string {
    match part
    case Name(name) => "." + name
    case Index(index) => "[" + NatToString(if index < 0 then 0 else index) + "]"
  }

  function PrintTail(parts: seq<Part>): string {
    if parts == [] then "" else Piece(parts[0]) + PrintTail(parts[1..])
  }

  // A path starts with a name; the empty list of parts is the submodel itself.
  function Print(parts: seq<Part>): string {
    if parts == [] || !parts[0].Name? then PrintTail(parts) else parts[0].name + PrintTail(parts[1..])
  }

  // idShorts that the path language can express.
  predicate PlainName(name: string) {
    name != "" && '.' !in name && '[' !in name
  }

  predicate PlainPart(part: Part) {
    match part
    case Name(name) => PlainName(name)
    case Index(index) => 0 <= index
  }

  predicate PlainParts(parts: seq<Part>) {
    forall i :: 0 <= i < |parts| ==> PlainPart(parts[i])
  }

  lemma {:induction false} PrintTailSnoc(parts: seq<Part>, part: Part)
    ensures PrintTail(parts + [part]) == PrintTail(parts) + Piece(part)
  {
    if parts == [] {
      AppendNothing([part]);
      AppendNothing(Piece(part));
      assert PrintTail([part][1..]) == "";
    } else {
      PrintTailSnoc(parts[1..], part);
      TailOfAppend(parts, [part]);
      Associative(Piece(parts[0]), PrintTail(parts[1..]), Piece(part));
    }
  }

  lemma PrintSnoc(parts: seq<Part>, part: Part)
    requires parts != [] && parts[0].Name?
    ensures Print(parts + [part]) == Print(parts) + Piece(part)
  {
    PrintTailSnoc(parts[1..], part);
    TailOfAppend(parts, [part]);
    Associative(parts[0].name, PrintTail(parts[1..]), Piece(part));
  }

  // ---------------------------------------------------------------- parsing

  function Flush(current: string): seq<Part> {
    if current == "" then [] else [Name(current)]
  }

  function Prepend(parts: seq<Part>, rest: Option<seq<Part>>): Option<seq<Part>> {
    match rest
    case None => None
    case Some(more) => Some(parts + more)
  }

  // Where the index text ends: at the first ']' or at the end of the path.
  function IndexEnd(s: string): (j: nat)
    ensures j <= |s| && ']' !in s[..j] && (j < |s| ==> s[j] == ']')
  {
    if s == "" || s[0] == ']' then 0 else 1 + IndexEnd(s[1..])
  }

  function From(s: string, i: nat): string {
    if i <= |s| then s[i..] else ""
  }

  // The parts still to be read when `current` holds the unfinished name;
  // None is the ValueError of a malformed index.
  function ParseFrom(s: string, current: string): Option<seq<Part>>
    decreases |s|
  {
    if s == "" then
      Some(Flush(current))
    else if s[0] == '.' then
      Prepend(Flush(current), ParseFrom(s[1..], ""))
    else if s[0] == '[' then
      var j := 1 + IndexEnd(s[1..]);
      match PyInt(s[1..j]) {
        case None => None
        case Some(index) => Prepend(Flush(current) + [Index(index)], ParseFrom(From(s, j + 1), ""))
      }
    else
      ParseFrom(s[1..], current + [s[0]])
  }

  function Parse(path: string): Option<seq<Part>> {
    ParseFrom(path, "")
  }

  lemma PrependPrepend(a: seq<Part>, b: seq<Part>, rest: Option<seq<Part>>)
    ensures Prepend(a, Prepend(b, rest)) == Prepend(a + b, rest)
  {
    if rest.Some? {
      assert a + (b + rest.value) == a + b + rest.value;
    }
  }

  lemma PrependNil(rest: Option<seq<Part>>)
    ensures Prepend([], rest) == rest
  {
    if rest.Some? {
      assert [] + rest.value == rest.value;
    }
  }

  // The result of the scanning loop from a state of its variables.
  function Todo(path: string, i: nat, parts: seq<Part>, current: string): Option<seq<Part>> {
    Prepend(parts, ParseFrom(From(path, i), current))
  }

  // One turn of the scanning loop at a '.', at a '[' and at any other character.
  lemma ScanDot(path: string, i: nat, parts: seq<Part>, current: string)
    requires i < |path| && path[i] == '.'
    ensures Todo(path, i, parts, current) == Todo(path, i + 1, parts + Flush(current), "")
  {
    assert From(path, i)[1..] == From(path, i + 1);
    PrependPrepend(parts, Flush(current), ParseFrom(From(path, i + 1), ""));
  }

  lemma IndexText(path: string, i: nat, j: nat)
    requires i < j <= |path| && ']' !in path[i + 1..j] && (j < |path| ==> path[j] == ']')
    ensures 1 + IndexEnd(From(path, i)[1..]) == j - i && From(path, i)[1..j - i] == path[i + 1..j]
    ensures From(From(path, i), j - i + 1) == From(path, j + 1)
  {
    IndexEndIs(path, i + 1, j);
    assert From(path, i)[1..] == path[i + 1..];
  }

  // What the parser does at a '[', given the index text and the rest of the path.
  lemma BracketStep(s: string, j: nat, current: string, text: string, rest: string)
    requires s != "" && s[0] == '[' && j == 1 + IndexEnd(s[1..])
    requires s[1..j] == text && From(s, j + 1) == rest
    ensures ParseFrom(s, current) ==
            match PyInt(text)
            case None => None
            case Some(k) => Prepend(Flush(current) + [Index(k)], ParseFrom(rest, ""))
  {
  }

  lemma ScanBracket(path: string, i: nat, j: nat, parts: seq<Part>, current: string)
    requires i < j <= |path| && path[i] == '['
    requires ']' !in path[i + 1..j] && (j < |path| ==> path[j] == ']')
    ensures Todo(path, i, parts, current) ==
            match PyInt(path[i + 1..j])
            case None => None
            case Some(k) => Todo(path, j + 1, parts + Flush(current) + [Index(k)], "")
  {
    IndexText(path, i, j);
    BracketStep(From(path, i), j - i, current, path[i + 1..j], From(path, j + 1));
    var k := PyInt(path[i + 1..j]);
    if k.Some? {
      PrependPrepend(parts, Flush(current) + [Index(k.value)], ParseFrom(From(path, j + 1), ""));
      Associative(parts, Flush(current), [Index(k.value)]);
    }
  }

  lemma ScanOther(path: string, i: nat, parts: seq<Part>, current: string)
    requires i < |path| && path[i] != '.' && path[i] != '['
    ensures Todo(path, i, parts, current) == Todo(path, i + 1, parts, current + [path[i]])
  {
    assert From(path, i)[1..] == From(path, i + 1);
  }

  lemma ScanEnd(path: string, i: nat, parts: seq<Part>, current: string)
    requires i >= |path|
    ensures Todo(path, i, parts, current) == Some(parts + Flush(current))
  {
  }

  // The scanner appends the name it has read, if any.
  method FlushName(parts: seq<Part>, current: string) returns (r: seq<Part>)
    ensures r == parts + Flush(current)
  {
    r := parts;
    if current != "" {
      r := r + [Name(current)];
    }
  }

  // The inner loop that looks for the ']' of an index.
  method FindBracket(path: string, start: nat) returns (j: nat)
    requires start <= |path|
    ensures start <= j <= |path| && ']' !in path[start..j] && (j < |path| ==> path[j] == ']')
  {
    j := start;
    while j < |path| && path[j] != ']'
      invariant start <= j <= |path|
      invariant ']' !in path[start..j]
    {
      j := j + 1;
    }
  }

  // The text up to the bracket as a number; None is the ValueError.
  method ReadIndex(path: string, i: nat, ghost parts: seq<Part>, ghost current: string)
      returns (j: nat, index: Option<int>)
    requires i < |path| && path[i] == '['
    ensures i < j <= |path|
    ensures Todo(path, i, parts, current) ==
            match index
            case None => None
            case Some(k) => Todo(path, j + 1, parts + Flush(current) + [Index(k)], "")
  {
    j := FindBracket(path, i + 1);
    ScanBracket(path, i, j, parts, current);
    index := PyInt(path[i + 1..j]);
  }

  // The scanning loop of the source, index by index.
  method ParseIdShortPath(path: string) returns (r: Option<seq<Part>>)
    ensures r == Parse(path)
  {
    var parts: seq<Part> := [];
    var current := "";
    var i := 0;
    assert From(path, 0) == path;
    PrependNil(Parse(path));
    while i < |path|
      invariant 0 <= i
      invariant Parse(path) == Todo(path, i, parts, current)
      decreases |path| - i
    {
      var ch := path[i];
      if ch == '.' {
        ScanDot(path, i, parts, current);
        parts := FlushName(parts, current);
        current := "";
      } else if ch == '[' {
        var j, index := ReadIndex(path, i, parts, current);
        parts := FlushName(parts, current);
        current := "";
        if index.None? {
          return None;
        }
        parts := parts + [Index(index.value)];
        i := j;
      } else {
        ScanOther(path, i, parts, current);
        current := current + [ch];
      }
      i := i + 1;
    }
    ScanEnd(path, i, parts, current);
    parts := FlushName(parts, current);
    r := Some(parts);
  }

  lemma {:induction false} IndexEndIs(path: string, i: nat, j: nat)
    requires i <= j <= |path| && ']' !in path[i..j] && (j < |path| ==> path[j] == ']')
    ensures IndexEnd(path[i..]) == j - i
    decreases j - i
  {
    if i < j {
      assert path[i] == path[i..j][0];
      assert path[i + 1..j] == path[i..j][1..];
      assert path[i..][1..] == path[i + 1..];
      IndexEndIs(path, i + 1, j);
    }
  }

  // ---------------------------------------------------------------- round trip

  lemma {:induction false} ParseName(name: string, rest: string, current: string)
    requires '.' !in name && '[' !in name
    ensures ParseFrom(name + rest, current) == ParseFrom(rest, current + name)
    decreases |name|
  {
    if name == "" {
      assert name + rest == rest && current + name == current;
    } else {
      assert (name + rest)[0] == name[0] && name[0] in name;
      assert (name + rest)[1..] == name[1..] + rest;
      ParseName(name[1..], rest, current + [name[0]]);
      assert current + [name[0]] + name[1..] == current + name;
    }
  }

  lemma ParseIndex(k: nat, rest: string, current: string)
    ensures ParseFrom(Piece(Index(k)) + rest, current) == Prepend(Flush(current) + [Index(k)], ParseFrom(rest, ""))
  {
    var digits := NatToString(k);
    var s := Piece(Index(k)) + rest;
    assert s[1..1 + |digits|] == digits && s[|digits| + 1] == ']';
    assert forall i :: 0 <= i < |digits| ==> IsDigit(digits[i]);
    IndexEndIs(s, 1, 1 + |digits|);
    PyIntOfNat(k);
    assert From(s, |digits| + 2) == rest;
  }

  lemma ParseDotted(name: string, rest: string, current: string)
    requires '.' !in name && '[' !in name
    ensures ParseFrom("." + name + rest, current) == Prepend(Flush(current), ParseFrom(rest, name))
  {
    var s := "." + name + rest;
    assert s[0] == '.' && s[1..] == name + rest;
    ParseName(name, rest, "");
    assert "" + name == name;
  }

  lemma {:induction false} ParsePrintTail(parts: seq<Part>, current: string)
    requires PlainParts(parts)
    ensures ParseFrom(PrintTail(parts), current) == Some(Flush(current) + parts)
    decreases |parts|
  {
    if parts == [] {
      assert Flush(current) + [] == Flush(current);
    } else {
      var rest := PrintTail(parts[1..]);
      assert PlainPart(parts[0]);
      assert [parts[0]] + parts[1..] == parts;
      if parts[0].Index? {
        ParseIndex(parts[0].index, rest, current);
        ParsePrintTail(parts[1..], "");
        AppendNothing(parts[1..]);
        Associative(Flush(current), [parts[0]], parts[1..]);
      } else {
        ParseDotted(parts[0].name, rest, current);
        ParsePrintTail(parts[1..], parts[0].name);
      }
    }
  }

  // Parsing undoes printing.
  lemma ParsePrint(parts: seq<Part>)
    requires PlainParts(parts) && (parts != [] ==> parts[0].Name?)
    ensures Parse(Print(parts)) == Some(parts)
  {
    if parts == [] {
      ParsePrintTail(parts, "");
    } else {
      assert PlainPart(parts[0]);
      ParseName(parts[0].name, PrintTail(parts[1..]), "");
      assert "" + parts[0].name == parts[0].name;
      ParsePrintTail(parts[1..], parts[0].name);
      assert [parts[0]] + parts[1..] == parts;
    }
  }

  // Distinct positions never share a printed path.
  lemma PrintInjective(p: seq<Part>, q: seq<Part>)
    requires PlainParts(p) && (p != [] ==> p[0].Name?)
    requires PlainParts(q) && (q != [] ==> q[0].Name?)
    requires Print(p) == Print(q)
    ensures p == q
  {
    ParsePrint(p);
    ParsePrint(q);
  }

  // Every '[' of the path has its ']'.
  predicate Closed(s: string)
    decreases |s|
  {
    s != "" ==>
      if s[0] == '[' then
        var j := 1 + IndexEnd(s[1..]);
        j < |s| && Closed(s[j + 1..])
      else
        Closed(s[1..])
  }

  function Snoc(rest: Option<seq<Part>>, part: Part): Option<seq<Part>> {
    match rest
    case None => None
    case Some(parts) => Some(parts + [part])
  }

  lemma PrependSnoc(front: seq<Part>, rest: Option<seq<Part>>, part: Part)
    ensures Prepend(front, Snoc(rest, part)) == Snoc(Prepend(front, rest), part)
  {
    if rest.Some? {
      Associative(front, rest.value, [part]);
    }
  }

  lemma ParsePiece(part: Part, current: string)
    requires PlainPart(part)
    ensures ParseFrom(Piece(part), current) == Some(Flush(current) + [part])
  {
    assert [part][1..] == [];
    AppendNothing(Piece(part));
    ParsePrintTail([part], current);
  }

  // An index text does not change when something is appended behind its ']'.
  lemma IndexTextOfAppend(s: string, more: string)
    requires s != "" && 1 + IndexEnd(s[1..]) < |s|
    ensures var j := 1 + IndexEnd(s[1..]);
            && 1 + IndexEnd((s + more)[1..]) == j && (s + more)[1..j] == s[1..j]
            && From(s + more, j + 1) == From(s, j + 1) + more
  {
    var j := 1 + IndexEnd(s[1..]);
    assert (s + more)[1..j] == s[1..j] == s[1..][..j - 1];
    IndexEndIs(s + more, 1, j);
  }

  lemma ExtendIndex(s: string, part: Part, current: string)
    requires s != "" && s[0] == '[' && 1 + IndexEnd(s[1..]) < |s|
    requires var rest := From(s, 2 + IndexEnd(s[1..]));
             ParseFrom(rest + Piece(part), "") == Snoc(ParseFrom(rest, ""), part)
    ensures ParseFrom(s + Piece(part), current) == Snoc(ParseFrom(s, current), part)
  {
    var j := 1 + IndexEnd(s[1..]);
    IndexTextOfAppend(s, Piece(part));
    var index := PyInt(s[1..j]);
    if index.Some? {
      PrependSnoc(Flush(current) + [Index(index.value)], ParseFrom(From(s, j + 1), ""), part);
    }
  }

  // Extending a path text by one component extends its parts by that component.
  lemma {:induction false} ParseExtend(s: string, part: Part, current: string)
    requires Closed(s) && PlainPart(part)
    ensures ParseFrom(s + Piece(part), current) == Snoc(ParseFrom(s, current), part)
    decreases |s|
  {
    if s == "" {
      AppendNothing(Piece(part));
      ParsePiece(part, current);
    } else {
      TailOfAppend(s, Piece(part));
      if s[0] == '.' {
        ParseExtend(s[1..], part, "");
        PrependSnoc(Flush(current), ParseFrom(s[1..], ""), part);
      } else if s[0] == '[' {
        var j := 1 + IndexEnd(s[1..]);
        ParseExtend(s[j + 1..], part, "");
        ExtendIndex(s, part, current);
      } else {
        ParseExtend(s[1..], part, current + [s[0]]);
      }
    }
  }

  lemma {:induction false} IndexEndLater(a: string, b: string)
    requires ']' !in a
    ensures IndexEnd(a + b) == |a| + IndexEnd(b)
  {
    if a == "" {
      AppendNothing(b);
    } else {
      TailOfAppend(a, b);
      IndexEndLater(a[1..], b);
    }
  }

  lemma FirstInText(a: string, b: string)
    requires ']' !in a && b != "" && b[0] != ']'
    ensures b[0] in (a + b)[..IndexEnd(a + b)]
  {
    IndexEndLater(a, b);
    assert (a + b)[..IndexEnd(a + b)][|a|] == b[0];
  }

  // After a '[' without its ']' another component makes the index unreadable.
  lemma UnclosedIndex(s: string, part: Part)
    requires s != "" && ']' !in s[1..] && PlainPart(part)
    ensures PyInt((s[1..] + Piece(part))[..IndexEnd(s[1..] + Piece(part))]) == None
  {
    var c := Piece(part)[0];
    assert c == '.' || c == '[';
    FirstInText(s[1..], Piece(part));
    NoNumber((s[1..] + Piece(part))[..IndexEnd(s[1..] + Piece(part))], c);
  }

  lemma IndexTextIs(t: string, rest: string)
    requires t != "" && t[1..] == rest
    ensures t[1..1 + IndexEnd(t[1..])] == rest[..IndexEnd(rest)]
  {
  }

  lemma UnclosedHere(s: string, part: Part, current: string)
    requires s != "" && s[0] == '[' && ']' !in s[1..] && PlainPart(part)
    ensures ParseFrom(s + Piece(part), current) == None
  {
    var all, tail := s + Piece(part), s[1..] + Piece(part);
    TailOfAppend(s, Piece(part));
    UnclosedIndex(s, part);
    IndexTextIs(all, tail);
    var j := 1 + IndexEnd(tail);
    BracketStep(all, j, current, tail[..j - 1], From(all, j + 1));
  }

  lemma UnclosedLater(s: string, part: Part, current: string)
    requires s != "" && s[0] == '[' && 1 + IndexEnd(s[1..]) < |s|
    requires ParseFrom(From(s, 2 + IndexEnd(s[1..])) + Piece(part), "") == None
    ensures ParseFrom(s + Piece(part), current) == None
  {
    var j := 1 + IndexEnd(s[1..]);
    TailOfAppend(s, Piece(part));
    IndexTextOfAppend(s, Piece(part));
    BracketStep(s + Piece(part), j, current, s[1..j], From(s, j + 1) + Piece(part));
  }

  // Extending a path text with an open '[' makes it unparsable.
  lemma {:induction false} ParseUnclosed(s: string, part: Part, current: string)
    requires !Closed(s) && PlainPart(part)
    ensures ParseFrom(s + Piece(part), current) == None
    decreases |s|
  {
    if s[0] == '[' {
      var j := 1 + IndexEnd(s[1..]);
      if j < |s| {
        ParseUnclosed(s[j + 1..], part, "");
        UnclosedLater(s, part, current);
      } else {
        assert s[1..][..j - 1] == s[1..];
        UnclosedHere(s, part, current);
      }
    } else {
      TailOfAppend(s, Piece(part));
      ParseUnclosed(s[1..], part, if s[0] == '.' then "" else current + [s[0]]);
    }
  }
}

// Decimal text: what an f-string prints for a list index, and what int() reads back.
module Text {
  import opened Wrappers

  function DigitChar(d: nat): (c: char)
    requires d < 10
    ensures IsDigit(c) && DigitValue(c) == d
  {
    '0' + d as char
  }

  predicate IsDigit(c: char) {
    '0' <= c <= '9'
  }

  function DigitValue(c: char): nat
    requires IsDigit(c)
  {
    c as int - '0' as int
  }

  // The decimal form of a list index.
  function NatToString(n: nat): (s: string)
    ensures s != "" && forall i :: 0 <= i < |s| ==> IsDigit(s[i])
  {
    if n < 10 then [DigitChar(n)] else NatToString(n / 10) + [DigitChar(n % 10)]
  }

  // White space that int() strips; the remaining Unicode spaces are left out.
  predicate IsSpace(c: char) {
    0x09 <= c as int <= 0x0d || 0x1c <= c as int <= 0x20 || c as int == 0x85 || c as int == 0xa0
  }

  function StripLeft(s: string): string {
    if s != "" && IsSpace(s[0]) then StripLeft(s[1..]) else s
  }

  function StripRight(s: string): string {
    if s != "" && IsSpace(s[|s| - 1]) then StripRight(s[..|s| - 1]) else s
  }

  // Digits with single underscores between them; afterDigit says whether the last character was a digit.
  function ParseDigits(s: string, acc: nat, afterDigit: bool): Option<nat> {
    if s == "" then
      if afterDigit then Some(acc) else None
    else if s[0] == '_' then
      if afterDigit then ParseDigits(s[1..], acc, false) else None
    else if IsDigit(s[0]) then
      ParseDigits(s[1..], 10 * acc + DigitValue(s[0]), true)
    else
      None
  }

  // Python's int(s): None stands for the ValueError.
  function PyInt(s: string): Option<int> {
    var t := StripRight(StripLeft(s));
    var signed := t != "" && (t[0] == '-' || t[0] == '+');
    match ParseDigits(if signed then t[1..] else t, 0, false)
    case None => None
    case Some(n) =>
      Some(if signed && t[0] == '-' then 0 - n as int else n as int)
  }

  lemma {:induction false} ParseDigitsAppend(s: string, d: char, acc: nat, afterDigit: bool)
    requires IsDigit(d) && forall i :: 0 <= i < |s| ==> IsDigit(s[i])
    requires s != ""
    ensures ParseDigits(s, acc, afterDigit).Some?
    ensures ParseDigits(s + [d], acc, afterDigit) ==
            Some(10 * ParseDigits(s, acc, afterDigit).value + DigitValue(d))
  {
    var next := 10 * acc + DigitValue(s[0]);
    assert (s + [d])[1..] == s[1..] + [d];
    if |s| == 1 {
      assert s[1..] == "";
      assert ParseDigits([d], next, true) == ParseDigits("", 10 * next + DigitValue(d), true);
    } else {
      ParseDigitsAppend(s[1..], d, next, true);
    }
  }

  lemma {:induction false} ParseDigitsOfNat(n: nat)
    ensures ParseDigits(NatToString(n), 0, false) == Some(n)
  {
    if n < 10 {
      assert ParseDigits("", n, true) == Some(n);
    } else {
      ParseDigitsOfNat(n / 10);
      ParseDigitsAppend(NatToString(n / 10), DigitChar(n % 10), 0, false);
    }
  }

  // Reading back a printed index gives the index.
  lemma PyIntOfNat(n: nat)
    ensures PyInt(NatToString(n)) == Some(n)
  {
    ParseDigitsOfNat(n);
    var s := NatToString(n);
    assert IsDigit(s[0]) && IsDigit(s[|s| - 1]);
    assert StripLeft(s) == s && StripRight(s) == s;
  }

  // The characters below 256 that int(), strip() and split() take for white space.
  lemma LatinSpaces(c: char)
    requires c < 256 as char
    ensures IsSpace(c) <==> c in "\t\n\U{b}\U{c}\r\U{1c}\U{1d}\U{1e}\U{1f} \U{85}\U{a0}"
  {
    var spaces := "\t\n\U{b}\U{c}\r\U{1c}\U{1d}\U{1e}\U{1f} \U{85}\U{a0}";
    assert spaces[0] == '\t' && spaces[1] == '\n' && spaces[2] == '\U{b}' && spaces[3] == '\U{c}' && spaces[4] == '\r';
    assert spaces[5] == '\U{1c}' && spaces[6] == '\U{1d}' && spaces[7] == '\U{1e}' && spaces[8] == '\U{1f}';
    assert spaces[9] == ' ' && spaces[10] == '\U{85}' && spaces[11] == '\U{a0}';
  }

  predicate Blank(s: string) {
    forall i :: 0 <= i < |s| ==> IsSpace(s[i])
  }

  lemma {:induction false} StripLeftBlank(blank: string, s: string)
    requires Blank(blank) && s != "" && !IsSpace(s[0])
    ensures StripLeft(blank + s) == s
  {
    if blank == "" {
      assert blank + s == s;
    } else {
      assert (blank + s)[1..] == blank[1..] + s;
      StripLeftBlank(blank[1..], s);
    }
  }

  lemma {:induction false} StripRightBlank(s: string, blank: string)
    requires Blank(blank) && s != "" && !IsSpace(s[|s| - 1])
    ensures StripRight(s + blank) == s
    decreases |blank|
  {
    if blank == "" {
      assert s + blank == s;
    } else {
      var shorter := blank[..|blank| - 1];
      assert (s + blank)[..|s + blank| - 1] == s + shorter;
      StripRightBlank(s, shorter);
    }
  }

  // int() reads a number with blanks around it and a sign before it.
  lemma PyIntSigned(left: string, sign: string, n: nat, right: string)
    requires Blank(left) && Blank(right) && (sign == "" || sign == "+" || sign == "-")
    ensures PyInt(left + (sign + NatToString(n) + right)) == Some(if sign == "-" then 0 - n as int else n as int)
  {
    var digits := NatToString(n);
    var signed := sign + digits;
    assert IsDigit(digits[0]) && signed[|signed| - 1] == digits[|digits| - 1] && IsDigit(digits[|digits| - 1]);
    assert (signed + right)[0] == signed[0] && !IsSpace(signed[0]);
    StripLeftBlank(left, signed + right);
    StripRightBlank(signed, right);
    ParseDigitsOfNat(n);
    assert sign == "" ==> signed == digits;
    assert sign != "" ==> signed[1..] == digits;
  }

  predicate Digits(s: string) {
    s != "" && forall i :: 0 <= i < |s| ==> IsDigit(s[i])
  }

  // A single underscore between digits does not count.
  lemma {:induction false} UnderscoreSkipped(a: string, b: string, acc: nat, afterDigit: bool)
    requires Digits(a) && Digits(b)
    ensures ParseDigits(a + "_" + b, acc, afterDigit) == ParseDigits(a + b, acc, afterDigit)
    decreases |a|
  {
    var next := 10 * acc + DigitValue(a[0]);
    assert (a + "_" + b)[1..] == a[1..] + "_" + b && (a + b)[1..] == a[1..] + b;
    if |a| == 1 {
      assert a[1..] + "_" + b == "_" + b && a[1..] + b == b && ("_" + b)[1..] == b;
      assert ParseDigits("_" + b, next, true) == ParseDigits(b, next, false);
      assert ParseDigits(b, next, false) == ParseDigits(b, next, true);
    } else {
      UnderscoreSkipped(a[1..], b, next, true);
    }
  }

  lemma {:induction false} DigitsOnly(s: string, acc: nat, afterDigit: bool, c: char)
    requires c in s && !IsDigit(c) && c != '_'
    ensures ParseDigits(s, acc, afterDigit) == None
    decreases |s|
  {
    if s[0] != c {
      assert c in s[1..];
      if s[0] == '_' {
        DigitsOnly(s[1..], acc, false, c);
      } else if IsDigit(s[0]) {
        DigitsOnly(s[1..], 10 * acc + DigitValue(s[0]), true, c);
      }
    }
  }

  lemma {:induction false} StripKeeps(s: string, c: char)
    requires c in s && !IsSpace(c)
    ensures c in StripLeft(s) && c in StripRight(s)
    decreases |s|
  {
    var i :| 0 <= i < |s| && s[i] == c;
    if IsSpace(s[0]) {
      assert s[1..][i - 1] == c;
      StripKeeps(s[1..], c);
    }
    if IsSpace(s[|s| - 1]) {
      assert s[..|s| - 1][i] == c;
      StripKeeps(s[..|s| - 1], c);
    }
  }

  // A number holds no other character than digits, underscores, a sign and spaces around it.
  lemma NoNumber(s: string, c: char)
    requires c in s && !IsSpace(c) && !IsDigit(c) && c != '_' && c != '-' && c != '+'
    ensures PyInt(s) == None
  {
    StripKeeps(s, c);
    StripKeeps(StripLeft(s), c);
    var t := StripRight(StripLeft(s));
    if t[0] == '-' || t[0] == '+' {
      assert c in t[1..];
      DigitsOnly(t[1..], 0, false, c);
    } else {
      DigitsOnly(t, 0, false, c);
    }
  }

  // ---------------------------------------------------------------- splitting

  // s.split(sep)
  function Split(s: string, sep: char): (r: seq<string>)
    ensures r != []
  {
    if s == "" then [""]
    else
      var rest := Split(s[1..], sep);
      if s[0] == sep then [""] + rest else [[s[0]] + rest[0]] + rest[1..]
  }

  lemma {:induction false} SplitAfter(a: string, sep: char, b: string)
    requires sep !in a
    ensures Split(a + [sep] + b, sep) == [a] + Split(b, sep)
  {
    var s := a + [sep] + b;
    if a == "" {
      assert s[1..] == b;
    } else {
      assert s[1..] == a[1..] + [sep] + b && s[0] == a[0] && a[0] in a;
      SplitAfter(a[1..], sep, b);
      assert ([a[1..]] + Split(b, sep))[1..] == Split(b, sep);
      assert [a[0]] + a[1..] == a;
    }
  }

  lemma SplitCons(c: char, s: string, sep: char)
    ensures Split([c] + s, sep)
            == if c == sep then [""] + Split(s, sep) else [[c] + Split(s, sep)[0]] + Split(s, sep)[1..]
  {
    assert ([c] + s)[1..] == s;
  }

  lemma FrontAppend(first: string, a: seq<string>, b: seq<string>)
    requires a != []
    ensures (a + b)[0] == a[0] && [first] + (a + b)[1..] == [first] + a[1..] + b
    ensures [first] + (a + b) == [first] + a + b
  {
  }

  lemma {:induction false} SplitJoined(a: string, sep: char, b: string)
    ensures Split(a + ([sep] + b), sep) == Split(a, sep) + Split(b, sep)
  {
    if a == "" {
      assert a + ([sep] + b) == [sep] + b;
      SplitCons(sep, b, sep);
    } else {
      var rest := a[1..] + ([sep] + b);
      assert a + ([sep] + b) == [a[0]] + rest;
      SplitCons(a[0], rest, sep);
      SplitJoined(a[1..], sep, b);
      var front := Split(a[1..], sep);
      FrontAppend(if a[0] == sep then "" else [a[0]] + front[0], front, Split(b, sep));
    }
  }

  lemma {:induction false} SplitPlain(a: string, sep: char)
    requires sep !in a
    ensures Split(a, sep) == [a]
  {
    if a != "" {
      assert a[0] in a && [a[0]] + a[1..] == a;
      SplitPlain(a[1..], sep);
    }
  }
}

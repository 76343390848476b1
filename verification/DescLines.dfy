/** What a description's text parses to, line by line. */
module DescLines {
  import opened Prelude
  import opened Desc

  // ─── one line ───

  lemma {:induction false} NoReturnStays(s: string)
    requires OneLine(s)
    ensures RemoveReturns(s) == s
  {
    if s != [] {
      NoReturnStays(s[1..]);
      assert [s[0]] + s[1..] == s;
    }
  }

  /** What a text of one line parses to. */
  function OfKind(k: Kind): DescParts {
    match k
    case Blank => DescParts("", [])
    case Intro(text) => DescParts(text, [])
    case Point(text) => DescParts("", [text])
  }

  lemma OneLineParses(line: string)
    requires OneLine(line)
    ensures Parse(line) == OfKind(Classify(line))
  {
    NoReturnStays(line);
    SplitNoBreak(line);
    var kinds := Kinds([line]);
    assert kinds == [Classify(line)];
    assert kinds[..0] == [];
    hide Classify;
    var none: seq<string> := [];
    assert IntroOf(kinds) == none + if kinds[0].Intro? then [kinds[0].text] else [];
    assert PointsOf(kinds) == none + if kinds[0].Point? then [kinds[0].text] else [];
  }

  // ─── white space ───

  /** White space and line ends by code point: U+0009 to U+000D, U+0020, U+00A0 and the wider ones. */
  predicate WhiteCode(n: int) {
    || 0x9 <= n <= 0xD || n == 0x20 || n == 0xA0 || n == 0x1680 || 0x2000 <= n <= 0x200A
    || n == 0x2028 || n == 0x2029 || n == 0x202F || n == 0x205F || n == 0x3000 || n == 0xFEFF
  }

  lemma SpacesAre(c: char)
    ensures IsSpace(c) <==> WhiteCode(c as int)
  {}

  lemma NoWordIsBullet(s: string)
    requires s != [] && s[0] == 'a'
    ensures LeadingSpaces(s) == 0 && MarkLength(s) == 0 && BulletLength(s) == None
  {
    assert s[0..] == s && LeadingDigits(s) == 0;
  }

  lemma WhiteAround(c: char)
    requires IsSpace(c)
    ensures Classify([c, 'a', c]) == Intro("a")
  {
    var line := [c, 'a'];
    assert [c, 'a', c][..2] == line && TrimEnd([c, 'a', c]) == line;
    assert line[1..] == "a";
    NoWordIsBullet("a");
    assert LeadingSpaces(line) == 1 && TrimStart(line) == "a" && TrimEnd("a") == "a";
    hide LeadingSpaces, MarkLength, TrimEnd, TrimStart;
    assert BulletLength(line) == None;
  }

  lemma OtherAround(c: char)
    requires !IsSpace(c)
    ensures Classify([c, 'a', c]) == Intro([c, 'a', c])
  {
    var line := [c, 'a', c];
    assert line[0..] == line && line[1..] == ['a', c];
    NoWordIsBullet(line[1..]);
    assert LeadingSpaces(line) == 0 && TrimEnd(line) == line;
    assert LeadingDigits(line) <= 1 && line[1] == 'a';
    hide LeadingSpaces, TrimEnd, LeadingDigits;
    assert MarkLength(line) <= 1;
    assert BulletLength(line) == None;
  }

  /** A character around a word is dropped exactly if it is white space. */
  lemma WhiteSpaceIsTrimmed(c: char)
    requires c != '\n' && c != '\r'
    ensures Parse([c, 'a', c]) == DescParts(if WhiteCode(c as int) then "a" else [c, 'a', c], [])
  {
    var line := [c, 'a', c];
    assert OneLine(line);
    SpacesAre(c);
    hide Parse, Classify, IsSpace, WhiteCode, OneLine;
    OneLineParses(line);
    if IsSpace(c) {
      WhiteAround(c);
    } else {
      OtherAround(c);
    }
  }

  // ─── bullets ───

  /** The seven characters that start a point: •, -, *, ✓, ✔, ▪ and ●. */
  predicate StartsPoint(c: char) {
    || c == '\U{2022}' || c == '-' || c == '*' || c == '\U{2713}' || c == '\U{2714}'
    || c == '\U{25AA}' || c == '\U{25CF}'
  }

  lemma EndsClean(front: string, p: string)
    requires CleanPoint(p)
    ensures TrimEnd(front + p) == front + p
  {
    var line := front + p;
    assert line[|line| - 1] == p[|p| - 1];
  }

  /** A line whose bullet is `front` and whose text is `p`. */
  lemma BulletLine(front: string, p: string)
    requires CleanPoint(p) && BulletLength(front + p) == Some(|front|)
    ensures Classify(front + p) == Point(p)
  {
    EndsClean(front, p);
    CleanIsTrimmed(p);
    assert (front + p)[|front|..] == p;
  }

  lemma PlainLine(front: string, p: string)
    requires CleanPoint(p) && BulletLength(front + p) == None && front != [] && !IsSpace(front[0])
    ensures Classify(front + p) == Intro(front + p)
  {
    EndsClean(front, p);
    var line := front + p;
    assert line[0] == front[0] && line[|line| - 1] == p[|p| - 1];
    CleanIsTrimmed(line);
  }

  lemma OneLineTogether(front: string, p: string)
    requires OneLine(front) && OneLine(p)
    ensures OneLine(front + p)
  {}

  /** A character, a space and a text: a point after one of the seven marks, a line of the intro after any other. */
  lemma MarkedLine(c: char, p: string)
    requires CleanPoint(p) && !IsSpace(c)
    ensures Parse([c, ' '] + p) == if StartsPoint(c) then DescParts("", [p]) else DescParts([c, ' '] + p, [])
  {
    var front := [c, ' '];
    var line := front + p;
    OneLineTogether(front, p);
    OneLineParses(line);
    MarkedBullet(c, p);
    if StartsPoint(c) {
      BulletLine(front, p);
    } else {
      PlainLine(front, p);
    }
  }

  lemma MarkedBullet(c: char, p: string)
    requires CleanPoint(p) && !IsSpace(c)
    ensures BulletLength([c, ' '] + p) == if StartsPoint(c) then Some(2) else None
  {
    var line := [c, ' '] + p;
    assert LeadingSpaces(line) == 0 && line[0..] == line;
    assert line[1..] == [' '] + p && line[1..][1..] == p;
    assert LeadingSpaces(p) == 0 && LeadingSpaces(line[1..]) == 1;
    assert LeadingDigits(line[1..]) == 0;
  }

  /** Without the space after it, a mark starts no point. */
  lemma MarkNeedsSpace(c: char, p: string)
    requires CleanPoint(p) && StartsPoint(c)
    ensures Parse([c] + p) == DescParts([c] + p, [])
  {
    var line := [c] + p;
    assert LeadingSpaces(line) == 0 && line[0..] == line && line[1..] == p && LeadingSpaces(p) == 0;
    OneLineTogether([c], p);
    OneLineParses(line);
    PlainLine([c], p);
  }

  predicate Numeral(d: string) {
    d != [] && forall i :: 0 <= i < |d| ==> '0' <= d[i] <= '9'
  }

  lemma {:induction false} DigitsAhead(d: string, rest: string)
    requires (forall i :: 0 <= i < |d| ==> '0' <= d[i] <= '9') && (rest == [] || !('0' <= rest[0] <= '9'))
    ensures LeadingDigits(d + rest) == |d|
  {
    if d == [] {
      assert d + rest == rest;
    } else {
      assert (d + rest)[1..] == d[1..] + rest;
      DigitsAhead(d[1..], rest);
    }
  }

  lemma NumberMark(d: string, sep: char, rest: string)
    requires Numeral(d) && (sep == '.' || sep == ')') && rest != [] && rest[0] == sep
    ensures LeadingSpaces(d + rest) == 0 && MarkLength(d + rest) == |d| + 1
  {
    DigitsAhead(d, rest);
    var line := d + rest;
    assert line[0] == d[0] && line[|d|] == sep;
    hide LeadingDigits;
  }

  /** The bullet of a line, its mark and the white space behind it given. */
  lemma BulletIs(line: string, mark: nat, spaces: nat)
    requires LeadingSpaces(line) == 0 && MarkLength(line) == mark && 0 < mark <= |line|
    requires LeadingSpaces(line[mark..]) == spaces && 0 < spaces
    ensures BulletLength(line) == Some(mark + spaces)
  {
    hide LeadingSpaces, MarkLength, IsSpace;
    var i := LeadingSpaces(line);
    assert line[i..] == line;
    var m := MarkLength(line[i..]);
    assert m == mark && i + m == mark;
    assert LeadingSpaces(line[i + m..]) == spaces;
  }

  lemma NumberedBullet(d: string, sep: char, p: string)
    requires CleanPoint(p) && Numeral(d) && (sep == '.' || sep == ')')
    ensures BulletLength(d + ([sep, ' '] + p)) == Some(|d| + 2)
  {
    var rest := [sep, ' '] + p;
    NumberMark(d, sep, rest);
    OneSpaceAhead(p);
    hide LeadingSpaces, MarkLength, Numeral, CleanPoint;
    assert (d + rest)[|d| + 1..] == [' '] + p;
    BulletIs(d + rest, |d| + 1, 1);
  }

  lemma OneSpaceAhead(p: string)
    requires CleanPoint(p)
    ensures LeadingSpaces([' '] + p) == 1
  {
    assert ([' '] + p)[1..] == p && LeadingSpaces(p) == 0;
  }

  lemma NoNumberMark(d: string, sep: char, p: string)
    requires CleanPoint(p) && Numeral(d) && !IsSpace(sep) && sep != '.' && sep != ')'
    ensures BulletLength(d + ([sep, ' '] + p)) == None
  {
    var rest := [sep, ' '] + p;
    var line := d + rest;
    if '0' <= sep <= '9' {
      assert line == (d + [sep]) + ([' '] + p);
      DigitsAhead(d + [sep], [' '] + p);
      assert line[|d| + 1] == ' ';
    } else {
      DigitsAhead(d, rest);
      assert line[|d|] == sep;
    }
    assert line[0] == d[0] && line[0..] == line;
    hide LeadingDigits;
  }

  /** A number, a dot or a bracket and a space start a point; with any other character in their middle they do not. */
  lemma NumberedLine(d: string, sep: char, p: string)
    requires CleanPoint(p) && Numeral(d) && !IsSpace(sep)
    ensures Parse(d + [sep, ' '] + p) ==
            if sep == '.' || sep == ')' then DescParts("", [p]) else DescParts(d + [sep, ' '] + p, [])
  {
    var front := d + [sep, ' '];
    Regrouped(d, [sep, ' '], p);
    assert OneLine(front);
    OneLineTogether(front, p);
    OneLineParses(front + p);
    if sep == '.' || sep == ')' {
      NumberedBullet(d, sep, p);
      BulletLine(front, p);
    } else {
      NoNumberMark(d, sep, p);
      PlainLine(front, p);
    }
  }

  // ─── several lines ───

  lemma {:induction false} ReturnsApart(a: string, b: string)
    ensures RemoveReturns(a + b) == RemoveReturns(a) + RemoveReturns(b)
  {
    if a == [] {
      assert a + b == b;
    } else {
      ReturnsApart(a[1..], b);
      assert (a + b)[1..] == a[1..] + b && (a + b)[0] == a[0];
      var head := if a[0] == '\r' then [] else [a[0]];
      var x, y := RemoveReturns(a[1..]), RemoveReturns(b);
      Regrouped(head, x, y);
    }
  }

  lemma Regrouped<T>(a: seq<T>, b: seq<T>, c: seq<T>)
    ensures a + (b + c) == (a + b) + c
  {}

  lemma {:induction false} LinesApart(a: string, b: string)
    ensures Split(a + (['\n'] + b)) == Split(a) + Split(b)
  {
    var whole := a + (['\n'] + b);
    if a == [] {
      assert whole == ['\n'] + b && whole[1..] == b;
    } else {
      assert whole[1..] == a[1..] + (['\n'] + b) && whole[0] == a[0];
      LinesApart(a[1..], b);
    }
  }

  lemma {:induction false} KindsApart(a: seq<Kind>, b: seq<Kind>)
    ensures IntroOf(a + b) == IntroOf(a) + IntroOf(b) && PointsOf(a + b) == PointsOf(a) + PointsOf(b)
  {
    if b == [] {
      assert a + b == a;
    } else {
      var n := |b| - 1;
      KindsApart(a, b[..n]);
      assert (a + b)[..|a + b| - 1] == a + b[..n];
    }
  }

  lemma {:induction false} JoinApart(a: seq<string>, b: seq<string>)
    ensures Join(a + b) == if a == [] then Join(b) else if b == [] then Join(a) else Join(a) + (['\n'] + Join(b))
  {
    if a == [] {
      assert a + b == b;
    } else if b == [] {
      assert a + b == a;
    } else {
      assert (a + b)[1..] == a[1..] + b;
      JoinApart(a[1..], b);
      if |a| > 1 {
        assert a[0] + (['\n'] + (Join(a[1..]) + (['\n'] + Join(b)))) == Join(a) + (['\n'] + Join(b));
      } else {
        assert a[1..] == [];
      }
    }
  }

  lemma {:induction false} NoEmptyIntro(kinds: seq<Kind>)
    requires forall k :: k in kinds && k.Intro? ==> k.text != []
    ensures Join(IntroOf(kinds)) == [] <==> IntroOf(kinds) == []
  {
    if kinds != [] {
      var n := |kinds| - 1;
      NoEmptyIntro(kinds[..n]);
      assert kinds[n] in kinds;
      JoinApart(IntroOf(kinds[..n]), if kinds[n].Intro? then [kinds[n].text] else []);
    }
  }

  /** Two intros, one below the other. */
  function Below(a: string, b: string): string {
    if a == [] then b else if b == [] then a else a + (['\n'] + b)
  }

  /** The kinds of the lines of a text. */
  function LineKinds(text: string): seq<Kind> {
    Kinds(Split(RemoveReturns(text)))
  }

  lemma KindsTogether(x: seq<string>, y: seq<string>)
    ensures Kinds(x + y) == Kinds(x) + Kinds(y)
  {
    hide Classify;
  }

  lemma LineKindsApart(a: string, b: string)
    ensures LineKinds(a + (['\n'] + b)) == LineKinds(a) + LineKinds(b)
  {
    assert RemoveReturns(['\n']) == ['\n'];
    hide RemoveReturns, Split, Classify, Kinds;
    ReturnsApart(a, ['\n'] + b);
    ReturnsApart(['\n'], b);
    LinesApart(RemoveReturns(a), RemoveReturns(b));
    KindsTogether(Split(RemoveReturns(a)), Split(RemoveReturns(b)));
  }

  lemma ParseIs(text: string)
    ensures Parse(text) == DescParts(Join(IntroOf(LineKinds(text))), PointsOf(LineKinds(text)))
  {}

  /** A text parses line by line: two texts, one below the other, give the intro of both and the points of both. */
  lemma ParseGoesByLine(a: string, b: string)
    ensures Parse(a + (['\n'] + b))
         == DescParts(Below(Parse(a).intro, Parse(b).intro), Parse(a).points + Parse(b).points)
  {
    LineKindsApart(a, b);
    ParseIs(a);
    ParseIs(b);
    ParseIs(a + (['\n'] + b));
    IntroIsEmpty(a);
    IntroIsEmpty(b);
    hide Parse, LineKinds, IntroOf, PointsOf, Join;
    KindsApart(LineKinds(a), LineKinds(b));
    JoinApart(IntroOf(LineKinds(a)), IntroOf(LineKinds(b)));
  }

  lemma IntroIsEmpty(a: string)
    ensures Join(IntroOf(LineKinds(a))) == [] <==> IntroOf(LineKinds(a)) == []
  {
    var lines := Split(RemoveReturns(a));
    forall k | k in Kinds(lines) && k.Intro?
      ensures k.text != []
    {
      var i :| 0 <= i < |lines| && Kinds(lines)[i] == k;
      assert k == Classify(lines[i]);
    }
    NoEmptyIntro(Kinds(lines));
  }

  // ─── printing ───

  /** A small description, printed: the intro, then each point behind its bullet on a line of its own. */
  lemma SmallDescription()
    ensures JoinDesc(DescParts("in", ["a", "b"])) == "in\n\U{2022} a\n\U{2022} b"
  {
    CleanIsTrimmed("in");
    CleanIsTrimmed("a");
    CleanIsTrimmed("b");
    var points := ["a", "b"];
    assert points[1..] == ["b"] && points[1..][1..] == [];
    assert BULLET + "a" == "\U{2022} a" && BULLET + "b" == "\U{2022} b";
    hide Trim;
    assert Body(points[1..][1..]) == [];
    assert Body(points[1..]) == ["\U{2022} b"];
    assert Body(points) == ["\U{2022} a", "\U{2022} b"];
    var lines := ["in", "\U{2022} a", "\U{2022} b"];
    assert lines[1..] == ["\U{2022} a", "\U{2022} b"] && lines[1..][1..] == ["\U{2022} b"];
    assert Join(lines[1..]) == "\U{2022} a\n\U{2022} b";
  }
}

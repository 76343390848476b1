/**
 * Product descriptions: intro lines and bullet points kept in one plain text.
 */
module Desc {
  import opened Prelude

  datatype DescParts = DescParts(intro: string, points: seq<string>)

  // ─── white space ───

  /** What `\s` and `trim` take for white space. */
  predicate IsSpace(c: char) {
    || ('\U{0009}' <= c <= '\U{000D}') || c == ' ' || c == '\U{00A0}' || c == '\U{1680}'
    || ('\U{2000}' <= c <= '\U{200A}') || c == '\U{2028}' || c == '\U{2029}' || c == '\U{202F}'
    || c == '\U{205F}' || c == '\U{3000}' || c == '\U{FEFF}'
  }

  function LeadingSpaces(s: string): (n: nat)
    ensures n <= |s|
    ensures forall i :: 0 <= i < n ==> IsSpace(s[i])
    ensures n < |s| ==> !IsSpace(s[n])
  {
    if s == [] || !IsSpace(s[0]) then 0 else 1 + LeadingSpaces(s[1..])
  }

  function TrimStart(s: string): string {
    s[LeadingSpaces(s)..]
  }

  function TrimEnd(s: string): (r: string)
    ensures r <= s
    ensures r != [] ==> !IsSpace(r[|r| - 1])
  {
    if s == [] || !IsSpace(s[|s| - 1]) then s else TrimEnd(s[..|s| - 1])
  }

  function Trim(s: string): string {
    TrimEnd(TrimStart(s))
  }

  // ─── bullets ───

  predicate IsMark(c: char) {
    c in {'\U{2022}', '-', '*', '\U{2713}', '\U{2714}', '\U{25AA}', '\U{25CF}'}
  }

  function LeadingDigits(s: string): (n: nat)
    ensures n <= |s|
  {
    if s == [] || !('0' <= s[0] <= '9') then 0 else 1 + LeadingDigits(s[1..])
  }

  /** Length of a bullet mark or of a number with a dot or bracket; zero when there is none. */
  function MarkLength(s: string): (n: nat)
    ensures n <= |s|
  {
    if s == [] then 0
    else if IsMark(s[0]) then 1
    else
      var d := LeadingDigits(s);
      if 0 < d < |s| && (s[d] == '.' || s[d] == ')') then d + 1 else 0
  }

  /** Length of the bullet a line starts with, with the white space around it. */
  function BulletLength(line: string): (n: Option<nat>)
    ensures n.Some? ==> n.value <= |line|
  {
    var i := LeadingSpaces(line);
    var m := MarkLength(line[i..]);
    if m == 0 then None
    else
      var k := LeadingSpaces(line[i + m..]);
      if k == 0 then None else Some(i + m + k)
  }

  // ─── lines ───

  function RemoveReturns(s: string): string {
    if s == [] then [] else (if s[0] == '\r' then [] else [s[0]]) + RemoveReturns(s[1..])
  }

  function Split(s: string): (lines: seq<string>)
    ensures lines != []
  {
    if s == [] then [[]]
    else
      var rest := Split(s[1..]);
      if s[0] == '\n' then [[]] + rest else [[s[0]] + rest[0]] + rest[1..]
  }

  function Join(lines: seq<string>): string {
    if lines == [] then []
    else if |lines| == 1 then lines[0]
    else lines[0] + ['\n'] + Join(lines[1..])
  }

  // ─── parsing ───

  /** What one line of a text is. */
  datatype Kind = Blank | Intro(text: string) | Point(text: string)

  function Classify(raw: string): Kind {
    var line := TrimEnd(raw);
    var bullet := BulletLength(line);
    if bullet.Some? then
      var p := Trim(line[bullet.value..]);
      if p != [] then Point(p) else Blank
    else if Trim(line) != [] then Intro(Trim(line))
    else Blank
  }

  function Kinds(lines: seq<string>): (kinds: seq<Kind>)
    ensures |kinds| == |lines|
  {
    seq(|lines|, i requires 0 <= i < |lines| => Classify(lines[i]))
  }

  function IntroOf(kinds: seq<Kind>): seq<string> {
    if kinds == [] then []
    else
      var n := |kinds| - 1;
      IntroOf(kinds[..n]) + if kinds[n].Intro? then [kinds[n].text] else []
  }

  function PointsOf(kinds: seq<Kind>): seq<string> {
    if kinds == [] then []
    else
      var n := |kinds| - 1;
      PointsOf(kinds[..n]) + if kinds[n].Point? then [kinds[n].text] else []
  }

  function Parse(text: string): DescParts {
    var kinds := Kinds(Split(RemoveReturns(text)));
    DescParts(Join(IntroOf(kinds)), PointsOf(kinds))
  }

  lemma KindsNext(kinds: seq<Kind>, i: nat)
    requires i < |kinds|
    ensures IntroOf(kinds[..i + 1]) == IntroOf(kinds[..i]) + if kinds[i].Intro? then [kinds[i].text] else []
    ensures PointsOf(kinds[..i + 1]) == PointsOf(kinds[..i]) + if kinds[i].Point? then [kinds[i].text] else []
  {
    assert kinds[..i + 1][..i] == kinds[..i];
  }

  method ParseDesc(text: Option<string>) returns (parts: DescParts)
    ensures parts == Parse(if text.Some? then text.value else "")
  {
    var lines := Split(RemoveReturns(if text.Some? then text.value else ""));
    ghost var kinds := Kinds(lines);
    var intro: seq<string>, points: seq<string> := [], [];
    for i := 0 to |lines|
      invariant intro == IntroOf(kinds[..i]) && points == PointsOf(kinds[..i])
    {
      KindsNext(kinds, i);
      assert kinds[i] == Classify(lines[i]);
      var line := TrimEnd(lines[i]);
      var bullet := BulletLength(line);
      if bullet.Some? {
        var p := Trim(line[bullet.value..]);
        if p != [] {
          points := points + [p];
        }
      } else if Trim(line) != [] {
        intro := intro + [Trim(line)];
      }
    }
    assert kinds[..|lines|] == kinds;
    parts := DescParts(Join(intro), points);
  }

  // ─── printing ───

  const BULLET: string := "\U{2022} "

  function Body(points: seq<string>): seq<string> {
    if points == [] then []
    else (if Trim(points[0]) == [] then [] else [BULLET + Trim(points[0])]) + Body(points[1..])
  }

  function JoinDesc(d: DescParts): string {
    Join((if Trim(d.intro) == [] then [] else [Trim(d.intro)]) + Body(d.points))
  }

  // ─── canonical descriptions ───

  predicate OneLine(s: string) {
    forall i :: 0 <= i < |s| ==> s[i] != '\n' && s[i] != '\r'
  }

  /** Non-empty text on one line with no white space at either end. */
  predicate CleanPoint(p: string) {
    p != [] && OneLine(p) && !IsSpace(p[0]) && !IsSpace(p[|p| - 1])
  }

  predicate CleanIntroLine(l: string) {
    CleanPoint(l) && BulletLength(l).None?
  }

  predicate AllClean(points: seq<string>) {
    forall i :: 0 <= i < |points| ==> CleanPoint(points[i])
  }

  predicate AllIntro(lines: seq<string>) {
    forall i :: 0 <= i < |lines| ==> CleanIntroLine(lines[i])
  }

  predicate Canonical(d: DescParts) {
    (d.intro == [] || AllIntro(Split(d.intro))) && AllClean(d.points)
  }

  // ─── trimming ───

  lemma CleanIsTrimmed(s: string)
    requires s != [] && !IsSpace(s[0]) && !IsSpace(s[|s| - 1])
    ensures Trim(s) == s && TrimEnd(s) == s && LeadingSpaces(s) == 0
  {}

  lemma TrimmedEnds(s: string)
    ensures var t := Trim(s); t != [] ==> !IsSpace(t[0]) && !IsSpace(t[|t| - 1])
  {
    var a := TrimStart(s);
    var t := Trim(s);
    if t != [] {
      assert t <= a;
      assert t[0] == a[0];
    }
  }

  lemma TrimKeepsOneLine(s: string)
    requires OneLine(s)
    ensures OneLine(TrimEnd(s)) && OneLine(Trim(s))
  {
    var a := TrimStart(s);
    assert forall i :: 0 <= i < |a| ==> a[i] == s[LeadingSpaces(s) + i];
    assert TrimEnd(s) <= s && Trim(s) <= a;
  }

  // ─── splitting and joining ───

  predicate NoBreak(s: string) {
    forall i :: 0 <= i < |s| ==> s[i] != '\n'
  }

  lemma {:induction false} SplitNoBreak(s: string)
    requires NoBreak(s)
    ensures Split(s) == [s]
  {
    if s != [] {
      SplitNoBreak(s[1..]);
      assert [s[0]] + s[1..] == s;
    }
  }

  lemma {:induction false} SplitLine(s: string, rest: string)
    requires NoBreak(s)
    ensures Split(s + (['\n'] + rest)) == [s] + Split(rest)
  {
    var whole := s + (['\n'] + rest);
    if s == [] {
      assert whole == ['\n'] + rest;
      assert whole[1..] == rest;
    } else {
      SplitLine(s[1..], rest);
      assert whole[1..] == s[1..] + (['\n'] + rest);
      assert [s[0]] + s[1..] == s;
      assert ([s[1..]] + Split(rest))[1..] == Split(rest);
    }
  }

  lemma {:induction false} SplitJoin(lines: seq<string>)
    requires lines != [] && forall i :: 0 <= i < |lines| ==> NoBreak(lines[i])
    ensures Split(Join(lines)) == lines
  {
    if |lines| == 1 {
      SplitNoBreak(lines[0]);
      assert lines == [lines[0]];
    } else {
      SplitJoin(lines[1..]);
      assert Join(lines) == lines[0] + (['\n'] + Join(lines[1..]));
      SplitLine(lines[0], Join(lines[1..]));
      assert lines == [lines[0]] + lines[1..];
    }
  }

  lemma {:induction false} JoinSplit(s: string)
    ensures Join(Split(s)) == s
  {
    if s != [] {
      var rest := Split(s[1..]);
      JoinSplit(s[1..]);
      if s[0] == '\n' {
        assert ([[]] + rest)[1..] == rest;
        assert [] + ['\n'] + s[1..] == s;
      } else if |rest| == 1 {
        assert [s[0]] + s[1..] == s;
      } else {
        var lines := [[s[0]] + rest[0]] + rest[1..];
        assert lines[1..] == rest[1..];
        assert ([s[0]] + rest[0]) + ['\n'] + Join(rest[1..]) == [s[0]] + (rest[0] + ['\n'] + Join(rest[1..]));
        assert [s[0]] + s[1..] == s;
      }
    }
  }

  lemma {:induction false} JoinAppend(a: seq<string>, b: seq<string>)
    requires a != [] && b != []
    ensures Join(a + b) == Join([Join(a)] + b)
  {
    if |a| == 1 {
      assert a == [a[0]];
    } else {
      JoinAppend(a[1..], b);
      assert (a + b)[1..] == a[1..] + b;
      assert ([Join(a[1..])] + b)[1..] == b && ([Join(a)] + b)[1..] == b;
      assert a[0] + ['\n'] + (Join(a[1..]) + ['\n'] + Join(b)) == (a[0] + ['\n'] + Join(a[1..])) + ['\n'] + Join(b);
    }
  }

  lemma {:induction false} SplitPieces(s: string)
    ensures forall i :: 0 <= i < |Split(s)| ==> NoBreak(Split(s)[i])
    ensures NoReturn(s) ==> forall i :: 0 <= i < |Split(s)| ==> NoReturn(Split(s)[i])
  {
    if s != [] {
      SplitPieces(s[1..]);
    }
  }

  predicate NoReturn(s: string) {
    forall i :: 0 <= i < |s| ==> s[i] != '\r'
  }

  lemma {:induction false} RemoveReturnsRemoves(s: string)
    ensures NoReturn(RemoveReturns(s))
    ensures NoReturn(s) ==> RemoveReturns(s) == s
  {
    if s != [] {
      RemoveReturnsRemoves(s[1..]);
      assert [s[0]] + s[1..] == s;
    }
  }

  lemma {:induction false} JoinNoReturn(lines: seq<string>)
    requires forall i :: 0 <= i < |lines| ==> NoReturn(lines[i])
    ensures NoReturn(Join(lines))
  {
    if |lines| > 1 {
      JoinNoReturn(lines[1..]);
    }
  }

  // ─── every parsed description is canonical ───

  /** Stripping the white space before a line does not turn it into a bullet. */
  lemma BulletIgnoresIndent(line: string)
    requires BulletLength(line).None?
    ensures BulletLength(TrimStart(line)).None?
  {
    var i := LeadingSpaces(line);
    var s := TrimStart(line);
    assert LeadingSpaces(s) == 0;
    assert s[0..] == s;
    var m := MarkLength(s);
    assert s[m..] == line[i + m..];
  }

  lemma TrimOfTrimmedEnd(line: string)
    requires line == [] || !IsSpace(line[|line| - 1])
    ensures Trim(line) == TrimStart(line)
  {
    var s := TrimStart(line);
    if s != [] {
      assert s[|s| - 1] == line[|line| - 1];
    }
  }

  lemma PointTextClean(tail: string)
    requires OneLine(tail) && Trim(tail) != []
    ensures CleanPoint(Trim(tail))
  {
    TrimKeepsOneLine(tail);
    TrimmedEnds(tail);
  }

  lemma IntroTextClean(line: string)
    requires OneLine(line) && (line == [] || !IsSpace(line[|line| - 1])) && BulletLength(line).None? && Trim(line) != []
    ensures CleanIntroLine(Trim(line))
  {
    PointTextClean(line);
    TrimOfTrimmedEnd(line);
    BulletIgnoresIndent(line);
  }

  lemma SuffixOneLine(s: string, k: nat)
    requires OneLine(s) && k <= |s|
    ensures OneLine(s[k..])
  {}

  predicate CleanKind(k: Kind) {
    match k
    case Blank => true
    case Intro(text) => CleanIntroLine(text)
    case Point(text) => CleanPoint(text)
  }

  lemma ClassifiedIsClean(raw: string)
    requires OneLine(raw)
    ensures CleanKind(Classify(raw))
  {
    var line := TrimEnd(raw);
    TrimKeepsOneLine(raw);
    var bullet := BulletLength(line);
    if bullet.Some? {
      SuffixOneLine(line, bullet.value);
      if Trim(line[bullet.value..]) != [] {
        PointTextClean(line[bullet.value..]);
      }
    } else if Trim(line) != [] {
      IntroTextClean(line);
    }
  }

  lemma {:induction false} CleanKindsCollectClean(kinds: seq<Kind>)
    requires forall i :: 0 <= i < |kinds| ==> CleanKind(kinds[i])
    ensures AllIntro(IntroOf(kinds)) && AllClean(PointsOf(kinds))
  {
    if kinds != [] {
      CleanKindsCollectClean(kinds[..|kinds| - 1]);
      assert CleanKind(kinds[|kinds| - 1]);
    }
  }

  lemma ParsedIsCanonical(text: string)
    ensures Canonical(Parse(text))
  {
    var clean := RemoveReturns(text);
    var lines := Split(clean);
    var kinds := Kinds(lines);
    RemoveReturnsRemoves(text);
    SplitPieces(clean);
    forall i | 0 <= i < |kinds|
      ensures CleanKind(kinds[i])
    {
      ClassifiedIsClean(lines[i]);
    }
    CleanKindsCollectClean(kinds);
    if IntroOf(kinds) != [] {
      SplitJoin(IntroOf(kinds));
    }
  }

  // ─── every canonical description survives the round trip ───

  lemma {:induction false} BodyOfClean(points: seq<string>)
    requires AllClean(points)
    ensures |Body(points)| == |points|
    ensures forall i :: 0 <= i < |points| ==> Body(points)[i] == BULLET + points[i]
  {
    if points != [] {
      BodyOfClean(points[1..]);
      CleanIsTrimmed(points[0]);
      assert Body(points) == [BULLET + points[0]] + Body(points[1..]);
    }
  }

  /** A printed point reads back as itself, even when it starts with a bullet mark of its own. */
  lemma PointReadsBack(p: string)
    requires CleanPoint(p)
    ensures Classify(BULLET + p) == Point(p)
  {
    var line := BULLET + p;
    assert line[|line| - 1] == p[|p| - 1];
    assert TrimEnd(line) == line;
    assert LeadingSpaces(line) == 0;
    assert line[0..] == line;
    assert MarkLength(line) == 1;
    assert line[1..] == [' '] + p;
    assert line[1..][1..] == p;
    assert LeadingSpaces(p) == 0;
    assert LeadingSpaces(line[1..]) == 1;
    assert line[2..] == p;
    CleanIsTrimmed(p);
  }

  lemma IntroReadsBack(l: string)
    requires CleanIntroLine(l)
    ensures Classify(l) == Intro(l)
  {
    CleanIsTrimmed(l);
  }

  lemma {:induction false} CollectIntro(kinds: seq<Kind>, intro: seq<string>)
    requires |kinds| == |intro| && forall i :: 0 <= i < |intro| ==> kinds[i] == Intro(intro[i])
    ensures IntroOf(kinds) == intro && PointsOf(kinds) == []
  {
    if kinds != [] {
      var n := |kinds| - 1;
      CollectIntro(kinds[..n], intro[..n]);
      assert intro == intro[..n] + [intro[n]];
    }
  }

  lemma {:induction false} CollectBoth(kinds: seq<Kind>, intro: seq<string>, points: seq<string>)
    requires |kinds| == |intro| + |points|
    requires forall i :: 0 <= i < |intro| ==> kinds[i] == Intro(intro[i])
    requires forall i :: 0 <= i < |points| ==> kinds[|intro| + i] == Point(points[i])
    ensures IntroOf(kinds) == intro && PointsOf(kinds) == points
  {
    if points == [] {
      CollectIntro(kinds, intro);
    } else {
      var n := |points| - 1;
      CollectBoth(kinds[..|kinds| - 1], intro, points[..n]);
      assert points == points[..n] + [points[n]];
    }
  }

  lemma KindsOfPrinted(intro: seq<string>, points: seq<string>)
    requires AllIntro(intro) && AllClean(points)
    ensures IntroOf(Kinds(intro + Body(points))) == intro && PointsOf(Kinds(intro + Body(points))) == points
  {
    BodyOfClean(points);
    var lines := intro + Body(points);
    forall i | 0 <= i < |intro|
      ensures Kinds(lines)[i] == Intro(intro[i])
    {
      IntroReadsBack(intro[i]);
    }
    forall i | 0 <= i < |points|
      ensures Kinds(lines)[|intro| + i] == Point(points[i])
    {
      PointReadsBack(points[i]);
      assert lines[|intro| + i] == BULLET + points[i];
    }
    CollectBoth(Kinds(lines), intro, points);
  }

  lemma IntroIsTrimmed(lines: seq<string>)
    requires lines != [] && AllIntro(lines)
    ensures Join(lines) != [] && Trim(Join(lines)) == Join(lines)
  {
    JoinEnds(lines);
    CleanIsTrimmed(Join(lines));
  }

  lemma {:induction false} JoinEnds(lines: seq<string>)
    requires lines != [] && AllIntro(lines)
    ensures var s := Join(lines); s != [] && !IsSpace(s[0]) && !IsSpace(s[|s| - 1])
  {
    if |lines| > 1 {
      JoinEnds(lines[1..]);
      assert Join(lines)[0] == lines[0][0];
    }
  }

  lemma LinesReadBack(intro: seq<string>, points: seq<string>)
    requires AllIntro(intro) && AllClean(points)
    ensures Parse(Join(intro + Body(points))) == DescParts(Join(intro), points)
  {
    var bullets := Body(points);
    BodyOfClean(points);
    var lines := intro + bullets;
    if lines != [] {
      forall i | 0 <= i < |lines|
        ensures NoBreak(lines[i]) && NoReturn(lines[i])
      {
        if i >= |intro| {
          assert lines[i] == BULLET + points[i - |intro|];
        }
      }
      SplitJoin(lines);
      JoinNoReturn(lines);
      RemoveReturnsRemoves(Join(lines));
      KindsOfPrinted(intro, points);
    } else {
      var blank: seq<string> := [""];
      assert Kinds(blank) == [Blank] && [Blank][..0] == [];
    }
  }

  lemma CanonicalSurvives(d: DescParts)
    requires Canonical(d)
    ensures Parse(JoinDesc(d)) == d
  {
    var intro := if d.intro == [] then [] else Split(d.intro);
    LinesReadBack(intro, d.points);
    if d.intro != [] {
      JoinSplit(d.intro);
      IntroIsTrimmed(intro);
      if Body(d.points) != [] {
        JoinAppend(intro, Body(d.points));
      } else {
        assert intro + Body(d.points) == intro && [d.intro] + Body(d.points) == [d.intro];
      }
    } else {
      assert Trim(d.intro) == [];
    }
  }

  /** A description is unchanged by printing and parsing exactly when it is canonical. */
  lemma RoundTripIffCanonical(d: DescParts)
    ensures Parse(JoinDesc(d)) == d <==> Canonical(d)
  {
    if Canonical(d) {
      CanonicalSurvives(d);
    }
    ParsedIsCanonical(JoinDesc(d));
  }

  /** Whatever text was parsed, printing and parsing it again changes nothing. */
  lemma ParsedSurvives(text: string)
    ensures Parse(JoinDesc(Parse(text))) == Parse(text)
  {
    ParsedIsCanonical(text);
    CanonicalSurvives(Parse(text));
  }
}

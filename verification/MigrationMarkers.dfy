/** Which lines of a migration file are markers, and what text is executed between them. */
module MigrationMarkers {
  import opened MigrationText

  // ---------------------------------------------------------------- how a marker is spelled

  predicate AllSpace(s: string) { forall i :: 0 <= i < |s| ==> IsSpace(s[i]) }

  /** A text that trimming leaves as it is. */
  predicate Trimmed(s: string) { s != [] && !IsSpace(s[0]) && !IsSpace(s[|s| - 1]) }

  lemma {:induction false} TrimLeftDrops(lead: string, s: string)
    requires AllSpace(lead)
    ensures TrimLeft(lead + s) == TrimLeft(s)
  {
    if lead == [] {
      assert lead + s == s;
    } else {
      TrimLeftDrops(lead[1..], s);
      assert (lead + s)[1..] == lead[1..] + s;
    }
  }

  lemma {:induction false} TrimRightDrops(s: string, trail: string)
    requires AllSpace(trail)
    ensures TrimRight(s + trail) == TrimRight(s)
  {
    if trail == [] {
      assert s + trail == s;
    } else {
      var n := |trail| - 1;
      TrimRightDrops(s, trail[..n]);
      assert (s + trail)[..|s + trail| - 1] == s + trail[..n];
    }
  }

  lemma TrimCore(lead: string, core: string, trail: string)
    requires AllSpace(lead) && AllSpace(trail) && Trimmed(core)
    ensures TrimSpace(lead + core + trail) == core
  {
    assert lead + core + trail == lead + (core + trail);
    TrimLeftDrops(lead, core + trail);
    TrimRightDrops(core, trail);
  }

  lemma LowerConcat(s: string, t: string)
    ensures ToLower(s + t) == ToLower(s) + ToLower(t)
  {
  }

  predicate NoBlank(s: string) { forall i :: 0 <= i < |s| ==> s[i] != ' ' }

  lemma HalveStep(c: char, s: string)
    requires c != ' '
    ensures HalveSpaces([c] + s) == [c] + HalveSpaces(s)
  {
    assert ([c] + s)[1..] == s;
  }

  lemma {:induction false} HalvePlain(s: string)
    requires NoBlank(s)
    ensures HalveSpaces(s) == s
  {
    if s != [] {
      HalvePlain(s[1..]);
      HalveStep(s[0], s[1..]);
      assert [s[0]] + s[1..] == s;
    }
  }

  lemma HalveFront(between: string, b: string)
    requires NoBlank(b) && b != [] && between in {" ", "  "}
    ensures HalveSpaces(between + b) == " " + b
  {
    HalvePlain(b);
    if between == "  " {
      assert (between + b)[2..] == b;
    } else {
      assert (between + b)[1..] == b && (between + b)[1] == b[0];
    }
  }

  lemma FirstOut(a: string, between: string, b: string)
    requires a != []
    ensures a + between + b == [a[0]] + (a[1..] + between + b)
  {
  }

  /** One pass over a text with one gap in it leaves a single blank. */
  lemma {:induction false} HalveGap(a: string, between: string, b: string)
    requires NoBlank(a) && NoBlank(b) && b != [] && between in {" ", "  "}
    ensures HalveSpaces(a + between + b) == a + " " + b
  {
    if a == [] {
      HalveFront(between, b);
      assert a + between + b == between + b && a + " " + b == " " + b;
    } else {
      HalveGap(a[1..], between, b);
      HalveStep(a[0], a[1..] + between + b);
      FirstOut(a, between, b);
      FirstOut(a, " ", b);
    }
  }

  /** A marker: blanks around, an optional "--" with more blanks, then the tool and the direction
      in any mix of cases, one or two blanks apart. */
  datatype Spelling = Spelling(
    lead: string, commented: bool, gap: string, tool: string, between: string, word: string, trail: string)

  function Tail(m: Spelling): string { "+" + m.tool + m.between + m.word }

  function Core(m: Spelling): string { if m.commented then "--" + m.gap + Tail(m) else Tail(m) }

  function Line(m: Spelling): string { m.lead + Core(m) + m.trail }

  predicate Spells(m: Spelling, direction: string) {
    && AllSpace(m.lead) && AllSpace(m.gap) && AllSpace(m.trail) && m.between in {" ", "  "}
    && ToLower(m.tool) in {"migrate", "goose"} && ToLower(m.word) == direction
  }

  /** Lower-casing makes no blank and no marker sign. */
  lemma LowerKeeps(c: char)
    ensures IsSpace(LowerChar(c)) <==> IsSpace(c)
    ensures LowerChar(c) == '-' <==> c == '-'
    ensures LowerChar(c) == '+' <==> c == '+'
    ensures LowerChar(c) == ' ' <==> c == ' '
  {
  }

  lemma LowerSpaces(s: string)
    ensures AllSpace(ToLower(s)) <==> AllSpace(s)
    ensures s != [] ==> (Trimmed(ToLower(s)) <==> Trimmed(s))
  {
    forall i | 0 <= i < |s| ensures IsSpace(ToLower(s)[i]) <==> IsSpace(s[i]) {
      LowerKeeps(s[i]);
    }
  }

  lemma UncommentGap(gap: string, tail: string)
    requires AllSpace(gap) && Trimmed(tail)
    ensures Uncomment("--" + gap + tail) == tail
  {
    assert ("--" + gap + tail)[2..] == gap + tail + "";
    TrimCore(gap, tail, "");
  }

  lemma LowerCore(gap: string, tail: string)
    ensures ToLower("--" + gap + tail) == "--" + ToLower(gap) + ToLower(tail)
  {
  }

  lemma LowerTail(m: Spelling, direction: string)
    requires Spells(m, direction)
    ensures ToLower(Tail(m)) == "+" + ToLower(m.tool) + m.between + direction
  {
  }

  lemma TailTrimmed(tool: string, between: string, word: string)
    requires tool in {"migrate", "goose"} && word in {"up", "down"}
    ensures Trimmed("+" + tool + between + word)
  {
  }

  lemma CoreTrimmed(gap: string, tail: string)
    requires Trimmed(tail)
    ensures Trimmed("--" + gap + tail)
  {
  }

  lemma PlainTail(low: string)
    requires low != [] && low[0] == '+'
    ensures Uncomment(low) == low
  {
  }

  lemma StripPlain(lead: string, tail: string, trail: string)
    requires AllSpace(lead) && AllSpace(trail) && Trimmed(tail) && tail[0] == '+'
    ensures Uncomment(ToLower(TrimSpace(lead + tail + trail))) == ToLower(tail)
  {
    TrimCore(lead, tail, trail);
    LowerKeeps(tail[0]);
    PlainTail(ToLower(tail));
  }

  lemma StripCommented(lead: string, gap: string, tail: string, trail: string)
    requires AllSpace(lead) && AllSpace(gap) && AllSpace(trail) && Trimmed(tail)
    ensures Uncomment(ToLower(TrimSpace(lead + ("--" + gap + tail) + trail))) == ToLower(tail)
  {
    CoreTrimmed(gap, tail);
    TrimCore(lead, "--" + gap + tail, trail);
    LowerCore(gap, tail);
    LowerSpaces(gap);
    LowerSpaces(tail);
    UncommentGap(ToLower(gap), ToLower(tail));
  }

  /** What is left of a marker once blanks, comment sign and cases are gone. */
  lemma SpelledTail(m: Spelling, direction: string)
    requires Spells(m, direction) && direction in {"up", "down"}
    ensures Uncomment(ToLower(TrimSpace(Line(m)))) == "+" + ToLower(m.tool) + m.between + direction
  {
    LowerTail(m, direction);
    TailTrimmed(ToLower(m.tool), m.between, direction);
    LowerSpaces(Tail(m));
    if m.commented {
      StripCommented(m.lead, m.gap, Tail(m), m.trail);
    } else {
      StripPlain(m.lead, Tail(m), m.trail);
    }
  }

  lemma Literals()
    ensures "+" + "migrate" + " " + "up" == "+migrate up" && "+migrate " + "up" == "+migrate up"
    ensures "+" + "migrate" + " " + "down" == "+migrate down" && "+migrate " + "down" == "+migrate down"
    ensures "+" + "goose" + " " + "up" == "+goose up" && "+goose " + "up" == "+goose up"
    ensures "+" + "goose" + " " + "down" == "+goose down" && "+goose " + "down" == "+goose down"
  {
  }

  lemma Compared(tool: string, direction: string, other: string)
    requires tool in {"migrate", "goose"} && direction in {"up", "down"} && other in {"up", "down"}
    ensures var text := "+" + tool + " " + direction;
      text == "+migrate " + other || text == "+goose " + other <==> other == direction
  {
    Literals();
    assert "+migrate up"[1] == 'm' && "+goose down"[1] == 'g';
  }

  /** Every line spelled so is a marker of its direction and of no other. */
  lemma SpelledIsMarker(m: Spelling, direction: string, other: string)
    requires Spells(m, direction) && direction in {"up", "down"} && other in {"up", "down"}
    ensures IsMarker(Line(m), other) <==> other == direction
  {
    SpelledTail(m, direction);
    HalveGap("+" + ToLower(m.tool), m.between, direction);
    Compared(ToLower(m.tool), direction, other);
  }

  lemma {:induction false} TrimLeftParts(s: string) returns (lead: string)
    ensures AllSpace(lead) && s == lead + TrimLeft(s)
    ensures TrimLeft(s) != [] ==> !IsSpace(TrimLeft(s)[0])
  {
    if s != [] && IsSpace(s[0]) {
      lead := TrimLeftParts(s[1..]);
      lead := [s[0]] + lead;
    } else {
      lead := [];
    }
  }

  lemma {:induction false} TrimRightParts(s: string) returns (trail: string)
    ensures AllSpace(trail) && s == TrimRight(s) + trail
    ensures TrimRight(s) != [] ==> !IsSpace(TrimRight(s)[|TrimRight(s)| - 1])
  {
    if s != [] && IsSpace(s[|s| - 1]) {
      trail := TrimRightParts(s[..|s| - 1]);
      trail := trail + [s[|s| - 1]];
    } else {
      trail := [];
    }
  }

  /** Trimming takes blanks off both ends and leaves none there. */
  lemma TrimParts(s: string) returns (lead: string, trail: string)
    ensures AllSpace(lead) && AllSpace(trail) && s == lead + TrimSpace(s) + trail
    ensures TrimSpace(s) != [] ==> Trimmed(TrimSpace(s))
  {
    lead := TrimLeftParts(s);
    trail := TrimRightParts(TrimLeft(s));
    if TrimSpace(s) != [] {
      assert TrimLeft(s)[0] == TrimSpace(s)[0];
    }
  }

  /** Only a single or a double blank is halved to a single one. */
  lemma {:induction false} HalveBack(x: string, a: string, b: string) returns (between: string)
    requires NoBlank(a) && NoBlank(b) && b != [] && HalveSpaces(x) == a + " " + b
    ensures between in {" ", "  "} && x == a + between + b
  {
    if a == [] {
      between := HalveFrontBack(x, b);
    } else {
      assert (a + " " + b)[0] == a[0] && (a + " " + b)[1..] == a[1..] + " " + b;
      HalveStep(x[0], x[1..]);
      assert [x[0]] + x[1..] == x;
      between := HalveBack(x[1..], a[1..], b);
      assert x == [a[0]] + (a[1..] + between + b);
    }
  }

  lemma HalveFrontBack(x: string, b: string) returns (between: string)
    requires NoBlank(b) && b != [] && HalveSpaces(x) == " " + b
    ensures between in {" ", "  "} && x == between + b
  {
    if |x| >= 2 && x[0] == ' ' && x[1] == ' ' {
      between := "  ";
      assert HalveSpaces(x)[1..] == HalveSpaces(x[2..]);
      HalvedPlain(x[2..], b);
    } else {
      between := " ";
      assert HalveSpaces(x)[0] == x[0] && HalveSpaces(x)[1..] == HalveSpaces(x[1..]);
      HalvedPlain(x[1..], b);
    }
  }

  lemma {:induction false} HalvedPlain(x: string, b: string)
    requires NoBlank(b) && HalveSpaces(x) == b
    ensures x == b
  {
    if b != [] {
      assert x[0] == b[0] != ' ';
      HalveStep(x[0], x[1..]);
      assert [x[0]] + x[1..] == x;
      HalvedPlain(x[1..], b[1..]);
    }
  }

  lemma FourParts(tool: string, between: string, word: string)
    ensures var text, k := "+" + tool + between + word, |tool| + 1;
      && text[..1] == "+" && text[1..k] == tool
      && text[k..k + |between|] == between && text[k + |between|..] == word
  {
  }

  lemma LowerSlice(s: string, i: nat, k: nat)
    requires i <= k <= |s|
    ensures ToLower(s[i..k]) == ToLower(s)[i..k]
  {
  }

  lemma LowerSigns(s: string, signs: string)
    requires ToLower(s) == signs && forall i :: 0 <= i < |signs| ==> signs[i] in {'+', ' '}
    ensures s == signs
  {
    forall i | 0 <= i < |s| ensures s[i] == signs[i] {
      LowerKeeps(s[i]);
      assert ToLower(s)[i] == LowerChar(s[i]);
    }
  }

  /** The tool and the direction of a text that lower-cases to a marker's. */
  lemma TailParts(tail: string, tool: string, between: string, word: string)
    returns (tool': string, word': string)
    requires ToLower(tail) == "+" + tool + between + word && between in {" ", "  "}
    ensures ToLower(tool') == tool && ToLower(word') == word && tail == "+" + tool' + between + word'
  {
    var k := |tool| + 1;
    FourParts(tool, between, word);
    LowerSlice(tail, 0, 1);
    LowerSlice(tail, 1, k);
    LowerSlice(tail, k, k + |between|);
    LowerSlice(tail, k + |between|, |tail|);
    LowerSigns(tail[0..1], "+");
    LowerSigns(tail[k..k + |between|], between);
    tool', word' := tail[1..k], tail[k + |between|..];
    assert tail == tail[0..1] + tail[1..k] + tail[k..k + |between|] + tail[k + |between|..];
  }

  /** The comment sign, the blanks after it and what follows, before lower-casing. */
  lemma CommentParts(core: string, low: string) returns (gap: string, tail: string)
    requires Trimmed(core) && |core| >= 2 && ToLower(core)[..2] == "--"
    requires low == TrimSpace(ToLower(core)[2..]) && low != []
    ensures AllSpace(gap) && ToLower(tail) == low && core == "--" + gap + tail
  {
    var rest := ToLower(core)[2..];
    var lead, trail := TrimParts(rest);
    NoTrail(core, lead, low, trail);
    gap, tail := core[2..2 + |lead|], core[2 + |lead|..];
    LowerCut(core, lead, low);
    LowerSpaces(gap);
    CommentSign(core);
  }

  lemma NoTrail(core: string, lead: string, low: string, trail: string)
    requires Trimmed(core) && |core| >= 2 && low != [] && AllSpace(trail)
    requires ToLower(core)[2..] == lead + low + trail
    ensures trail == [] && ToLower(core)[2..] == lead + low
  {
    LowerKeeps(core[|core| - 1]);
    LastOf(lead + low, trail);
  }

  lemma LastOf(s: string, t: string)
    ensures t != [] ==> (s + t)[|s + t| - 1] == t[|t| - 1]
  {
  }

  lemma CommentSign(core: string)
    requires |core| >= 2 && ToLower(core)[..2] == "--"
    ensures core[..2] == "--" && core == "--" + core[2..]
  {
    LowerKeeps(core[0]);
    LowerKeeps(core[1]);
    assert ToLower(core)[..2][0] == LowerChar(core[0]) && ToLower(core)[..2][1] == LowerChar(core[1]);
  }

  lemma LowerCut(core: string, lead: string, low: string)
    requires |core| >= 2 && ToLower(core)[2..] == lead + low
    ensures ToLower(core[2..2 + |lead|]) == lead && ToLower(core[2 + |lead|..]) == low
  {
    assert ToLower(core)[2..][..|lead|] == lead && ToLower(core)[2..][|lead|..] == low;
  }

  lemma MarkerTail(line: string, direction: string) returns (tool: string, between: string)
    requires IsMarker(line, direction) && direction in {"up", "down"}
    ensures tool in {"migrate", "goose"} && between in {" ", "  "}
    ensures Uncomment(ToLower(TrimSpace(line))) == "+" + tool + between + direction
  {
    Literals();
    var text := Uncomment(ToLower(TrimSpace(line)));
    tool := if HalveSpaces(text) == "+migrate " + direction then "migrate" else "goose";
    between := HalveBack(text, "+" + tool, direction);
  }

  /** And nothing else is: every marker is spelled so. */
  lemma MarkerIsSpelled(line: string, direction: string) returns (m: Spelling)
    requires IsMarker(line, direction) && direction in {"up", "down"}
    ensures Spells(m, direction) && Line(m) == line
  {
    var tool, between := MarkerTail(line, direction);
    var lead, trail := TrimParts(line);
    var core, low := TrimSpace(line), "+" + tool + between + direction;
    var gap, tail, commented := "", core, |core| >= 2 && ToLower(core)[..2] == "--";
    if commented {
      gap, tail := CommentParts(core, low);
    }
    var tool', word := TailParts(tail, tool, between, direction);
    m := Spelling(lead, commented, gap, tool', between, word, trail);
  }

  /** Exactly which lines are markers: blanks around, "--" and blanks or nothing in front, the
      tool and the direction in any mix of cases, one or two blanks apart. */
  lemma MarkerIff(line: string, direction: string)
    requires direction in {"up", "down"}
    ensures IsMarker(line, direction) <==> exists m :: Spells(m, direction) && Line(m) == line
  {
    if IsMarker(line, direction) {
      var m := MarkerIsSpelled(line, direction);
    }
    if m :| Spells(m, direction) && Line(m) == line {
      SpelledIsMarker(m, direction, direction);
    }
  }

  // ---------------------------------------------------------------- the section, on text

  lemma JoinMore(body: seq<string>, rest: string)
    requires |body| > 1
    ensures Join(body) + "\n" + rest == body[0] + "\n" + (Join(body[1..]) + "\n" + rest)
  {
  }

  lemma PutBack(body: seq<string>, rest: seq<string>)
    requires body != []
    ensures [body[0]] + (body[1..] + rest) == body + rest
  {
  }

  lemma {:induction false} SplitBody(body: seq<string>, rest: string)
    requires body != [] && forall i :: 0 <= i < |body| ==> OneLine(body[i])
    ensures Split(Join(body) + "\n" + rest) == body + Split(rest)
  {
    if |body| == 1 {
      SplitLine(body[0], rest);
      assert body == [body[0]];
    } else {
      SplitBody(body[1..], rest);
      JoinMore(body, rest);
      SplitLine(body[0], Join(body[1..]) + "\n" + rest);
      PutBack(body, Split(rest));
    }
  }

  lemma {:induction false} LinesOf(up: string, body: seq<string>, down: string, rest: string)
    requires OneLine(up) && OneLine(down) && body != [] && forall i :: 0 <= i < |body| ==> OneLine(body[i])
    ensures Split(up + "\n" + (Join(body) + "\n" + (down + "\n" + rest))) == [up] + (body + ([down] + Split(rest)))
  {
    SplitLine(down, rest);
    SplitBody(body, down + "\n" + rest);
    SplitLine(up, Join(body) + "\n" + (down + "\n" + rest));
  }

  predicate PlainLine(line: string) { OneLine(line) && !IsMarker(line, "up") && !IsMarker(line, "down") }

  predicate UpLine(line: string) { OneLine(line) && IsMarker(line, "up") }

  predicate DownLine(line: string) { OneLine(line) && IsMarker(line, "down") }

  lemma NotBoth(line: string)
    requires DownLine(line)
    ensures !IsMarker(line, "up")
  {
    var m := MarkerIsSpelled(line, "down");
    SpelledIsMarker(m, "down", "up");
  }

  lemma MarksConcat(a: seq<string>, b: seq<string>)
    ensures Marks(a + b) == Marks(a) + Marks(b)
  {
  }

  lemma UpMark(line: string)
    requires UpLine(line)
    ensures MarkOf(line) == Up
  {
  }

  lemma DownMark(line: string)
    requires DownLine(line)
    ensures MarkOf(line) == Down
  {
    NotBoth(line);
  }

  lemma PlainMark(line: string)
    requires PlainLine(line)
    ensures MarkOf(line) == Plain
  {
  }

  lemma PlainMarks(body: seq<string>)
    requires forall i :: 0 <= i < |body| ==> PlainLine(body[i])
    ensures forall i :: 0 <= i < |body| ==> Marks(body)[i] == Plain
  {
    forall i | 0 <= i < |body| ensures Marks(body)[i] == Plain {
      PlainMark(body[i]);
    }
  }

  lemma SectionOfMarks(ms: seq<Mark>, n: nat)
    requires 0 < n < |ms| && ms[0] == Up && forall i :: 1 <= i <= n ==> ms[i] == Plain
    requires n + 1 < |ms| ==> ms[n + 1] == Down
    ensures SectionStart(ms) == 1 && SectionEnd(ms) == n + 1
  {
    assert FirstDown(ms) == n + 1;
    var before := ms[..n + 1];
    LastUpIsLast(before);
    assert before[0] == Up;
  }

  lemma MarksOf(up: string, body: seq<string>, tail: seq<string>)
    requires UpLine(up) && forall i :: 0 <= i < |body| ==> PlainLine(body[i])
    requires tail != [] ==> DownLine(tail[0])
    ensures var ms := Marks([up] + (body + tail));
      && ms[0] == Up && (forall i :: 1 <= i <= |body| ==> ms[i] == Plain)
      && (tail != [] ==> ms[|body| + 1] == Down)
  {
    UpMark(up);
    PlainMarks(body);
    if tail != [] {
      DownMark(tail[0]);
    }
    MarksConcat(body, tail);
    MarksConcat([up], body + tail);
    Lined(Marks([up]), Marks(body), Marks(tail));
  }

  lemma Lined(first: seq<Mark>, middle: seq<Mark>, last: seq<Mark>)
    requires |first| == 1
    ensures var ms := first + (middle + last);
      && ms[0] == first[0] && (forall i :: 1 <= i <= |middle| ==> ms[i] == middle[i - 1])
      && (last != [] ==> ms[|middle| + 1] == last[0])
  {
  }

  lemma CutOf(up: string, body: seq<string>, tail: seq<string>, ms: seq<Mark>)
    requires body != [] && |ms| == |[up] + (body + tail)| && ms[0] == Up
    requires (forall i :: 1 <= i <= |body| ==> ms[i] == Plain) && (tail != [] ==> ms[|body| + 1] == Down)
    ensures ([up] + (body + tail))[SectionStart(ms)..SectionEnd(ms)] == body
  {
    SectionOfMarks(ms, |body|);
  }

  /** The section of lines that begin with an up marker, some plain lines and a down marker, or
      end after the plain lines. */
  lemma SectionOf(up: string, body: seq<string>, tail: seq<string>)
    requires UpLine(up) && body != [] && forall i :: 0 <= i < |body| ==> PlainLine(body[i])
    requires tail != [] ==> DownLine(tail[0])
    ensures var lines := [up] + (body + tail);
      lines[SectionStart(Marks(lines))..SectionEnd(Marks(lines))] == body
  {
    MarksOf(up, body, tail);
    CutOf(up, body, tail, Marks([up] + (body + tail)));
  }

  /** A file with an up marker, lines that are no markers, and a down marker: the lines between
      the two are executed and nothing else, however the markers are spelled and whatever
      follows the second. */
  lemma {:induction false} UpSectionIsBody(content: string, up: string, body: seq<string>, down: string, rest: string)
    requires Normalize(content) == up + "\n" + (Join(body) + "\n" + (down + "\n" + rest))
    requires UpLine(up) && DownLine(down) && body != [] && forall i :: 0 <= i < |body| ==> PlainLine(body[i])
    ensures UpSql(content) == Join(body)
  {
    LinesOf(up, body, down, rest);
    SectionOf(up, body, [down] + Split(rest));
  }

  /** Without a down marker everything after the up marker is executed. */
  lemma {:induction false} UpToTheEnd(content: string, up: string, body: seq<string>)
    requires Normalize(content) == up + "\n" + Join(body)
    requires UpLine(up) && body != [] && forall i :: 0 <= i < |body| ==> PlainLine(body[i])
    ensures UpSql(content) == Join(body)
  {
    SplitLine(up, Join(body));
    SplitJoin(body);
    assert body + [] == body;
    SectionOf(up, body, []);
  }

  // ---------------------------------------------------------------- known markers

  lemma LowerWords()
    ensures ToLower("Up") == "up" && ToLower("UP") == "up" && ToLower("Down") == "down" && ToLower("DOWN") == "down"
    ensures ToLower("migrate") == "migrate" && ToLower("MIGRATE") == "migrate" && ToLower("goose") == "goose"
    ensures ToLower("up") == "up" && ToLower("down") == "down"
  {
  }

  lemma UsualText(tool: string, word: string)
    ensures Line(Spelling("", true, " ", tool, " ", word, "")) == "-- +" + tool + " " + word
  {
  }

  lemma UsualSpells(tool: string, word: string, direction: string)
    requires tool in {"migrate", "goose"} && ToLower(word) == direction
    ensures Spells(Spelling("", true, " ", tool, " ", word, ""), direction)
  {
    LowerWords();
  }

  lemma SpelledLine(m: Spelling, direction: string, line: string)
    requires Spells(m, direction) && direction in {"up", "down"} && line == Line(m)
    ensures IsMarker(line, direction)
  {
    SpelledIsMarker(m, direction, direction);
  }

  lemma UsualMarker(tool: string, word: string, direction: string, line: string)
    requires tool in {"migrate", "goose"} && direction in {"up", "down"} && ToLower(word) == direction
    requires line == "-- +" + tool + " " + word
    ensures IsMarker(line, direction)
  {
    var m := Spelling("", true, " ", tool, " ", word, "");
    UsualText(tool, word);
    UsualSpells(tool, word, direction);
    SpelledLine(m, direction, line);
  }

  lemma OneLineConcat(s: string, t: string)
    requires OneLine(s) && OneLine(t)
    ensures OneLine(s + t)
  {
  }

  lemma UsualOneLine(tool: string, word: string)
    requires OneLine(tool) && OneLine(word)
    ensures OneLine("-- +" + tool + " " + word)
  {
    OneLineConcat("-- +", tool);
    OneLineConcat("-- +" + tool, " ");
    OneLineConcat("-- +" + tool + " ", word);
  }

  lemma UsualUp(tool: string, up: string)
    requires tool in {"migrate", "goose"} && up == "-- +" + tool + " " + "Up"
    ensures UpLine(up)
  {
    LowerWords();
    UsualMarker(tool, "Up", "up", up);
    UsualOneLine(tool, "Up");
  }

  lemma UsualDown(tool: string, down: string)
    requires tool in {"migrate", "goose"} && down == "-- +" + tool + " " + "Down"
    ensures DownLine(down)
  {
    LowerWords();
    UsualMarker(tool, "Down", "down", down);
    UsualOneLine(tool, "Down");
  }

  /** So of a file of the usual shape, with the markers of either tool, exactly the lines between
      the two are executed. */
  lemma {:induction false} UsualFile(content: string, tool: string, up: string, body: seq<string>,
                                     other: string, down: string, rest: string)
    requires tool in {"migrate", "goose"} && up == "-- +" + tool + " " + "Up"
    requires other in {"migrate", "goose"} && down == "-- +" + other + " " + "Down"
    requires Normalize(content) == up + "\n" + (Join(body) + "\n" + (down + "\n" + rest))
    requires body != [] && forall i :: 0 <= i < |body| ==> PlainLine(body[i])
    ensures UpSql(content) == Join(body)
  {
    UsualUp(tool, up);
    UsualDown(other, down);
    UpSectionIsBody(content, up, body, down, rest);
  }
}

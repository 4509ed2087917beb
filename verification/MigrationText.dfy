/** Cutting the up section out of a migration file. */
module MigrationText {

  // ---------------------------------------------------------------- lines

  /** strings.ReplaceAll(content, "\r\n", "\n"). */
  function Normalize(s: string): string {
    if |s| < 2 then s
    else if s[0] == '\r' && s[1] == '\n' then "\n" + Normalize(s[2..])
    else [s[0]] + Normalize(s[1..])
  }

  lemma NormalizeStep(c: char, s: string)
    requires c != '\r'
    ensures Normalize([c] + s) == [c] + Normalize(s)
  {
    assert ([c] + s)[1..] == s;
  }

  lemma HeadOut(s: string, t: string)
    requires s != []
    ensures s + t == [s[0]] + (s[1..] + t)
  {
  }

  /** Only a carriage return before a line feed is dropped: what comes before the first carriage
      return stays as it is ... */
  lemma {:induction false} NormalizeFront(front: string, rest: string)
    requires '\r' !in front
    ensures Normalize(front + rest) == front + Normalize(rest)
  {
    if front == [] {
      assert front + rest == rest;
    } else {
      NormalizeFront(front[1..], rest);
      NormalizeStep(front[0], front[1..] + rest);
      HeadOut(front, rest);
      HeadOut(front, Normalize(rest));
    }
  }

  /** ... a line ended by the pair is ended by the line feed, and one not followed by a line feed
      is kept. */
  lemma NormalizeLine(line: string, rest: string)
    requires '\r' !in line
    ensures Normalize(line + ("\r\n" + rest)) == line + ("\n" + Normalize(rest))
    ensures rest != [] && rest[0] != '\n' ==> Normalize(line + ("\r" + rest)) == line + ("\r" + Normalize(rest))
  {
    NormalizeFront(line, "\r\n" + rest);
    NormalizeFront(line, "\r" + rest);
    assert ("\r\n" + rest)[2..] == rest && ("\r" + rest)[1..] == rest;
  }

  /** strings.Split(s, "\n"): always at least one line. */
  function Split(s: string): (lines: seq<string>)
    ensures |lines| >= 1
  {
    if s == [] then [[]]
    else if s[0] == '\n' then [[]] + Split(s[1..])
    else
      var rest := Split(s[1..]);
      [[s[0]] + rest[0]] + rest[1..]
  }

  /** strings.Join(lines, "\n"). */
  function Join(lines: seq<string>): string {
    if lines == [] then []
    else if |lines| == 1 then lines[0]
    else lines[0] + "\n" + Join(lines[1..])
  }

  predicate OneLine(s: string) { forall i :: 0 <= i < |s| ==> s[i] != '\n' }

  /** Joining what was split gives the text back. */
  lemma {:induction false} JoinSplit(s: string)
    ensures Join(Split(s)) == s
  {
    if s != [] {
      JoinSplit(s[1..]);
      var rest := Split(s[1..]);
      if s[0] == '\n' {
        assert ([[]] + rest)[1..] == rest;
        assert Join([[]] + rest) == [] + "\n" + Join(rest);
      } else {
        assert ([[s[0]] + rest[0]] + rest[1..])[1..] == rest[1..];
        if |rest| > 1 {
          assert Join(Split(s)) == [s[0]] + rest[0] + "\n" + Join(rest[1..]);
          assert Join(rest) == rest[0] + "\n" + Join(rest[1..]);
        }
      }
    }
  }

  lemma {:induction false} SplitIsLines(s: string)
    ensures forall i :: 0 <= i < |Split(s)| ==> OneLine(Split(s)[i])
  {
    if s != [] {
      SplitIsLines(s[1..]);
      assert OneLine(Split(s[1..])[0]);
    }
  }

  lemma {:induction false} SplitLine(line: string, rest: string)
    requires OneLine(line)
    ensures Split(line) == [line]
    ensures Split(line + "\n" + rest) == [line] + Split(rest)
  {
    var whole := line + "\n" + rest;
    if line == [] {
      assert whole[1..] == rest;
    } else {
      assert OneLine(line[1..]);
      SplitLine(line[1..], rest);
      assert whole[1..] == line[1..] + "\n" + rest && whole[0] == line[0];
      assert [line[0]] + line[1..] == line;
    }
  }

  /** Splitting what was joined gives the lines back. */
  lemma {:induction false} SplitJoin(lines: seq<string>)
    requires lines != [] && forall i :: 0 <= i < |lines| ==> OneLine(lines[i])
    ensures Split(Join(lines)) == lines
  {
    if |lines| == 1 {
      SplitLine(lines[0], "");
      assert lines == [lines[0]];
    } else {
      SplitJoin(lines[1..]);
      SplitLine(lines[0], Join(lines[1..]));
      assert Join(lines) == lines[0] + "\n" + Join(lines[1..]);
      assert [lines[0]] + lines[1..] == lines;
    }
  }

  // ---------------------------------------------------------------- markers

  /** unicode.IsSpace. */
  predicate IsSpace(c: char) {
    c in {'\t', '\n', '\U{000B}', '\U{000C}', '\r', ' ', '\U{0085}', '\U{00A0}', '\U{1680}', '\U{2028}', '\U{2029}',
          '\U{202F}', '\U{205F}', '\U{3000}'}
    || '\U{2000}' <= c <= '\U{200A}'
  }

  function TrimLeft(s: string): string {
    if s != [] && IsSpace(s[0]) then TrimLeft(s[1..]) else s
  }

  function TrimRight(s: string): string {
    if s != [] && IsSpace(s[|s| - 1]) then TrimRight(s[..|s| - 1]) else s
  }

  function TrimSpace(s: string): string { TrimRight(TrimLeft(s)) }

  /** unicode.ToLower, as far as it can produce an ASCII letter of a marker: the dotted capital
      I is the one character outside ASCII that does. */
  function LowerChar(c: char): char {
    if 'A' <= c <= 'Z' then c - 'A' + 'a' else if c == '\U{0130}' then 'i' else c
  }

  function ToLower(s: string): string { seq(|s|, i requires 0 <= i < |s| => LowerChar(s[i])) }

  /** strings.ReplaceAll(s, "  ", " "): one pass, pairs from the left. */
  function HalveSpaces(s: string): string {
    if |s| < 2 then s
    else if s[0] == ' ' && s[1] == ' ' then " " + HalveSpaces(s[2..])
    else [s[0]] + HalveSpaces(s[1..])
  }

  function Uncomment(s: string): string {
    if |s| >= 2 && s[..2] == "--" then TrimSpace(s[2..]) else s
  }

  predicate IsMarker(line: string, direction: string) {
    var text := HalveSpaces(Uncomment(ToLower(TrimSpace(line))));
    text == "+migrate " + direction || text == "+goose " + direction
  }

  /** What the scan makes of a line; the up test comes first. */
  datatype Mark = Plain | Up | Down

  function MarkOf(line: string): Mark {
    if IsMarker(line, "up") then Up else if IsMarker(line, "down") then Down else Plain
  }

  function Marks(lines: seq<string>): (ms: seq<Mark>)
    ensures |ms| == |lines|
  {
    seq(|lines|, i requires 0 <= i < |lines| => MarkOf(lines[i]))
  }

  // ---------------------------------------------------------------- the section

  /** Where the first down marker stands; the number of lines if there is none. */
  function FirstDown(ms: seq<Mark>): (d: nat)
    ensures d <= |ms|
    ensures d < |ms| ==> ms[d] == Down
    ensures forall i :: 0 <= i < d ==> ms[i] != Down
  {
    if ms == [] || ms[0] == Down then 0 else 1 + FirstDown(ms[1..])
  }

  /** Just after the last up marker; 0 if there is none. */
  function AfterLastUp(ms: seq<Mark>): (u: nat)
    ensures u <= |ms|
  {
    if ms == [] then 0 else if ms[|ms| - 1] == Up then |ms| else AfterLastUp(ms[..|ms| - 1])
  }

  function SectionStart(ms: seq<Mark>): (from: nat)
    ensures from <= FirstDown(ms)
  {
    AfterLastUp(ms[..FirstDown(ms)])
  }

  function SectionEnd(ms: seq<Mark>): (to: nat)
    ensures SectionStart(ms) <= to <= |ms|
  {
    if 0 < SectionStart(ms) < FirstDown(ms) then FirstDown(ms) else |ms|
  }

  /** The text that will be executed. */
  function UpSql(content: string): string {
    var lines := Split(Normalize(content));
    Join(lines[SectionStart(Marks(lines))..SectionEnd(Marks(lines))])
  }

  /** The scan over the lines' marks. */
  method FindSection(ms: seq<Mark>) returns (from: nat, to: nat)
    ensures from == SectionStart(ms) && to == SectionEnd(ms)
  {
    var up, down, i := -1, -1, 0;
    while i < |ms|
      invariant 0 <= i <= |ms| && down == -1 && -1 <= up < i
      invariant up + 1 == AfterLastUp(ms[..i])
      invariant forall k :: 0 <= k < i ==> ms[k] != Down
    {
      assert ms[..i + 1][..i] == ms[..i];
      if ms[i] == Up {
        up := i;
        i := i + 1;
        continue;
      }
      if ms[i] == Down {
        down := i;
        break;
      }
      i := i + 1;
    }
    assert FirstDown(ms) == (if down >= 0 then down else |ms|) == i;
    if up == -1 { return 0, |ms|; }
    from, to := up + 1, |ms|;
    if down >= 0 && down > from { to := down; }
  }

  /** extractUpSQL. */
  method ExtractUpSQL(content: string) returns (sql: string)
    ensures sql == UpSql(content)
  {
    var normalized := Normalize(content);
    var lines := Split(normalized);
    var start, end := FindSection(Marks(lines));
    JoinSplit(normalized);
    if start == 0 {
      assert lines[0..|lines|] == lines;
      return normalized;
    }
    sql := Join(lines[start..end]);
  }

  lemma {:induction false} LastUpIsLast(ms: seq<Mark>)
    ensures AfterLastUp(ms) > 0 ==> ms[AfterLastUp(ms) - 1] == Up
    ensures forall i :: AfterLastUp(ms) <= i < |ms| ==> ms[i] != Up
  {
    if ms != [] && ms[|ms| - 1] != Up {
      LastUpIsLast(ms[..|ms| - 1]);
      forall i | AfterLastUp(ms) <= i < |ms| ensures ms[i] != Up {
        assert i < |ms| - 1 ==> ms[i] == ms[..|ms| - 1][i];
      }
    }
  }

  /** An up marker stands before the first down marker. */
  ghost predicate HasUp(ms: seq<Mark>) {
    exists u :: 0 <= u < FirstDown(ms) && ms[u] == Up
  }

  lemma StartIsLastUp(ms: seq<Mark>)
    ensures HasUp(ms) <==> SectionStart(ms) > 0
    ensures HasUp(ms) ==> ms[SectionStart(ms) - 1] == Up
    ensures forall i :: SectionStart(ms) <= i < FirstDown(ms) ==> ms[i] == Plain
  {
    var d := FirstDown(ms);
    var before := ms[..d];
    LastUpIsLast(before);
    forall i | 0 <= i < d ensures before[i] == ms[i] {
    }
    forall i | SectionStart(ms) <= i < d ensures ms[i] == Plain {
      assert before[i] != Up;
    }
    if SectionStart(ms) == 0 {
      assert forall i :: 0 <= i < d ==> ms[i] == Plain;
    } else {
      assert ms[SectionStart(ms) - 1] == Up;
    }
  }

  /** With an up marker before the first down marker: when at least one line separates the two,
      the section is exactly the lines between the last such up marker and that down marker,
      none of them a marker; when the down marker follows at once the section runs to the end
      of the file, down section and all. */
  lemma {:induction false} SectionBetweenMarkers(ms: seq<Mark>)
    requires HasUp(ms)
    ensures var from, to, d := SectionStart(ms), SectionEnd(ms), FirstDown(ms);
      && 0 < from && ms[from - 1] == Up
      && (from < d ==> to == d && forall i :: from <= i < to ==> ms[i] == Plain)
      && (from == d < |ms| ==> to == |ms| && ms[from] == Down)
  {
    StartIsLastUp(ms);
  }

  /** With no up marker before the first down marker the whole text is returned, line endings
      normalised, down section included. */
  lemma NoUpMarkerReturnsAll(content: string)
    requires !HasUp(Marks(Split(Normalize(content))))
    ensures UpSql(content) == Normalize(content)
  {
    var lines := Split(Normalize(content));
    StartIsLastUp(Marks(lines));
    assert lines[0..|lines|] == lines;
    JoinSplit(Normalize(content));
  }

  /** The text returned splits back into exactly the lines of the section. */
  lemma {:induction false} SectionLines(content: string)
    requires var ms := Marks(Split(Normalize(content))); SectionStart(ms) < SectionEnd(ms)
    ensures var lines := Split(Normalize(content));
      Split(UpSql(content)) == lines[SectionStart(Marks(lines))..SectionEnd(Marks(lines))]
  {
    var lines := Split(Normalize(content));
    SplitIsLines(Normalize(content));
    SplitJoin(lines[SectionStart(Marks(lines))..SectionEnd(Marks(lines))]);
  }
}

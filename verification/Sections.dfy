/** collector/host.go: the `===TAG===` format in which one remote command returns many outputs. */
module Sections {
  import opened Strings

  /** `strings.Split(s, "\n")`. */
  function SplitLines(s: string): (r: seq<string>)
    ensures r != []
  {
    if s == "" then [""]
    else if s[0] == '\n' then [""] + SplitLines(s[1..])
    else
      var rest := SplitLines(s[1..]);
      [[s[0]] + rest[0]] + rest[1..]
  }

  /** `unicode.IsSpace`. */
  predicate IsSpace(c: char) {
    c == '\t' || c == '\n' || c == '\U{B}' || c == '\U{C}' || c == '\r' || c == ' ' || c == '\U{85}' || c == '\U{A0}'
    || c == '\U{1680}' || '\U{2000}' <= c <= '\U{200A}' || c == '\U{2028}' || c == '\U{2029}' || c == '\U{202F}'
    || c == '\U{205F}' || c == '\U{3000}'
  }

  function TrimLeft(s: string): string {
    if s != "" && IsSpace(s[0]) then TrimLeft(s[1..]) else s
  }

  function TrimRight(s: string): string {
    if s != "" && IsSpace(s[|s| - 1]) then TrimRight(s[..|s| - 1]) else s
  }

  /** `strings.TrimSpace`. */
  function TrimSpace(s: string): string {
    TrimRight(TrimLeft(s))
  }

  predicate IsMarker(line: string) {
    HasPrefix(line, "===") && HasSuffix(line, "===")
  }

  function TrimLeftEquals(s: string): string {
    if s != "" && s[0] == '=' then TrimLeftEquals(s[1..]) else s
  }

  function TrimRightEquals(s: string): string {
    if s != "" && s[|s| - 1] == '=' then TrimRightEquals(s[..|s| - 1]) else s
  }

  /** `strings.Trim(line, "=")`. */
  function TrimEquals(s: string): string {
    TrimRightEquals(TrimLeftEquals(s))
  }

  // ---- what splitting and trimming are ----

  /** Lines put together again, with a newline between two of them. */
  function Joined(lines: seq<string>): string {
    if lines == [] then ""
    else if |lines| == 1 then lines[0]
    else lines[0] + "\n" + Joined(lines[1..])
  }

  predicate AllNewlineFree(lines: seq<string>) {
    forall i :: 0 <= i < |lines| ==> NewlineFree(lines[i])
  }

  lemma JoinedCons(line: string, rest: seq<string>)
    requires rest != []
    ensures Joined([line] + rest) == line + "\n" + Joined(rest)
  {
    assert ([line] + rest)[1..] == rest;
  }

  lemma JoinedPush(c: char, lines: seq<string>)
    requires lines != []
    ensures Joined([[c] + lines[0]] + lines[1..]) == [c] + Joined(lines)
  {
    if |lines| > 1 {
      JoinedCons([c] + lines[0], lines[1..]);
    }
  }

  /** Splitting loses nothing and leaves no newline, ... */
  lemma {:induction false} SplitKeepsText(s: string)
    ensures Joined(SplitLines(s)) == s && AllNewlineFree(SplitLines(s))
  {
    if s != "" {
      SplitKeepsText(s[1..]);
      if s[0] == '\n' {
        JoinedCons("", SplitLines(s[1..]));
      } else {
        JoinedPush(s[0], SplitLines(s[1..]));
      }
    }
  }

  /** ... and gives back the lines a text was made of. */
  lemma {:induction false} SplitUndoesJoin(lines: seq<string>)
    requires lines != [] && AllNewlineFree(lines)
    ensures SplitLines(Joined(lines)) == lines
  {
    assert NewlineFree(lines[0]);
    if |lines| == 1 {
      OneLine(lines[0]);
    } else {
      assert forall i :: 0 <= i < |lines[1..]| ==> lines[1..][i] == lines[i + 1];
      SplitUndoesJoin(lines[1..]);
      SplitFirstLine(lines[0], Joined(lines[1..]));
    }
  }

  /** The blanks by code point: the ASCII ones, then those of Latin-1 and beyond. */
  lemma BlanksByNumber(c: char)
    ensures IsSpace(c) <==>
              || 9 <= c as int <= 13 || c as int == 32
              || c as int in {0x85, 0xA0, 0x1680, 0x2028, 0x2029, 0x202F, 0x205F, 0x3000}
              || 0x2000 <= c as int <= 0x200A
  {
  }

  predicate AllBlank(s: string) {
    forall c :: c in s ==> IsSpace(c)
  }

  predicate AllEquals(s: string) {
    forall c :: c in s ==> c == '='
  }

  lemma {:induction false} TrimLeftTakes(s: string) returns (left: string)
    ensures s == left + TrimLeft(s) && AllBlank(left)
    ensures TrimLeft(s) != "" ==> !IsSpace(TrimLeft(s)[0])
  {
    left := "";
    if s != "" && IsSpace(s[0]) {
      left := TrimLeftTakes(s[1..]);
      left := [s[0]] + left;
    }
  }

  lemma {:induction false} TrimRightTakes(s: string) returns (right: string)
    ensures s == TrimRight(s) + right && AllBlank(right)
    ensures TrimRight(s) != "" ==> !IsSpace(TrimRight(s)[|TrimRight(s)| - 1])
  {
    right := "";
    if s != "" && IsSpace(s[|s| - 1]) {
      right := TrimRightTakes(s[..|s| - 1]);
      right := right + [s[|s| - 1]];
    }
  }

  /** Trimming takes blanks, all those at the two ends, and nothing else. */
  lemma TrimTakesBlanks(s: string) returns (left: string, right: string)
    ensures s == left + TrimSpace(s) + right && AllBlank(left) && AllBlank(right)
    ensures TrimSpace(s) != "" ==> !IsSpace(TrimSpace(s)[0]) && !IsSpace(TrimSpace(s)[|TrimSpace(s)| - 1])
  {
    left := TrimLeftTakes(s);
    right := TrimRightTakes(TrimLeft(s));
    if TrimSpace(s) != "" {
      assert TrimSpace(s)[0] == TrimLeft(s)[0];
    }
  }

  lemma {:induction false} TrimLeftEqualsTakes(s: string) returns (left: string)
    ensures s == left + TrimLeftEquals(s) && AllEquals(left)
    ensures TrimLeftEquals(s) != "" ==> TrimLeftEquals(s)[0] != '='
  {
    left := "";
    if s != "" && s[0] == '=' {
      left := TrimLeftEqualsTakes(s[1..]);
      left := [s[0]] + left;
    }
  }

  lemma {:induction false} TrimRightEqualsTakes(s: string) returns (right: string)
    ensures s == TrimRightEquals(s) + right && AllEquals(right)
    ensures TrimRightEquals(s) != "" ==> TrimRightEquals(s)[|TrimRightEquals(s)| - 1] != '='
  {
    right := "";
    if s != "" && s[|s| - 1] == '=' {
      right := TrimRightEqualsTakes(s[..|s| - 1]);
      right := right + [s[|s| - 1]];
    }
  }

  /** The tag of a marker is what is left without the equals signs at the two ends. */
  lemma TagHasNoEqualsAtItsEnds(s: string) returns (left: string, right: string)
    ensures s == left + TrimEquals(s) + right && AllEquals(left) && AllEquals(right)
    ensures TrimEquals(s) != "" ==> TrimEquals(s)[0] != '=' && TrimEquals(s)[|TrimEquals(s)| - 1] != '='
  {
    left := TrimLeftEqualsTakes(s);
    right := TrimRightEqualsTakes(TrimLeftEquals(s));
    if TrimEquals(s) != "" {
      assert TrimEquals(s)[0] == TrimLeftEquals(s)[0];
    }
  }

  /** A marker starts with three equals signs and ends with three, which may be the same ones. */
  lemma MarkerShape(line: string)
    ensures IsMarker(line) <==>
              var n := |line|;
              n >= 3 && line[0] == line[1] == line[2] == line[n - 3] == line[n - 2] == line[n - 1] == '='
  {
    if |line| >= 3 {
      var a, b := line[..3], line[|line| - 3..];
      assert a == "===" <==> a[0] == a[1] == a[2] == '=';
      assert b == "===" <==> b[0] == b[1] == b[2] == '=';
    }
  }

  /** The variables of the parsing loop. */
  datatype Parse = Parse(tag: string, buffer: string, sections: map<string, string>)

  const BEGIN := Parse("", "", map[])

  function Close(ps: Parse): map<string, string> {
    if ps.tag != "" then ps.sections[ps.tag := TrimSpace(ps.buffer)] else ps.sections
  }

  function StepLine(ps: Parse, line: string): Parse {
    if IsMarker(line) then
      Parse(TrimEquals(line), if ps.tag != "" then "" else ps.buffer, Close(ps))
    else if ps.tag != "" then ps.(buffer := ps.buffer + line + "\n")
    else ps
  }

  function FoldLines(ps: Parse, lines: seq<string>): Parse
    decreases |lines|
  {
    if lines == [] then ps else FoldLines(StepLine(ps, lines[0]), lines[1..])
  }

  function Sectioned(output: string): map<string, string> {
    Close(FoldLines(BEGIN, SplitLines(output)))
  }

  method ParseSections(output: string) returns (sections: map<string, string>)
    ensures sections == Sectioned(output)
  {
    sections := map[];
    var lines := SplitLines(output);
    var currentTag, sb := "", "";
    for i := 0 to |lines|
      invariant FoldLines(Parse(currentTag, sb, sections), lines[i..]) == FoldLines(BEGIN, lines)
    {
      var line := lines[i];
      assert lines[i..][0] == line && lines[i..][1..] == lines[i + 1..];
      if HasPrefix(line, "===") && HasSuffix(line, "===") {
        if currentTag != "" {
          sections := sections[currentTag := TrimSpace(sb)];
          sb := "";
        }
        currentTag := TrimEquals(line);
      } else if currentTag != "" {
        sb := sb + line;
        sb := sb + "\n";
      }
    }
    if currentTag != "" {
      sections := sections[currentTag := TrimSpace(sb)];
    }
  }

  // ---- the printer ----

  /** What `echo "===TAG==="; command` prints. */
  datatype Section = Section(tag: string, body: string)

  function Marker(tag: string): string {
    "===" + tag + "==="
  }

  function Print(sections: seq<Section>): string {
    if sections == [] then ""
    else Marker(sections[0].tag) + "\n" + (sections[0].body + Print(sections[1..]))
  }

  /** What one section prints, ... */
  lemma PrintedSection(s: Section)
    ensures Print([s]) == "===" + s.tag + "===\n" + s.body
  {
    assert Print([s]) == Marker(s.tag) + "\n" + (s.body + Print([]));
  }

  /** ... and sections print one after another. */
  lemma {:induction false} PrintConcat(a: seq<Section>, b: seq<Section>)
    ensures Print(a + b) == Print(a) + Print(b)
    decreases |a|
  {
    if a == [] {
      assert a + b == b;
    } else {
      assert (a + b)[1..] == a[1..] + b;
      PrintConcat(a[1..], b);
    }
  }

  predicate GoodTag(tag: string) {
    tag != "" && NewlineFree(tag) && '=' !in tag
  }

  /** Empty, or ended by a newline. */
  predicate Terminated(body: string) {
    body == "" || body[|body| - 1] == '\n'
  }

  /** No line of the text looks like a marker. */
  predicate NoMarkerLine(body: string) {
    forall i :: 0 <= i < |SplitLines(body)| ==> !IsMarker(SplitLines(body)[i])
  }

  predicate GoodSection(s: Section) {
    GoodTag(s.tag) && NoMarkerLine(s.body)
  }

  predicate AllGood(sections: seq<Section>) {
    forall s :: s in sections ==> GoodSection(s)
  }

  /** Every body but the last ends its last line. */
  predicate Ended(sections: seq<Section>) {
    forall i :: 0 <= i < |sections| - 1 ==> Terminated(sections[i].body)
  }

  predicate GoodSections(sections: seq<Section>) {
    AllGood(sections) && Ended(sections)
  }

  /** The trimmed bodies by tag; a later section replaces an earlier one of the same tag. */
  function ToMap(acc: map<string, string>, sections: seq<Section>): map<string, string>
    decreases |sections|
  {
    if sections == [] then acc
    else ToMap(acc[sections[0].tag := TrimSpace(sections[0].body)], sections[1..])
  }

  // ---- lines ----

  /** A newline-free text followed by a newline is one line. */
  lemma {:induction false} SplitFirstLine(line: string, rest: string)
    requires NewlineFree(line)
    ensures SplitLines(line + "\n" + rest) == [line] + SplitLines(rest)
  {
    var s := line + "\n" + rest;
    if line == "" {
      assert s[1..] == rest;
    } else {
      assert s[1..] == line[1..] + "\n" + rest;
      SplitFirstLine(line[1..], rest);
      assert [line[0]] + line[1..] == line;
    }
  }

  /** A terminated text is its first line and a shorter terminated text. */
  lemma {:induction false} FirstLineOf(body: string) returns (line: string, rest: string)
    requires body != "" && Terminated(body)
    ensures NewlineFree(line) && body == line + "\n" + rest && Terminated(rest)
  {
    if body[0] == '\n' {
      line, rest := "", body[1..];
    } else {
      var l, r := FirstLineOf(body[1..]);
      line, rest := [body[0]] + l, r;
    }
  }

  lemma NoMarkerInRest(line: string, rest: string)
    requires NewlineFree(line) && NoMarkerLine(line + "\n" + rest)
    ensures !IsMarker(line) && NoMarkerLine(rest)
  {
    SplitFirstLine(line, rest);
    var all := SplitLines(line + "\n" + rest);
    assert all[0] == line;
    forall i | 0 <= i < |SplitLines(rest)|
      ensures !IsMarker(SplitLines(rest)[i])
    {
      assert all[i + 1] == SplitLines(rest)[i];
    }
  }

  /** Reading a terminated body without markers appends it to the buffer of the current tag. */
  lemma {:induction false} BodyIsBuffered(ps: Parse, body: string, rest: string)
    requires ps.tag != "" && Terminated(body) && NoMarkerLine(body)
    ensures FoldLines(ps, SplitLines(body + rest)) == FoldLines(ps.(buffer := ps.buffer + body), SplitLines(rest))
    decreases |body|
  {
    if body == "" {
      assert body + rest == rest && ps.buffer + body == ps.buffer;
    } else {
      var line, tail := FirstLineOf(body);
      NoMarkerInRest(line, tail);
      assert body + rest == line + "\n" + (tail + rest);
      SplitFirstLine(line, tail + rest);
      var next := ps.(buffer := ps.buffer + line + "\n");
      BodyIsBuffered(next, tail, rest);
      assert next.buffer + tail == ps.buffer + body;
    }
  }

  lemma {:induction false} OneLine(line: string)
    requires NewlineFree(line)
    ensures SplitLines(line) == [line]
  {
    if line != "" {
      OneLine(line[1..]);
      assert [line[0]] + line[1..] == line;
    }
  }

  /** The first line of a text that has more than one. */
  lemma {:induction false} FirstOfLines(text: string) returns (line: string, rest: string)
    requires !NewlineFree(text)
    ensures NewlineFree(line) && text == line + "\n" + rest
  {
    if text[0] == '\n' {
      line, rest := "", text[1..];
    } else {
      var l, r := FirstOfLines(text[1..]);
      line, rest := [text[0]] + l, r;
    }
  }

  /** One line is read ... */
  lemma ReadLine(ps: Parse, line: string, rest: string)
    requires NewlineFree(line) && NoMarkerLine(line + "\n" + rest)
    ensures FoldLines(ps, SplitLines(line + "\n" + rest)) == FoldLines(StepLine(ps, line), SplitLines(rest))
    ensures !IsMarker(line) && NoMarkerLine(rest)
  {
    NoMarkerInRest(line, rest);
    SplitFirstLine(line, rest);
    assert ([line] + SplitLines(rest))[1..] == SplitLines(rest);
  }

  /** ... and so is a last one without a newline. */
  lemma ReadLastLine(ps: Parse, line: string)
    requires NewlineFree(line) && NoMarkerLine(line)
    ensures FoldLines(ps, SplitLines(line)) == StepLine(ps, line)
    ensures !IsMarker(line)
  {
    OneLine(line);
    assert [line][1..] == [] && SplitLines(line)[0] == line;
    assert FoldLines(StepLine(ps, line), []) == StepLine(ps, line);
  }

  /** The last body is buffered whether it ends its last line or not. */
  lemma {:induction false} LastBodyIsBuffered(ps: Parse, body: string)
    requires ps.tag != "" && NoMarkerLine(body)
    ensures FoldLines(ps, SplitLines(body)) == ps.(buffer := ps.buffer + body + "\n")
    decreases |body|
  {
    if NewlineFree(body) {
      ReadLastLine(ps, body);
    } else {
      var line, rest := FirstOfLines(body);
      ReadLine(ps, line, rest);
      var next := ps.(buffer := ps.buffer + line + "\n");
      LastBodyIsBuffered(next, rest);
      assert next.buffer + rest + "\n" == ps.buffer + (line + "\n" + rest) + "\n";
    }
  }

  /** Text before the first marker is ignored. */
  lemma {:induction false} PreambleIsIgnored(ps: Parse, body: string, rest: string)
    requires ps.tag == "" && Terminated(body) && NoMarkerLine(body)
    ensures FoldLines(ps, SplitLines(body + rest)) == FoldLines(ps, SplitLines(rest))
    decreases |body|
  {
    if body == "" {
      assert body + rest == rest;
    } else {
      var line, tail := FirstLineOf(body);
      NoMarkerInRest(line, tail);
      assert body + rest == line + "\n" + (tail + rest);
      SplitFirstLine(line, tail + rest);
      PreambleIsIgnored(ps, tail, rest);
    }
  }

  // ---- markers ----

  lemma OneEqualsLeft(s: string)
    ensures TrimLeftEquals("=" + s) == TrimLeftEquals(s)
  {
    assert ("=" + s)[1..] == s;
  }

  lemma OneEqualsRight(s: string)
    ensures TrimRightEquals(s + "=") == TrimRightEquals(s)
  {
    assert (s + "=")[..|s|] == s;
  }

  lemma TagOfMarker(tag: string)
    requires GoodTag(tag)
    ensures IsMarker(Marker(tag)) && TrimEquals(Marker(tag)) == tag && NewlineFree(Marker(tag))
  {
    var m, right := Marker(tag), tag + "===";
    assert m[..3] == "===" && m[|m| - 3..] == "===";
    calc {
      TrimLeftEquals(m);
      { assert m == "=" + ("=" + ("=" + right)); OneEqualsLeft("=" + ("=" + right)); }
      TrimLeftEquals("=" + ("=" + right));
      { OneEqualsLeft("=" + right); }
      TrimLeftEquals("=" + right);
      { OneEqualsLeft(right); }
      TrimLeftEquals(right);
      { assert right[0] == tag[0]; }
      right;
    }
    calc {
      TrimRightEquals(right);
      { assert right == tag + "=" + "=" + "="; OneEqualsRight(tag + "=" + "="); }
      TrimRightEquals(tag + "=" + "=");
      { OneEqualsRight(tag + "="); }
      TrimRightEquals(tag + "=");
      { OneEqualsRight(tag); }
      TrimRightEquals(tag);
      tag;
    }
  }

  // ---- trimming ----

  lemma {:induction false} TrimRightNewline(s: string)
    ensures TrimRight(s + "\n") == TrimRight(s)
  {
    assert (s + "\n")[..|s|] == s;
  }

  lemma {:induction false} TrimIgnoresNewline(s: string)
    ensures TrimSpace(s + "\n") == TrimSpace(s)
  {
    if s == "" {
      assert (s + "\n")[1..] == "";
    } else if IsSpace(s[0]) {
      assert (s + "\n")[1..] == s[1..] + "\n";
      TrimIgnoresNewline(s[1..]);
    } else {
      TrimRightNewline(s);
    }
  }

  // ---- the round trip ----

  /** A marker closes the section before it and begins its own. */
  lemma BeginSection(ps: Parse, tag: string, rest: string)
    requires GoodTag(tag) && (ps.tag == "" ==> ps.buffer == "")
    ensures FoldLines(ps, SplitLines(Marker(tag) + "\n" + rest))
         == FoldLines(Parse(tag, "", Close(ps)), SplitLines(rest))
  {
    TagOfMarker(tag);
    SplitFirstLine(Marker(tag), rest);
    assert StepLine(ps, Marker(tag)) == Parse(tag, "", Close(ps));
  }

  lemma ReadLast(ps: Parse, s: Section)
    requires GoodSection(s) && (ps.tag == "" ==> ps.buffer == "")
    ensures Close(FoldLines(ps, SplitLines(Print([s])))) == Close(ps)[s.tag := TrimSpace(s.body)]
  {
    assert [s][1..] == [] && s.body + "" == s.body && "" + s.body == s.body;
    BeginSection(ps, s.tag, s.body);
    LastBodyIsBuffered(Parse(s.tag, "", Close(ps)), s.body);
    TrimIgnoresNewline(s.body);
  }

  lemma ReadFirst(ps: Parse, s: Section, rest: string)
    requires GoodSection(s) && Terminated(s.body) && (ps.tag == "" ==> ps.buffer == "")
    ensures FoldLines(ps, SplitLines(Marker(s.tag) + "\n" + (s.body + rest)))
         == FoldLines(Parse(s.tag, s.body, Close(ps)), SplitLines(rest))
  {
    BeginSection(ps, s.tag, s.body + rest);
    BodyIsBuffered(Parse(s.tag, "", Close(ps)), s.body, rest);
    assert "" + s.body == s.body;
  }

  lemma GoodRest(sections: seq<Section>)
    requires GoodSections(sections) && |sections| > 1
    ensures GoodSections(sections[1..])
  {
    var rest := sections[1..];
    assert forall i :: 0 <= i < |rest| ==> rest[i] == sections[i + 1];
  }

  /** Reading what was printed, from any point of the parse. */
  lemma {:induction false} ReadSections(ps: Parse, sections: seq<Section>)
    requires GoodSections(sections)
    requires ps.tag == "" ==> ps.buffer == ""
    ensures Close(FoldLines(ps, SplitLines(Print(sections)))) == ToMap(Close(ps), sections)
    decreases |sections|
  {
    if sections == [] {
      EndOfOutput(ps);
    } else if |sections| == 1 {
      assert sections == [sections[0]] && sections[1..] == [];
      ReadLast(ps, sections[0]);
    } else {
      var first, rest := sections[0], sections[1..];
      assert first in sections;
      ReadFirst(ps, first, Print(rest));
      GoodRest(sections);
      ReadSections(Parse(first.tag, first.body, Close(ps)), rest);
    }
  }

  /** The empty line after the last newline does not matter. */
  lemma EndOfOutput(ps: Parse)
    ensures Close(FoldLines(ps, SplitLines(""))) == Close(ps)
  {
    assert SplitLines("") == [""] && [""][1..] == [];
    assert FoldLines(ps, [""]) == StepLine(ps, "");
    assert ps.buffer + "" + "\n" == ps.buffer + "\n";
    TrimIgnoresNewline(ps.buffer);
  }

  predicate DistinctTags(sections: seq<Section>) {
    forall i, j :: 0 <= i < j < |sections| ==> sections[i].tag != sections[j].tag
  }

  /** Sections with other tags do not touch a tag. */
  lemma {:induction false} OtherTagsKeep(acc: map<string, string>, sections: seq<Section>, tag: string)
    requires forall s :: s in sections ==> s.tag != tag
    ensures tag in ToMap(acc, sections) <==> tag in acc
    ensures tag in acc ==> ToMap(acc, sections)[tag] == acc[tag]
    decreases |sections|
  {
    if sections != [] {
      assert sections[0] in sections;
      OtherTagsKeep(acc[sections[0].tag := TrimSpace(sections[0].body)], sections[1..], tag);
    }
  }

  lemma {:induction false} ToMapConcat(acc: map<string, string>, a: seq<Section>, b: seq<Section>)
    ensures ToMap(acc, a + b) == ToMap(ToMap(acc, a), b)
    decreases |a|
  {
    if a == [] {
      assert a + b == b;
    } else {
      assert (a + b)[1..] == a[1..] + b;
      ToMapConcat(acc[a[0].tag := TrimSpace(a[0].body)], a[1..], b);
    }
  }

  /** A tag that occurs once is mapped to its own trimmed body. */
  lemma {:induction false} MapFindsSection(acc: map<string, string>, sections: seq<Section>, k: nat)
    requires k < |sections|
    requires forall j :: 0 <= j < |sections| && j != k ==> sections[j].tag != sections[k].tag
    ensures sections[k].tag in ToMap(acc, sections)
    ensures ToMap(acc, sections)[sections[k].tag] == TrimSpace(sections[k].body)
    decreases |sections|
  {
    var next := acc[sections[0].tag := TrimSpace(sections[0].body)];
    if k == 0 {
      OtherTagsKeep(next, sections[1..], sections[0].tag);
    } else {
      assert sections[1..][k - 1] == sections[k];
      MapFindsSection(next, sections[1..], k - 1);
    }
  }

  /** Printing and parsing is the identity up to trimming: with good, distinct tags and bodies that hold
      no marker-shaped line, all but the last newline-terminated or empty, the parsed map has exactly
      the printed tags, each with its own trimmed body. Output before the first marker is dropped. */
  lemma SectionsRoundTrip(preamble: string, sections: seq<Section>)
    requires Terminated(preamble) && NoMarkerLine(preamble)
    requires GoodSections(sections) && DistinctTags(sections)
    ensures var parsed := Sectioned(preamble + Print(sections));
            && (forall k :: 0 <= k < |sections| ==>
                  sections[k].tag in parsed && parsed[sections[k].tag] == TrimSpace(sections[k].body))
            && (forall tag :: tag in parsed ==> exists k :: 0 <= k < |sections| && sections[k].tag == tag)
  {
    PreambleIsIgnored(BEGIN, preamble, Print(sections));
    ReadSections(BEGIN, sections);
    var parsed := Sectioned(preamble + Print(sections));
    assert parsed == ToMap(map[], sections);
    forall k | 0 <= k < |sections|
      ensures sections[k].tag in parsed && parsed[sections[k].tag] == TrimSpace(sections[k].body)
    {
      MapFindsSection(map[], sections, k);
    }
    forall tag | tag in parsed
      ensures exists k :: 0 <= k < |sections| && sections[k].tag == tag
    {
      if forall k :: 0 <= k < |sections| ==> sections[k].tag != tag {
        OtherTagsKeep(map[], sections, tag);
      }
    }
  }

  // ---- a body that does not end its last line ----

  lemma {:induction false} TrimLeftOfConcat(line: string, rest: string)
    ensures TrimLeftEquals(line + rest) == if AllEquals(line) then TrimLeftEquals(rest) else TrimLeftEquals(line) + rest
    ensures !AllEquals(line) ==> TrimLeftEquals(line) != ""
  {
    if line == "" {
      assert line + rest == rest;
    } else if line[0] == '=' {
      assert (line + rest)[1..] == line[1..] + rest;
      TrimLeftOfConcat(line[1..], rest);
      assert AllEquals(line) <==> AllEquals(line[1..]) by {
        assert forall c :: c in line <==> c == line[0] || c in line[1..];
      }
    } else {
      assert line[0] in line;
    }
  }

  lemma TrimRightThree(s: string)
    requires s != "" && s[|s| - 1] != '='
    ensures TrimRightEquals(s + "===") == s
  {
    OneEqualsRight(s + "==");
    OneEqualsRight(s + "=");
    OneEqualsRight(s);
    assert s + "===" == s + "==" + "=" && s + "==" == s + "=" + "=";
  }

  /** A marker glued to a line gives back its tag only if the line is made of equals signs. */
  lemma TagOfGlued(line: string, tag: string)
    requires GoodTag(tag) && TrimEquals(line + Marker(tag)) == tag
    ensures AllEquals(line)
  {
    TrimLeftOfConcat(line, Marker(tag));
    if !AllEquals(line) {
      var left := TrimLeftEquals(line) + "===" + tag;
      assert TrimLeftEquals(line) + Marker(tag) == left + "===";
      assert left[|left| - 1] == tag[|tag| - 1] && |left| > |tag|;
      TrimRightThree(left);
    }
  }

  /** Trimming keeps a last line that has no blanks at its ends. */
  lemma {:induction false} TrimLeftKeeps(pre: string, line: string)
    requires line != "" && !IsSpace(line[0])
    ensures TrimLeft(pre + line) == TrimLeft(pre) + line
  {
    if pre == "" {
      assert pre + line == line && TrimLeft(pre) + line == line;
    } else if IsSpace(pre[0]) {
      assert (pre + line)[1..] == pre[1..] + line;
      TrimLeftKeeps(pre[1..], line);
    }
  }

  lemma {:induction false} TrimRightShortens(s: string)
    ensures |TrimRight(s)| <= |s|
  {
    if s != "" {
      TrimRightShortens(s[..|s| - 1]);
    }
  }

  lemma LostEquals(pre: string, line: string)
    requires line != "" && AllEquals(line)
    ensures TrimSpace(pre + line) != TrimSpace(pre)
  {
    assert line[0] in line && line[|line| - 1] in line;
    TrimLeftKeeps(pre, line);
    var t := TrimLeft(pre) + line;
    assert t[|t| - 1] == line[|line| - 1] && TrimRight(t) == t;
    TrimRightShortens(TrimLeft(pre));
  }

  /** An unterminated text is some lines and an unfinished one. */
  lemma {:induction false} LastLineOf(body: string) returns (pre: string, line: string)
    requires !Terminated(body)
    ensures body == pre + line && Terminated(pre) && line != "" && NewlineFree(line)
    decreases |body|
  {
    var n := |body| - 1;
    if Terminated(body[..n]) {
      pre, line := body[..n], [body[n]];
    } else {
      var l: string;
      pre, l := LastLineOf(body[..n]);
      line := l + [body[n]];
    }
  }

  lemma {:induction false} NoMarkerInFront(pre: string, line: string)
    requires Terminated(pre) && NoMarkerLine(pre + line)
    ensures NoMarkerLine(pre)
    decreases |pre|
  {
    if pre == "" {
      assert SplitLines("") == [""];
    } else {
      var first, rest := FirstLineOf(pre);
      assert pre + line == first + "\n" + (rest + line);
      NoMarkerInRest(first, rest + line);
      NoMarkerInFront(rest, line);
      SplitFirstLine(first, rest);
    }
  }

  /** After a marker without a tag everything is skipped. */
  lemma {:induction false} SkippedWithoutTag(ps: Parse, body: string)
    requires ps.tag == "" && NoMarkerLine(body)
    ensures FoldLines(ps, SplitLines(body)) == ps
    decreases |body|
  {
    if NewlineFree(body) {
      ReadLastLine(ps, body);
    } else {
      var line, rest := FirstOfLines(body);
      ReadLine(ps, line, rest);
      SkippedWithoutTag(ps, rest);
    }
  }

  /** A text and what is printed after it, at the next marker line: the text is buffered or skipped up to
      its unfinished line, and that line is glued to the marker. */
  lemma ReadUpToMarker(ps: Parse, text: string, s: Section, rest: string) returns (at: Parse, line: string)
    requires NoMarkerLine(text) && GoodTag(s.tag)
    ensures at.tag == ps.tag && at.sections == ps.sections
    ensures NewlineFree(line) && (line == "" <==> Terminated(text))
    ensures exists pre :: text == pre + line && Terminated(pre) && (ps.tag != "" ==> at.buffer == ps.buffer + pre)
    ensures FoldLines(ps, SplitLines(text + (Marker(s.tag) + "\n" + (s.body + rest))))
         == FoldLines(StepLine(at, line + Marker(s.tag)), SplitLines(s.body + rest))
  {
    var pre: string;
    if Terminated(text) {
      pre, line := text, "";
      assert text == pre + line;
    } else {
      pre, line := LastLineOf(text);
    }
    NoMarkerInFront(pre, line);
    var after := line + Marker(s.tag) + "\n" + (s.body + rest);
    assert text + (Marker(s.tag) + "\n" + (s.body + rest)) == pre + after;
    if ps.tag != "" {
      BodyIsBuffered(ps, pre, after);
      at := ps.(buffer := ps.buffer + pre);
    } else {
      PreambleIsIgnored(ps, pre, after);
      at := ps;
    }
    TagOfMarker(s.tag);
    SplitFirstLine(line + Marker(s.tag), s.body + rest);
    assert ([line + Marker(s.tag)] + SplitLines(s.body + rest))[1..] == SplitLines(s.body + rest);
    assert text == pre + line && Terminated(pre) && (ps.tag != "" ==> at.buffer == ps.buffer + pre);
  }

  lemma OnlyEqualsHasNoTag(line: string)
    ensures TrimEquals(line) != "" ==> !AllEquals(line)
  {
    var left, right := TagHasNoEqualsAtItsEnds(line);
    if TrimEquals(line) != "" {
      assert line[|left|] == TrimEquals(line)[0] && line[|left|] in line;
    }
  }

  /** A line of equals signs alone ends the section before it, which is kept; what follows, up to the next
      marker, is nobody's. */
  lemma BareMarkerEndsSection(s: Section, bare: string, rest: string)
    requires GoodSection(s) && Terminated(s.body) && NoMarkerLine(rest)
    requires |bare| >= 3 && AllEquals(bare)
    ensures Sectioned(Print([s]) + (bare + "\n" + rest)) == map[s.tag := TrimSpace(s.body)]
  {
    var after, ended := bare + "\n" + rest, Parse("", "", map[s.tag := TrimSpace(s.body)]);
    PrintedSection(s);
    assert Print([s]) + after == Marker(s.tag) + "\n" + (s.body + after);
    ReadFirst(BEGIN, s, after);
    assert forall i :: 0 <= i < |bare| ==> bare[i] in bare;
    MarkerShape(bare);
    OnlyEqualsHasNoTag(bare);
    SplitFirstLine(bare, rest);
    assert ([bare] + SplitLines(rest))[1..] == SplitLines(rest);
    assert StepLine(Parse(s.tag, s.body, map[]), bare) == ended;
    SkippedWithoutTag(ended, rest);
  }

  /** Has `tag` in the one map what it has in the other? */
  predicate SameAt(a: map<string, string>, b: map<string, string>, tag: string) {
    (tag in a <==> tag in b) && (tag in a ==> a[tag] == b[tag])
  }

  /** A marker glued to any line does not give a tag without equals signs, other than its own. */
  lemma GluedTagIsOther(line: string, own: string, tag: string)
    requires GoodTag(own) && GoodTag(tag) && tag != own
    ensures TrimEquals(line + Marker(own)) != tag
  {
    TrimLeftOfConcat(line, Marker(own));
    if AllEquals(line) {
      TagOfMarker(own);
    } else {
      var left := TrimLeftEquals(line) + "===" + own;
      assert TrimLeftEquals(line) + Marker(own) == left + "===";
      assert left[|left| - 1] == own[|own| - 1] && '=' in left by {
        assert left[|TrimLeftEquals(line)|] == '=';
      }
      TrimRightThree(left);
    }
  }

  /** The last text of the output. */
  lemma LastTextKeeps(ps: Parse, text: string, tag: string)
    requires NoMarkerLine(text) && ps.tag != tag
    ensures SameAt(Close(FoldLines(ps, SplitLines(text))), ps.sections, tag)
  {
    if ps.tag == "" {
      SkippedWithoutTag(ps, text);
    } else {
      LastBodyIsBuffered(ps, text);
    }
  }

  /** Sections of other tags leave a tag alone, whatever is glued to what. */
  lemma {:induction false} OthersLeaveAlone(ps: Parse, text: string, sections: seq<Section>, tag: string)
    requires NoMarkerLine(text) && AllGood(sections) && GoodTag(tag) && ps.tag != tag
    requires forall s :: s in sections ==> s.tag != tag
    ensures SameAt(Close(FoldLines(ps, SplitLines(text + Print(sections)))), ps.sections, tag)
    decreases |sections|
  {
    if sections == [] {
      assert text + Print(sections) == text;
      LastTextKeeps(ps, text, tag);
    } else {
      var s, rest := sections[0], sections[1..];
      assert s in sections;
      var at, line := ReadUpToMarker(ps, text, s, Print(rest));
      GluedTagIsOther(line, s.tag, tag);
      var next := StepLine(at, line + Marker(s.tag));
      OthersLeaveAlone(next, s.body, rest, tag);
    }
  }

  /** The section is in the map with its own trimmed body. */
  predicate ReadBack(parsed: map<string, string>, s: Section) {
    s.tag in parsed && parsed[s.tag] == TrimSpace(s.body)
  }

  /** A body that does not end its last line loses that line, or the next section. */
  lemma UnfinishedLineLoses(ps: Parse, first: Section, second: Section, rest: seq<Section>)
    requires ps.tag == first.tag && ps.buffer == "" && second.tag !in ps.sections
    requires GoodSection(first) && GoodSection(second) && AllGood(rest)
    requires first.tag != second.tag && !Terminated(first.body)
    requires forall s :: s in rest ==> s.tag != first.tag && s.tag != second.tag
    ensures var parsed := Close(FoldLines(ps, SplitLines(first.body + Print([second] + rest))));
            !ReadBack(parsed, first) || !ReadBack(parsed, second)
  {
    assert ([second] + rest)[1..] == rest;
    var at, line := ReadUpToMarker(ps, first.body, second, Print(rest));
    var pre :| first.body == pre + line && Terminated(pre) && at.buffer == ps.buffer + pre;
    assert at.buffer == pre;
    var glued := line + Marker(second.tag);
    var next := StepLine(at, glued);
    if next.tag == second.tag {
      TagOfGlued(line, second.tag);
      LostEquals(pre, line);
      OthersLeaveAlone(next, second.body, rest, first.tag);
    } else {
      OthersLeaveAlone(next, second.body, rest, second.tag);
    }
  }

  predicate AllReadBack(parsed: map<string, string>, sections: seq<Section>) {
    forall k :: 0 <= k < |sections| ==> ReadBack(parsed, sections[k])
  }

  /** What is left to read after a section that ends its last line. */
  lemma ReadOn(ps: Parse, sections: seq<Section>)
    requires |sections| > 1 && GoodSection(sections[0]) && Terminated(sections[0].body)
    requires ps.tag == "" ==> ps.buffer == ""
    ensures var next := Parse(sections[0].tag, sections[0].body, Close(ps));
            FoldLines(ps, SplitLines(Print(sections))) == FoldLines(next, SplitLines(Print(sections[1..])))
  {
    ReadFirst(ps, sections[0], Print(sections[1..]));
  }

  lemma OthersHaveOtherTags(sections: seq<Section>)
    requires DistinctTags(sections) && |sections| > 1
    ensures sections[0].tag != sections[1].tag
    ensures forall s :: s in sections[2..] ==> s.tag != sections[0].tag && s.tag != sections[1].tag
  {
    forall s | s in sections[2..]
      ensures s.tag != sections[0].tag && s.tag != sections[1].tag
    {
      var k :| 0 <= k < |sections[2..]| && sections[2..][k] == s;
      assert s == sections[k + 2];
    }
  }

  lemma PartsAreIn<T>(s: seq<T>)
    requires |s| > 1
    ensures s[0] in s && s[1] in s && forall x :: x in s[2..] ==> x in s
  {
  }

  lemma PrintFirstTwo(sections: seq<Section>)
    requires |sections| > 1
    ensures Print(sections)
         == Marker(sections[0].tag) + "\n" + (sections[0].body + Print([sections[1]] + sections[2..]))
  {
    assert sections[1..] == [sections[1]] + sections[2..];
  }

  lemma FirstOfTwoIsEnded(ps: Parse, first: Section, second: Section, rest: seq<Section>, output: string)
    requires GoodSection(first) && GoodSection(second) && AllGood(rest) && (ps.tag == "" ==> ps.buffer == "")
    requires first.tag != second.tag && second.tag !in Close(ps)
    requires forall s :: s in rest ==> s.tag != first.tag && s.tag != second.tag
    requires output == Marker(first.tag) + "\n" + (first.body + Print([second] + rest))
    requires var parsed := Close(FoldLines(ps, SplitLines(output)));
             ReadBack(parsed, first) && ReadBack(parsed, second)
    ensures Terminated(first.body)
  {
    BeginSection(ps, first.tag, first.body + Print([second] + rest));
    if !Terminated(first.body) {
      UnfinishedLineLoses(Parse(first.tag, "", Close(ps)), first, second, rest);
    }
  }

  /** The first of several sections ends its last line if the first two are read back. */
  lemma FirstIsEnded(ps: Parse, sections: seq<Section>)
    requires AllGood(sections) && DistinctTags(sections) && (ps.tag == "" ==> ps.buffer == "")
    requires |sections| > 1 && sections[1].tag !in Close(ps)
    requires var parsed := Close(FoldLines(ps, SplitLines(Print(sections))));
             ReadBack(parsed, sections[0]) && ReadBack(parsed, sections[1])
    ensures Terminated(sections[0].body)
  {
    PartsAreIn(sections);
    PrintFirstTwo(sections);
    OthersHaveOtherTags(sections);
    FirstOfTwoIsEnded(ps, sections[0], sections[1], sections[2..], Print(sections));
  }

  /** Reading back every section takes all bodies but the last to end their last line, from any point of
      the parse that has none of the tags. */
  lemma {:induction false} AllReadBackMeansEnded(ps: Parse, sections: seq<Section>)
    requires AllGood(sections) && DistinctTags(sections) && (ps.tag == "" ==> ps.buffer == "")
    requires forall k :: 0 <= k < |sections| ==> sections[k].tag !in Close(ps)
    requires AllReadBack(Close(FoldLines(ps, SplitLines(Print(sections)))), sections)
    ensures Ended(sections)
    decreases |sections|
  {
    if |sections| > 1 {
      var rest, next := sections[1..], Parse(sections[0].tag, sections[0].body, Close(ps));
      FirstIsEnded(ps, sections);
      assert sections[0] in sections;
      ReadOn(ps, sections);
      forall k | 0 <= k < |rest|
        ensures ReadBack(Close(FoldLines(next, SplitLines(Print(rest)))), rest[k]) && rest[k].tag !in Close(next)
      {
        assert rest[k] == sections[k + 1];
      }
      AllReadBackMeansEnded(next, rest);
    }
  }

  /** Any number of sections with good, distinct tags and without marker-shaped lines is read back exactly
      when every body but the last ends its last line. */
  lemma SectionsReadBackExactlyWhen(sections: seq<Section>)
    requires AllGood(sections) && DistinctTags(sections)
    ensures Sectioned(Print(sections)) == ToMap(map[], sections) <==> Ended(sections)
  {
    if Ended(sections) {
      ReadSections(BEGIN, sections);
    }
    if Sectioned(Print(sections)) == ToMap(map[], sections) {
      forall k | 0 <= k < |sections|
        ensures ReadBack(Sectioned(Print(sections)), sections[k])
      {
        MapFindsSection(map[], sections, k);
      }
      AllReadBackMeansEnded(BEGIN, sections);
    }
  }

  // ---- a body with a marker-shaped line ----

  /** How many characters of a text are not blank. */
  function Ink(s: string): nat {
    if s == "" then 0 else (if IsSpace(s[0]) then 0 else 1) + Ink(s[1..])
  }

  lemma {:induction false} InkOfConcat(a: string, b: string)
    ensures Ink(a + b) == Ink(a) + Ink(b)
  {
    if a == "" {
      assert a + b == b;
    } else {
      assert (a + b)[1..] == a[1..] + b;
      InkOfConcat(a[1..], b);
    }
  }

  lemma {:induction false} TrimLeftKeepsInk(s: string)
    ensures Ink(TrimLeft(s)) == Ink(s)
  {
    if s != "" && IsSpace(s[0]) {
      TrimLeftKeepsInk(s[1..]);
    }
  }

  lemma {:induction false} TrimRightKeepsInk(s: string)
    ensures Ink(TrimRight(s)) == Ink(s)
  {
    if s != "" && IsSpace(s[|s| - 1]) {
      var n := |s| - 1;
      TrimRightKeepsInk(s[..n]);
      InkOfConcat(s[..n], [s[n]]);
      assert s == s[..n] + [s[n]];
    }
  }

  lemma TrimKeepsInk(s: string)
    ensures Ink(TrimSpace(s)) == Ink(s)
  {
    TrimLeftKeepsInk(s);
    TrimRightKeepsInk(TrimLeft(s));
  }

  /** The ink of some lines, and of those that are not markers. */
  function LinesInk(lines: seq<string>): nat {
    if lines == [] then 0 else Ink(lines[0]) + LinesInk(lines[1..])
  }

  function PlainInk(lines: seq<string>): nat {
    if lines == [] then 0 else (if IsMarker(lines[0]) then 0 else Ink(lines[0])) + PlainInk(lines[1..])
  }

  lemma {:induction false} SplittingKeepsInk(s: string)
    ensures LinesInk(SplitLines(s)) == Ink(s)
  {
    if s != "" {
      SplittingKeepsInk(s[1..]);
      var rest := SplitLines(s[1..]);
      if s[0] == '\n' {
        assert ([""] + rest)[1..] == rest;
      } else {
        assert ([[s[0]] + rest[0]] + rest[1..])[1..] == rest[1..];
        assert ([s[0]] + rest[0])[1..] == rest[0];
      }
    }
  }

  lemma MarkerHasInk(line: string)
    requires IsMarker(line)
    ensures Ink(line) > 0
  {
    assert line[0] == line[..3][0] == '=';
  }

  lemma {:induction false} MarkersTakeInk(lines: seq<string>)
    ensures PlainInk(lines) <= LinesInk(lines)
    ensures (exists i :: 0 <= i < |lines| && IsMarker(lines[i])) ==> PlainInk(lines) < LinesInk(lines)
  {
    if lines != [] {
      MarkersTakeInk(lines[1..]);
      if IsMarker(lines[0]) {
        MarkerHasInk(lines[0]);
      } else if i :| 0 <= i < |lines| && IsMarker(lines[i]) {
        assert lines[1..][i - 1] == lines[i];
      }
    }
  }

  /** No text of the parse has more than `k` characters of ink. */
  ghost predicate InkBound(ps: Parse, k: nat) {
    Ink(ps.buffer) <= k && forall tag :: tag in ps.sections ==> Ink(ps.sections[tag]) <= k
  }

  lemma CloseKeepsBound(ps: Parse, k: nat)
    requires InkBound(ps, k)
    ensures forall tag :: tag in Close(ps) ==> Ink(Close(ps)[tag]) <= k
  {
    TrimKeepsInk(ps.buffer);
  }

  lemma StepKeepsBound(ps: Parse, line: string, k: nat)
    requires InkBound(ps, k)
    ensures InkBound(StepLine(ps, line), k + if IsMarker(line) then 0 else Ink(line))
  {
    CloseKeepsBound(ps, k);
    InkOfConcat(ps.buffer + line, "\n");
    InkOfConcat(ps.buffer, line);
  }

  /** A parse invents no ink: only lines that are not markers give any. */
  lemma {:induction false} FoldKeepsBound(ps: Parse, lines: seq<string>, k: nat)
    requires InkBound(ps, k)
    ensures InkBound(FoldLines(ps, lines), k + PlainInk(lines))
    decreases |lines|
  {
    if lines != [] {
      StepKeepsBound(ps, lines[0], k);
      FoldKeepsBound(StepLine(ps, lines[0]), lines[1..], k + if IsMarker(lines[0]) then 0 else Ink(lines[0]));
    }
  }

  /** A single section is read back exactly when no line of its body looks like a marker. */
  lemma OneSectionReadsBackExactlyWhen(s: Section)
    requires GoodTag(s.tag)
    ensures Sectioned(Print([s])) == map[s.tag := TrimSpace(s.body)] <==> NoMarkerLine(s.body)
  {
    if NoMarkerLine(s.body) {
      ReadLast(BEGIN, s);
    } else {
      MarkerLineLoses(s);
    }
  }

  lemma MarkerLineLoses(s: Section)
    requires GoodTag(s.tag) && !NoMarkerLine(s.body)
    ensures s.tag in Sectioned(Print([s])) ==> Sectioned(Print([s]))[s.tag] != TrimSpace(s.body)
  {
    var lines, begun := SplitLines(s.body), Parse(s.tag, "", map[]);
    assert [s][1..] == [] && s.body + "" == s.body;
    BeginSection(BEGIN, s.tag, s.body);
    FoldKeepsBound(begun, lines, 0);
    CloseKeepsBound(FoldLines(begun, lines), PlainInk(lines));
    MarkersTakeInk(lines);
    SplittingKeepsInk(s.body);
    TrimKeepsInk(s.body);
  }
}

/** processors/llm_evaluator.py: the line-oriented parser of the model's
    reply, the change-detection hash, the single-applicant evaluation with
    its write-back, and the batch over all applicants. */
module LlmEvaluator {
  import opened Wrappers
  import opened Values
  import opened Text
  import opened Helpers
  import opened Airtable
  import Compressor

  /** The four sections a reply may contain. */
  datatype Section = SummarySection | ScoreSection | IssuesSection | FollowUpsSection

  /** The `score` entry: an integer from a "Score:" line, or the text of the
      section when a later header or a trailing body overwrites it. */
  datatype Score = IntScore(n: int) | TextScore(text: string)

  /** The dictionary `_parse_llm_response` returns. */
  datatype Parsed = Parsed(summary: string, score: Score, issues: string, followUps: string)

  const EMPTY_PARSE := Parsed("", IntScore(0), "", "")

  /** The header a stripped line starts with, and that header's length. */
  function HeaderOf(line: string): (h: Option<(Section, nat)>)
    ensures h.Some? ==> h.value.1 <= |line|
  {
    if StartsWith(line, "Summary:") then Some((SummarySection, 8))
    else if StartsWith(line, "Score:") then Some((ScoreSection, 6))
    else if StartsWith(line, "Issues:") then Some((IssuesSection, 7))
    else if StartsWith(line, "Follow-Ups:") then Some((FollowUpsSection, 11))
    else None
  }

  /** `result[section] = text`. */
  function WithSection(p: Parsed, sec: Section, text: string): Parsed {
    match sec
    case SummarySection => p.(summary := text)
    case ScoreSection => p.(score := TextScore(text))
    case IssuesSection => p.(issues := text)
    case FollowUpsSection => p.(followUps := text)
  }

  /** The text of one of the three text sections. */
  function TextOf(p: Parsed, sec: Section): string
    requires sec != ScoreSection
  {
    if sec == SummarySection then p.summary else if sec == IssuesSection then p.issues else p.followUps
  }

  /** The parser's variables between two lines: the result so far, the open
      section and the lines collected for it. */
  datatype ParseState = ParseState(result: Parsed, current: Option<Section>, content: seq<string>)

  const START := ParseState(EMPTY_PARSE, None, [])

  /** `result[current_section] = '\n'.join(content_lines).strip()` when a
      section is open. */
  function Flush(st: ParseState): Parsed {
    if st.current.Some? then WithSection(st.result, st.current.value, Strip(Join(st.content, "\n"))) else st.result
  }
  /** What one line of the reply is, once stripped: a "Score:" header with
      its integer (0 when the text after it is not one), another header with
      the stripped text after it, a line of text, or a blank line. */
  datatype Line = ScoreLine(n: int) | HeaderLine(sec: Section, rest: string) | TextLine(text: string) | BlankLine

  /** The classification the loop performs on each raw line. */
  function Classify(raw: string): (l: Line)
    ensures l.HeaderLine? ==> l.sec != ScoreSection
  {
    var line := Strip(raw);
    var h := HeaderOf(line);
    if h.Some? then
      var rest := Strip(line[h.value.1..]);
      if h.value.0 == ScoreSection then
        var v := ParseInt(rest);
        ScoreLine(if v.Some? then v.value else 0)
      else HeaderLine(h.value.0, rest)
    else if line == "" then BlankLine
    else TextLine(line)
  }

  /** One iteration of the loop: a header writes the open section and opens
      its own; a text line is collected when a section is open. */
  function Step(st: ParseState, l: Line): ParseState {
    match l
    case ScoreLine(n) => ParseState(Flush(st).(score := IntScore(n)), Some(ScoreSection), [])
    case HeaderLine(sec, rest) => ParseState(Flush(st), Some(sec), [rest])
    case TextLine(t) => if st.current.Some? then st.(content := st.content + [t]) else st
    case BlankLine => st
  }

  /** The state after the given lines. */
  function Run(st: ParseState, ls: seq<Line>): ParseState {
    if ls == [] then st else Step(Run(st, ls[..|ls| - 1]), ls[|ls| - 1])
  }

  /** "Handle last section": only a non-empty collection is written. */
  function Finish(st: ParseState): Parsed {
    if st.current.Some? && st.content != [] then Flush(st) else st.result
  }

  function ParseLines(ls: seq<Line>): Parsed {
    Finish(Run(START, ls))
  }

  /** The reply's lines, classified. */
  function ResponseLines(text: string): (ls: seq<Line>)
    ensures |ls| == |Split(Strip(text), '\n')|
  {
    var lines := Split(Strip(text), '\n');
    seq(|lines|, i requires 0 <= i < |lines| => Classify(lines[i]))
  }

  /** `_parse_llm_response(text)`: a total function, it never raises. */
  function ParsedResponse(text: string): Parsed {
    ParseLines(ResponseLines(text))
  }

  /** `_parse_llm_response`'s loop. */
  method ParseLlmResponse(text: string) returns (result: Parsed)
    ensures result == ParsedResponse(text)
  {
    var lines := Split(Strip(text), '\n');
    ghost var ls := ResponseLines(text);
    result := EMPTY_PARSE;
    var current: Option<Section> := None;
    var content: seq<string> := [];
    var i := 0;
    while i < |lines|
      invariant 0 <= i <= |lines|
      invariant Run(START, ls[..i]) == ParseState(result, current, content)
    {
      ghost var before := ParseState(result, current, content);
      RunStep(ls, i);
      assert ls[i] == Classify(lines[i]);
      var line := Strip(lines[i]);
      var header := HeaderOf(line);
      if header.Some? {
        if current.Some? {
          result := WithSection(result, current.value, Strip(Join(content, "\n")));
        }
        assert result == Flush(before);
        var sec := header.value.0;
        current := Some(sec);
        var rest := Strip(line[header.value.1..]);
        if sec == ScoreSection {
          var v := ParseInt(rest);
          result := result.(score := IntScore(if v.Some? then v.value else 0));
          content := [];
          assert ls[i] == ScoreLine(if v.Some? then v.value else 0);
        } else {
          content := [rest];
          assert ls[i] == HeaderLine(sec, rest);
        }
      } else if current.Some? && line != "" {
        content := content + [line];
        assert ls[i] == TextLine(line);
      } else {
        assert ls[i] == BlankLine || ls[i] == TextLine(line);
      }
      assert Step(before, ls[i]) == ParseState(result, current, content);
      i := i + 1;
    }
    if current.Some? && content != [] {
      result := WithSection(result, current.value, Strip(Join(content, "\n")));
    }
    PrefixAll(ls);
  }

  lemma RunStep(ls: seq<Line>, i: nat)
    requires i < |ls|
    ensures Run(START, ls[..i + 1]) == Step(Run(START, ls[..i]), ls[i])
  {
    assert ls[..i + 1][..i] == ls[..i];
  }

  lemma {:induction false} RunConcat(st: ParseState, a: seq<Line>, b: seq<Line>)
    ensures Run(st, a + b) == Run(Run(st, a), b)
    decreases |b|
  {
    if b == [] {
      assert a + b == a;
    } else {
      var ab := a + b;
      assert ab[..|ab| - 1] == a + b[..|b| - 1];
      assert ab[|ab| - 1] == b[|b| - 1];
      RunConcat(st, a, b[..|b| - 1]);
    }
  }

  /** Not a header of any kind. */
  predicate Body(l: Line) {
    l.TextLine? || l.BlankLine?
  }

  /** Before the first header nothing is collected. */
  lemma {:induction false} BodyFromStart(ls: seq<Line>)
    requires forall i :: 0 <= i < |ls| ==> Body(ls[i])
    ensures Run(START, ls) == START
    decreases |ls|
  {
    if ls != [] {
      BodyFromStart(ls[..|ls| - 1]);
    }
  }

  /** A reply without any header line parses to the defaults. */
  lemma NoHeadersGiveDefaults(ls: seq<Line>)
    requires forall i :: 0 <= i < |ls| ==> Body(ls[i])
    ensures ParseLines(ls) == EMPTY_PARSE
  {
    BodyFromStart(ls);
  }

  /** The text lines, in order. */
  function Texts(ls: seq<Line>): seq<string> {
    if ls == [] then []
    else Texts(ls[..|ls| - 1]) + (if ls[|ls| - 1].TextLine? then [ls[|ls| - 1].text] else [])
  }

  /** With a section open, text lines are collected and blank lines skipped. */
  lemma {:induction false} BodyCollects(st: ParseState, b: seq<Line>)
    requires st.current.Some?
    requires forall i :: 0 <= i < |b| ==> Body(b[i])
    ensures Run(st, b) == st.(content := st.content + Texts(b))
    decreases |b|
  {
    if b == [] {
      assert st.content + [] == st.content;
    } else {
      var init := b[..|b| - 1];
      BodyCollects(st, init);
      assert st.content + Texts(init) + (if b[|b| - 1].TextLine? then [b[|b| - 1].text] else []) ==
             st.content + Texts(b);
    }
  }

  /** A text section's value: the text after its header and the text lines
      after it, joined with "\n" and stripped; what came before the header
      does not matter. */
  lemma SectionBody(a: seq<Line>, sec: Section, rest: string, b: seq<Line>)
    requires sec != ScoreSection
    requires forall i :: 0 <= i < |b| ==> Body(b[i])
    ensures TextOf(ParseLines(a + [HeaderLine(sec, rest)] + b), sec) == Strip(Join([rest] + Texts(b), "\n"))
  {
    var h := [HeaderLine(sec, rest)];
    RunConcat(START, a + h, b);
    assert (a + h)[..|a|] == a;
    BodyCollects(Run(START, a + h), b);
  }

  /** A "Score:" line keeps its integer when only blank lines follow it. */
  lemma ScoreKept(a: seq<Line>, n: int, b: seq<Line>)
    requires forall i :: 0 <= i < |b| ==> b[i].BlankLine?
    ensures ParseLines(a + [ScoreLine(n)] + b).score == IntScore(n)
  {
    var h := [ScoreLine(n)];
    RunConcat(START, a + h, b);
    assert (a + h)[..|a|] == a;
    BodyCollects(Run(START, a + h), b);
    BlanksHaveNoText(b);
  }

  lemma {:induction false} BlanksHaveNoText(b: seq<Line>)
    requires forall i :: 0 <= i < |b| ==> b[i].BlankLine?
    ensures Texts(b) == []
    decreases |b|
  {
    if b != [] {
      BlanksHaveNoText(b[..|b| - 1]);
    }
  }

  /** The score section is open with nothing collected. */
  predicate ScoreOpen(st: ParseState) {
    st.current == Some(ScoreSection) && st.content == []
  }

  /** The score has been, or at the end will be, overwritten by text. */
  predicate ScoreOverwritten(st: ParseState) {
    (st.current == Some(ScoreSection) && st.content != []) ||
    (st.current != Some(ScoreSection) && st.result.score.TextScore?)
  }

  lemma OverwriteStep(st: ParseState, l: Line)
    requires !l.ScoreLine?
    ensures ScoreOverwritten(st) ==> ScoreOverwritten(Step(st, l))
    ensures ScoreOpen(st) && l.BlankLine? ==> Step(st, l) == st
    ensures ScoreOpen(st) && !l.BlankLine? ==> ScoreOverwritten(Step(st, l))
  {
    if l.HeaderLine? && (ScoreOpen(st) || ScoreOverwritten(st)) {
      HeaderOverwrites(st, l.sec, l.rest);
    }
  }

  lemma HeaderOverwrites(st: ParseState, sec: Section, rest: string)
    requires ScoreOpen(st) || ScoreOverwritten(st)
    ensures ScoreOverwritten(Step(st, HeaderLine(sec, rest)))
  {
    var f := Flush(st);
    assert Step(st, HeaderLine(sec, rest)) == ParseState(f, Some(sec), [rest]);
    if st.current == Some(ScoreSection) {
      assert f == st.result.(score := TextScore(Strip(Join(st.content, "\n"))));
    }
  }

  lemma {:induction false} Overwrites(st: ParseState, b: seq<Line>)
    requires forall i :: 0 <= i < |b| ==> !b[i].ScoreLine?
    requires ScoreOpen(st) || ScoreOverwritten(st)
    ensures ScoreOpen(Run(st, b)) || ScoreOverwritten(Run(st, b))
    ensures ScoreOverwritten(st) || (exists i :: 0 <= i < |b| && !b[i].BlankLine?) ==> ScoreOverwritten(Run(st, b))
    decreases |b|
  {
    if b != [] {
      var init := b[..|b| - 1];
      Overwrites(st, init);
      OverwriteStep(Run(st, init), b[|b| - 1]);
      if exists i :: 0 <= i < |b| && !b[i].BlankLine? {
        var i :| 0 <= i < |b| && !b[i].BlankLine?;
        if i < |init| {
          assert init[i] == b[i];
        }
      }
    }
  }

  /** A line that (re)opens the section: its header, or for the score a
      "Score:" line. */
  predicate Opens(l: Line, sec: Section) {
    (l.ScoreLine? && sec == ScoreSection) || (l.HeaderLine? && l.sec == sec)
  }

  /** Two results hold the same entry for the section. */
  predicate SameEntry(p: Parsed, q: Parsed, sec: Section) {
    if sec == ScoreSection then p.score == q.score else TextOf(p, sec) == TextOf(q, sec)
  }

  /** The section is closed and its entry is the one of `p`. */
  predicate Settled(st: ParseState, sec: Section, p: Parsed) {
    st.current != Some(sec) && SameEntry(st.result, p, sec)
  }

  lemma SettledFlush(st: ParseState, sec: Section, p: Parsed)
    requires Settled(st, sec, p)
    ensures SameEntry(Flush(st), p, sec)
  {
    if st.current.Some? && sec != ScoreSection {
      OtherSectionKept(st.result, st.current.value, Strip(Join(st.content, "\n")), sec);
    }
  }

  /** A closed section stays as it is until a line reopens it, the end of
      the reply included. */
  lemma {:induction false} SettledRun(st: ParseState, sec: Section, p: Parsed, c: seq<Line>)
    requires Settled(st, sec, p)
    requires forall i :: 0 <= i < |c| ==> !Opens(c[i], sec)
    ensures Settled(Run(st, c), sec, p)
    ensures SameEntry(Finish(Run(st, c)), p, sec)
    decreases |c|
  {
    if c != [] {
      var init := c[..|c| - 1];
      SettledRun(st, sec, p, init);
      var l := c[|c| - 1];
      var before := Run(st, init);
      assert Run(st, c) == Step(before, l);
      assert !Opens(l, sec);
      if l.ScoreLine? || l.HeaderLine? {
        SettledFlush(before, sec, p);
        assert Step(before, l).current != Some(sec);
      }
    }
    SettledFlush(Run(st, c), sec, p);
  }

  /** Running over `x`, one line `l`, then `y`. */
  lemma RunAround(st: ParseState, x: seq<Line>, l: Line, y: seq<Line>)
    ensures Run(st, x + [l] + y) == Run(Step(Run(st, x), l), y)
  {
    RunConcat(st, x + [l], y);
    assert (x + [l])[..|x|] == x;
  }

  /** A text section ends at the next header or "Score:" line: its value is
      the text after its header and the text lines up to that line, joined
      with "\n" and stripped, unless a later header of its own reopens it. */
  lemma SectionEndsAtNextHeader(a: seq<Line>, sec: Section, rest: string, b: seq<Line>, l: Line, c: seq<Line>)
    requires sec != ScoreSection
    requires forall i :: 0 <= i < |b| ==> Body(b[i])
    requires !Body(l) && !Opens(l, sec)
    requires forall i :: 0 <= i < |c| ==> !Opens(c[i], sec)
    ensures TextOf(ParseLines(a + [HeaderLine(sec, rest)] + b + [l] + c), sec) == Strip(Join([rest] + Texts(b), "\n"))
  {
    var st := Run(START, a + [HeaderLine(sec, rest)]);
    RunAround(START, a, HeaderLine(sec, rest), []);
    assert a + [HeaderLine(sec, rest)] + [] == a + [HeaderLine(sec, rest)];
    BodyCollects(st, b);
    RunConcat(START, a + [HeaderLine(sec, rest)], b);
    RunAround(START, a + [HeaderLine(sec, rest)] + b, l, c);
    var closed := Step(Run(START, a + [HeaderLine(sec, rest)] + b), l);
    SettledRun(closed, sec, closed.result, c);
  }

  /** Where the score's text comes from: the lines after the last "Score:"
      line up to the first header that follows it, or all of them. */
  function FirstHeader(b: seq<Line>): (k: nat)
    ensures k <= |b|
    ensures forall i :: 0 <= i < k ==> Body(b[i])
    ensures k < |b| ==> !Body(b[k])
  {
    if b == [] || !Body(b[0]) then 0 else 1 + FirstHeader(b[1..])
  }

  /** Body lines of which one is not blank hold some text. */
  lemma {:induction false} SomeText(b: seq<Line>)
    requires forall i :: 0 <= i < |b| ==> Body(b[i])
    requires exists i :: 0 <= i < |b| && !b[i].BlankLine?
    ensures Texts(b) != []
    decreases |b|
  {
    var init := b[..|b| - 1];
    if !b[|b| - 1].TextLine? {
      var i :| 0 <= i < |b| && !b[i].BlankLine?;
      assert init[i] == b[i];
      SomeText(init);
    }
  }

  lemma SplitAt(p: seq<Line>, b: seq<Line>, k: nat)
    requires k < |b|
    ensures p + b == p + b[..k] + [b[k]] + b[k + 1..]
  {
    assert b == b[..k] + [b[k]] + b[k + 1..];
  }

  /** Once a line that is not blank follows the last "Score:" line, the
      score becomes the text collected after it: the text lines up to the
      first header that follows (the empty text when that header comes
      right away), or up to the end of the reply. */
  lemma ScoreBecomesText(a: seq<Line>, n: int, b: seq<Line>)
    requires forall i :: 0 <= i < |b| ==> !Opens(b[i], ScoreSection)
    requires exists i :: 0 <= i < |b| && !b[i].BlankLine?
    ensures ParseLines(a + [ScoreLine(n)] + b).score == TextScore(Strip(Join(Texts(b[..FirstHeader(b)]), "\n")))
  {
    var k := FirstHeader(b);
    var pre := a + [ScoreLine(n)];
    var open0 := Run(START, pre);
    assert ScoreOpen(open0) by {
      RunAround(START, a, ScoreLine(n), []);
      assert a + [ScoreLine(n)] + [] == a + [ScoreLine(n)];
    }
    assert Run(START, pre + b[..k]) == open0.(content := Texts(b[..k])) by {
      assert forall i :: 0 <= i < k ==> Body(b[..k][i]);
      BodyCollects(open0, b[..k]);
      RunConcat(START, pre, b[..k]);
    }
    if k < |b| {
      ScoreTextClosed(pre, b, k, open0);
    } else {
      assert b[..k] == b;
      ScoreTextToEnd(pre, b, open0);
    }
  }

  /** The score text collected after "Score:" is closed by the header that
      follows it, and nothing later reopens the score. */
  lemma ScoreTextClosed(pre: seq<Line>, b: seq<Line>, k: nat, open0: ParseState)
    requires k == FirstHeader(b) && k < |b|
    requires forall i :: 0 <= i < |b| ==> !Opens(b[i], ScoreSection)
    requires ScoreOpen(open0)
    requires Run(START, pre + b[..k]) == open0.(content := Texts(b[..k]))
    ensures ParseLines(pre + b).score == TextScore(Strip(Join(Texts(b[..k]), "\n")))
  {
    var c := b[k + 1..];
    SplitAt(pre, b, k);
    RunAround(START, pre + b[..k], b[k], c);
    var closed := Step(Run(START, pre + b[..k]), b[k]);
    assert b[k].HeaderLine? && b[k].sec != ScoreSection by {
      assert !Body(b[k]) && !Opens(b[k], ScoreSection);
    }
    assert closed.result.score == TextScore(Strip(Join(Texts(b[..k]), "\n"))) && closed.current != Some(ScoreSection);
    assert forall i :: 0 <= i < |c| ==> !Opens(c[i], ScoreSection) by {
      assert forall i :: 0 <= i < |c| ==> c[i] == b[k + 1 + i];
    }
    SettledRun(closed, ScoreSection, closed.result, c);
  }

  /** The score text collected after "Score:" runs to the end of the reply
      and holds a line that is not blank. */
  lemma ScoreTextToEnd(pre: seq<Line>, b: seq<Line>, open0: ParseState)
    requires FirstHeader(b) == |b|
    requires exists i :: 0 <= i < |b| && !b[i].BlankLine?
    requires ScoreOpen(open0)
    requires Run(START, pre + b) == open0.(content := Texts(b))
    ensures ParseLines(pre + b).score == TextScore(Strip(Join(Texts(b), "\n")))
  {
    SomeText(b);
  }

  /** The line "Score: " followed by a number opens the score with that
      number. */
  lemma ScoreLineRead(n: nat)
    ensures Classify("Score: " + NatToString(n)) == ScoreLine(n)
  {
    var d := NatToString(n);
    var line := "Score: " + d;
    assert !IsSpace(line[0]) && !IsSpace(line[|line| - 1]);
    assert Strip(line) == line;
    assert !StartsWith(line, "Summary:") by {
      assert line[1] != "Summary:"[1];
    }
    assert StartsWith(line, "Score:");
    assert line[6..] == " " + d;
    assert StripStart(" " + d) == StripStart(d) by {
      assert (" " + d)[1..] == d;
    }
    assert !IsSpace(d[0]) && !IsSpace(d[|d| - 1]);
    assert Strip(line[6..]) == d;
    ParseNatToString(n);
  }

  /** Two parser states that will give the same text for section `sec`. */
  predicate SameTrack(s: ParseState, t: ParseState, sec: Section)
    requires sec != ScoreSection
  {
    s.current == t.current && s.content == t.content &&
    (s.current == Some(sec) ==> s.content != []) &&
    (s.current == Some(sec) || TextOf(s.result, sec) == TextOf(t.result, sec))
  }

  lemma TrackStep(s: ParseState, t: ParseState, sec: Section, l: Line)
    requires sec != ScoreSection && SameTrack(s, t, sec)
    ensures SameTrack(Step(s, l), Step(t, l), sec)
  {
    if l.ScoreLine? || l.HeaderLine? {
      FlushTracks(s, t, sec);
    }
  }

  /** Writing the open section leaves `sec`'s text the same in both. */
  lemma FlushTracks(s: ParseState, t: ParseState, sec: Section)
    requires sec != ScoreSection && SameTrack(s, t, sec)
    ensures TextOf(Flush(s), sec) == TextOf(Flush(t), sec)
  {
    if s.current.Some? {
      var x := Strip(Join(s.content, "\n"));
      assert Flush(s) == WithSection(s.result, s.current.value, x);
      assert Flush(t) == WithSection(t.result, s.current.value, x);
      if s.current.value != sec {
        OtherSectionKept(s.result, s.current.value, x, sec);
        OtherSectionKept(t.result, s.current.value, x, sec);
      }
    }
  }

  lemma OtherSectionKept(p: Parsed, other: Section, x: string, sec: Section)
    requires sec != ScoreSection && other != sec
    ensures TextOf(WithSection(p, other, x), sec) == TextOf(p, sec)
  {
  }

  lemma {:induction false} Tracks(s: ParseState, t: ParseState, sec: Section, b: seq<Line>)
    requires sec != ScoreSection && SameTrack(s, t, sec)
    ensures SameTrack(Run(s, b), Run(t, b), sec)
    decreases |b|
  {
    if b != [] {
      Tracks(s, t, sec, b[..|b| - 1]);
      TrackStep(Run(s, b[..|b| - 1]), Run(t, b[..|b| - 1]), sec, b[|b| - 1]);
    }
  }

  /** A repeated header restarts its section: a text section's value
      depends only on the lines from any one of its headers onwards. */
  lemma RestartForgetsEarlier(a: seq<Line>, sec: Section, rest: string, b: seq<Line>)
    requires sec != ScoreSection
    ensures TextOf(ParseLines(a + [HeaderLine(sec, rest)] + b), sec) ==
            TextOf(ParseLines([HeaderLine(sec, rest)] + b), sec)
  {
    var h := [HeaderLine(sec, rest)];
    var s, t := Run(START, a + h), Run(START, h);
    assert s.current == Some(sec) && s.content == [rest] by {
      assert (a + h)[..|a|] == a;
    }
    assert t.current == Some(sec) && t.content == [rest] by {
      assert h[..0] == [];
    }
    Tracks(s, t, sec, b);
    assert ParseLines(a + h + b) == Finish(Run(s, b)) by {
      RunConcat(START, a + h, b);
    }
    assert ParseLines(h + b) == Finish(Run(t, b)) by {
      RunConcat(START, h, b);
    }
    FinishTracks(Run(s, b), Run(t, b), sec);
  }

  /** Finishing keeps `sec`'s text the same in both. */
  lemma FinishTracks(s: ParseState, t: ParseState, sec: Section)
    requires sec != ScoreSection && SameTrack(s, t, sec)
    ensures TextOf(Finish(s), sec) == TextOf(Finish(t), sec)
  {
    if s.current.Some? && s.content != [] {
      FlushTracks(s, t, sec);
    }
  }

  // Change detection, the completion call and the write-back.

  /** `_get_json_hash(doc)`: the digest of the document's sorted-key dump. */
  function JsonHash(codec: Codec, doc: Json): string {
    codec.digest(codec.canonical(doc))
  }

  /** `response.usage`: absent (counted as 0 tokens), None, or a token
      count. */
  datatype Usage = NoUsage | NullUsage | Tokens(total: nat)

  /** The completion call for a document's prompt: it raises, or returns the
      message content (possibly None) and the usage. The prompt is built from
      the document alone, so the call is a function of the document. */
  datatype Completion = CallFailed | Completed(content: Option<string>, usage: Usage)

  /** The parsed reply: a JSON value when the stripped content is JSON,
      otherwise the section parser's result. */
  datatype Reply = JsonReply(value: Json) | TextReply(parsed: Parsed)

  function Interpret(codec: Codec, content: string): Reply {
    var decoded := codec.decode(Strip(content));
    if decoded.Some? then JsonReply(decoded.value) else TextReply(ParsedResponse(content))
  }

  /** The one-character strings of a text, in order. */
  function Chars(s: string): seq<string> {
    seq(|s|, i requires 0 <= i < |s| => [s[i]])
  }

  /** `"\n".join(s)` on a text: Python iterates over its characters. */
  function JoinChars(s: string): string {
    Join(Chars(s), "\n")
  }

  /** Joining a text's characters puts a line break between every two of
      them. */
  lemma {:induction false} JoinCharsSpread(s: string)
    requires s != []
    ensures |JoinChars(s)| == 2 * |s| - 1
    ensures forall j :: 0 <= j < |JoinChars(s)| && j % 2 == 0 ==> JoinChars(s)[j] == s[j / 2]
    ensures forall j :: 0 <= j < |JoinChars(s)| && j % 2 == 1 ==> JoinChars(s)[j] == '\n'
    decreases |s|
  {
    if |s| >= 2 {
      assert Chars(s)[1..] == Chars(s[1..]);
      JoinCharsSpread(s[1..]);
      var r := JoinChars(s);
      var t := JoinChars(s[1..]);
      assert r == [s[0]] + "\n" + t;
      forall j | 2 <= j < |r|
        ensures r[j] == t[j - 2]
      {
      }
    }
  }

  /** `"\n".join(follow_ups)` on a value from a JSON reply: a text is split
      into characters, a list must hold only texts; anything else raises. */
  function FollowUpsText(v: Json): Option<string> {
    match v
    case JStr(s) => Some(JoinChars(s))
    case JArr(items) =>
      if forall i :: 0 <= i < |items| ==> items[i].JStr? then
        Some(Join(seq(|items|, i requires 0 <= i < |items| => if items[i].JStr? then items[i].s else ""), "\n"))
      else None
    case _ => None
  }

  /** The `LLM Score` value the section parser's score becomes. */
  function ScoreValue(sc: Score): Json {
    match sc
    case IntScore(n) => JNum(n as real)
    case TextScore(t) => JStr(t)
  }

  const SUMMARY_FIELD := "LLM Summary"
  const SCORE_FIELD := "LLM Score"
  const FOLLOW_UPS_FIELD := "LLM Follow-Ups"
  const HASH_FIELD := "LLM Data Hash"

  /** `update_fields`, or None when building it raises (a JSON reply that is
      not an object, lacks a key or has follow-ups that cannot be joined). */
  function WriteBack(reply: Reply): Option<Fields> {
    match reply
    case TextReply(p) =>
      Some(map[SUMMARY_FIELD := JStr(p.summary), SCORE_FIELD := ScoreValue(p.score),
               FOLLOW_UPS_FIELD := JStr(JoinChars(p.followUps))])
    case JsonReply(j) =>
      if j.JObj? && "follow_ups" in j.members && "summary" in j.members && "score" in j.members &&
         FollowUpsText(j.members["follow_ups"]).Some?
      then Some(map[SUMMARY_FIELD := j.members["summary"], SCORE_FIELD := j.members["score"],
                    FOLLOW_UPS_FIELD := JStr(FollowUpsText(j.members["follow_ups"]).value)])
      else None
  }

  /** The write-back names exactly the three LLM fields, never the hash,
      and a reply the section parser handled always yields one. */
  lemma WriteBackFields(reply: Reply)
    ensures reply.TextReply? ==> WriteBack(reply).Some?
    ensures WriteBack(reply).Some? ==> WriteBack(reply).value.Keys == {SUMMARY_FIELD, SCORE_FIELD, FOLLOW_UPS_FIELD}
    ensures WriteBack(reply).Some? ==> HASH_FIELD !in WriteBack(reply).value
  {
  }

  /** What `evaluate_applicant` reports. */
  datatype LlmResult =
    | LlmFailed(error: Error)
    | Unchanged                                   // "No changes detected"
    | Evaluated(reply: Reply, tokens: nat)

  /** The stored hash is the document's and a summary is present. */
  predicate UpToDate(app: Record, doc: Json, codec: Codec) {
    SafeGetField(app, HASH_FIELD, JNull) == JStr(JsonHash(codec, doc)) && Truthy(SafeGetField(app, SUMMARY_FIELD, JNull))
  }

  /** How far `evaluate_applicant` gets before writing: it stops with a
      result, or it has the fields to write. */
  datatype Plan = Stop(result: LlmResult) | Write(fields: Fields, reply: Reply, usage: Usage)

  function PlanFor(app: Record, codec: Codec, llm: Json -> Completion): Plan {
    var compressed := SafeGetField(app, "Compressed JSON", JNull);
    if !Truthy(compressed) then Stop(LlmFailed(NoCompressedJson))
    else match ParseStored(codec, compressed)
      case None => Stop(LlmFailed(InvalidJson))
      case Some(doc) =>
        if UpToDate(app, doc, codec) then Stop(Unchanged)
        else match llm(doc)
          case CallFailed => Stop(LlmFailed(LlmCallFailed))
          case Completed(content, usage) =>
            if content.None? then Stop(LlmFailed(MalformedLlmResult))
            else
              var reply := Interpret(codec, content.value);
              var fields := WriteBack(reply);
              if fields.None? then Stop(LlmFailed(MalformedLlmResult))
              else Write(fields.value, reply, usage)
  }

  /** `evaluate_applicant(app)` against the applicants table. The token
      count is read after the write, so a usage of None fails an
      evaluation whose fields are already stored. */
  function Outcome(applicants: seq<Record>, app: Record, codec: Codec, llm: Json -> Completion, svc: Service): LlmResult {
    match PlanFor(app, codec, llm)
    case Stop(r) => r
    case Write(fields, reply, usage) =>
      if FindRecord(applicants, app.id).None? then LlmFailed(RecordNotFound)
      else if svc.refusesUpdate(app.id, fields) then LlmFailed(WriteRefused)
      else if usage.NullUsage? then LlmFailed(NoTokenCount)
      else Evaluated(reply, if usage.Tokens? then usage.total else 0)
  }

  /** The update `evaluate_applicant(app)` asks the store for, unless the
      store refuses it (an update of an unknown id changes nothing). */
  function WriteOf(app: Record, codec: Codec, llm: Json -> Completion, svc: Service): Option<Fields> {
    match PlanFor(app, codec, llm)
    case Stop(_) => None
    case Write(fields, _, _) => if svc.refusesUpdate(app.id, fields) then None else Some(fields)
  }

  /** The applicant's fields are written exactly when it is evaluated or
      fails only on reading the token count, and what is written is the
      write-back of the reply. */
  lemma WriteOfOutcome(applicants: seq<Record>, app: Record, codec: Codec, llm: Json -> Completion, svc: Service)
    ensures var o := Outcome(applicants, app, codec, llm, svc);
            WriteOf(app, codec, llm, svc).Some? && FindRecord(applicants, app.id).Some? <==>
              o.Evaluated? || o == LlmFailed(NoTokenCount)
    ensures var o := Outcome(applicants, app, codec, llm, svc);
            o.Evaluated? ==> WriteOf(app, codec, llm, svc) == WriteBack(o.reply)
  {
  }

  /** The evaluation is skipped exactly when the stored document parses and
      is up to date; a missing, unreadable or up-to-date document is decided
      without the completion call, whatever it would return. */
  lemma SkipRule(app: Record, codec: Codec, llm: Json -> Completion, other: Json -> Completion,
                 applicants: seq<Record>, svc: Service)
    ensures var compressed := SafeGetField(app, "Compressed JSON", JNull);
            Outcome(applicants, app, codec, llm, svc) == Unchanged <==>
              Truthy(compressed) && ParseStored(codec, compressed).Some? &&
              UpToDate(app, ParseStored(codec, compressed).value, codec)
    ensures var compressed := SafeGetField(app, "Compressed JSON", JNull);
            !Truthy(compressed) || ParseStored(codec, compressed).None? ||
            UpToDate(app, ParseStored(codec, compressed).value, codec) ==>
              PlanFor(app, codec, llm) == PlanFor(app, codec, other)
  {
  }

  /** The pipeline never stores the hash, so an applicant without one is
      sent to the model again on every run, even right after its own
      evaluation. */
  lemma ReevaluatedEveryRun(app: Record, codec: Codec, llm: Json -> Completion, reply: Reply)
    requires !SafeGetField(app, HASH_FIELD, JNull).JStr?
    requires WriteBack(reply).Some?
    ensures PlanFor(app, codec, llm) != Stop(Unchanged)
    ensures var after := Record(app.id, Some(FieldsOf(app) + WriteBack(reply).value));
            !SafeGetField(after, HASH_FIELD, JNull).JStr? && PlanFor(after, codec, llm) != Stop(Unchanged)
  {
    WriteBackFields(reply);
  }

  /** `evaluate_applicant(applicant_record)`. The `retry_with_backoff`
      wrapper calls it once: every failure is caught and reported, so it
      never raises. */
  method EvaluateApplicant(store: Store, app: Record, codec: Codec, llm: Json -> Completion, svc: Service)
    returns (r: LlmResult)
    modifies store
    ensures r == Outcome(old(store.applicants), app, codec, llm, svc)
    ensures store.applicants ==
              if WriteOf(app, codec, llm, svc).Some? then Patch(old(store.applicants), app.id, WriteOf(app, codec, llm, svc).value)
              else old(store.applicants)
    ensures store.personal == old(store.personal) && store.experience == old(store.experience)
    ensures store.salary == old(store.salary) && store.shortlisted == old(store.shortlisted)
    ensures store.created == old(store.created)
  {
    var compressed := SafeGetField(app, "Compressed JSON", JNull);
    if !Truthy(compressed) {
      return LlmFailed(NoCompressedJson);
    }
    var doc := ParseStored(codec, compressed);
    if doc.None? {
      return LlmFailed(InvalidJson);
    }
    var currentHash := JsonHash(codec, doc.value);
    var storedHash := SafeGetField(app, HASH_FIELD, JNull);
    if storedHash == JStr(currentHash) && Truthy(SafeGetField(app, SUMMARY_FIELD, JNull)) {
      return Unchanged;
    }
    var response := llm(doc.value);
    if response.CallFailed? {
      return LlmFailed(LlmCallFailed);
    }
    if response.content.None? {
      return LlmFailed(MalformedLlmResult);
    }
    var text := response.content.value;
    var reply: Reply;
    var decoded := codec.decode(Strip(text));
    if decoded.Some? {
      reply := JsonReply(decoded.value);
    } else {
      var parsed := ParseLlmResponse(text);
      reply := TextReply(parsed);
    }
    var updateFields := WriteBack(reply);
    if updateFields.None? {
      return LlmFailed(MalformedLlmResult);
    }
    var found := FindRecord(store.applicants, app.id).Some?;
    if !found {
      PatchAbsent(store.applicants, app.id, updateFields.value);
    }
    var ok := store.UpdateApplicant(app.id, updateFields.value, svc);
    if !ok {
      return LlmFailed(if found then WriteRefused else RecordNotFound);
    }
    if response.usage.NullUsage? {
      return LlmFailed(NoTokenCount);
    }
    r := Evaluated(reply, if response.usage.Tokens? then response.usage.total else 0);
  }

  // The batch.

  /** Why an applicant was skipped: "No compressed JSON" or "No changes
      detected". */
  datatype SkipReason = NoDocument | NoChanges

  /** The lists and the token total `evaluate_all_applicants` returns. */
  datatype LlmReport = LlmReport(success: seq<string>, failed: seq<(string, Error)>,
                                 skipped: seq<(string, SkipReason)>, totalTokens: nat)

  predicate HasDocument(app: Record) {
    Truthy(SafeGetField(app, "Compressed JSON", JNull))
  }

  /** The report after one more applicant. */
  function Tally(rep: LlmReport, app: Record, o: LlmResult): LlmReport {
    if !HasDocument(app) then rep.(skipped := rep.skipped + [(app.id, NoDocument)])
    else match o
      case Unchanged => rep.(skipped := rep.skipped + [(app.id, NoChanges)])
      case Evaluated(_, tokens) => rep.(success := rep.success + [app.id], totalTokens := rep.totalTokens + tokens)
      case LlmFailed(e) => rep.(failed := rep.failed + [(app.id, e)])
  }

  /** The report over the applicants, each evaluated by `outcome`. */
  function LlmAllReport(apps: seq<Record>, outcome: Record -> LlmResult): LlmReport {
    if apps == [] then LlmReport([], [], [], 0)
    else Tally(LlmAllReport(apps[..|apps| - 1], outcome), apps[|apps| - 1], outcome(apps[|apps| - 1]))
  }

  /** Each applicant evaluated against the table the batch started from. */
  function Outcomes(applicants: seq<Record>, codec: Codec, llm: Json -> Completion, svc: Service): Record -> LlmResult {
    app => Outcome(applicants, app, codec, llm, svc)
  }

  /** Where an applicant with a document is filed: evaluated in `success`,
      up to date among the skipped, failed in `failed` with its error. */
  predicate FiledAs(rep: LlmReport, id: string, o: LlmResult) {
    match o
    case Unchanged => (id, NoChanges) in rep.skipped
    case Evaluated(_, _) => id in rep.success
    case LlmFailed(e) => (id, e) in rep.failed
  }

  /** Every applicant lands in exactly one list. */
  lemma {:induction false} LlmAllCounts(apps: seq<Record>, outcome: Record -> LlmResult)
    ensures var r := LlmAllReport(apps, outcome);
            |r.success| + |r.failed| + |r.skipped| == |apps|
    decreases |apps|
  {
    if apps != [] {
      LlmAllCounts(apps[..|apps| - 1], outcome);
    }
  }

  /** Those skipped for want of a document are exactly the ones without
      one. */
  lemma {:induction false} LlmAllNoDocument(apps: seq<Record>, outcome: Record -> LlmResult)
    ensures forall id :: (id, NoDocument) in LlmAllReport(apps, outcome).skipped <==>
                         exists k :: 0 <= k < |apps| && apps[k].id == id && !HasDocument(apps[k])
    decreases |apps|
  {
    if apps != [] {
      var init := apps[..|apps| - 1];
      LlmAllNoDocument(init, outcome);
      forall id | exists k :: 0 <= k < |apps| && apps[k].id == id && !HasDocument(apps[k])
        ensures (id, NoDocument) in LlmAllReport(apps, outcome).skipped
      {
        var k :| 0 <= k < |apps| && apps[k].id == id && !HasDocument(apps[k]);
        if k < |init| {
          assert init[k] == apps[k];
        }
      }
      forall id | (id, NoDocument) in LlmAllReport(apps, outcome).skipped
        ensures exists k :: 0 <= k < |apps| && apps[k].id == id && !HasDocument(apps[k])
      {
        if (id, NoDocument) in LlmAllReport(init, outcome).skipped {
          var k :| 0 <= k < |init| && init[k].id == id && !HasDocument(init[k]);
          assert apps[k] == init[k];
        } else {
          assert apps[|apps| - 1].id == id && !HasDocument(apps[|apps| - 1]);
        }
      }
    }
  }

  /** Every applicant with a document is filed where its result says. */
  lemma {:induction false} LlmAllFiled(apps: seq<Record>, outcome: Record -> LlmResult)
    ensures forall k :: 0 <= k < |apps| && HasDocument(apps[k]) ==>
                          FiledAs(LlmAllReport(apps, outcome), apps[k].id, outcome(apps[k]))
    decreases |apps|
  {
    if apps != [] {
      var init := apps[..|apps| - 1];
      LlmAllFiled(init, outcome);
      var prev := LlmAllReport(init, outcome);
      var r := LlmAllReport(apps, outcome);
      forall k | 0 <= k < |apps| && HasDocument(apps[k]) ensures FiledAs(r, apps[k].id, outcome(apps[k])) {
        if k < |init| {
          assert init[k] == apps[k];
          assert FiledAs(prev, init[k].id, outcome(init[k]));
        }
      }
    }
  }

  /** Every entry of `success`, `failed` and the up-to-date skips comes from
      an applicant with a document whose result says so. */
  lemma {:induction false} LlmAllOrigins(apps: seq<Record>, outcome: Record -> LlmResult)
    ensures forall id :: id in LlmAllReport(apps, outcome).success ==>
                         exists k :: 0 <= k < |apps| && apps[k].id == id && HasDocument(apps[k]) &&
                                     outcome(apps[k]).Evaluated?
    ensures forall e :: e in LlmAllReport(apps, outcome).failed ==>
                        exists k :: 0 <= k < |apps| && apps[k].id == e.0 && HasDocument(apps[k]) &&
                                    outcome(apps[k]) == LlmFailed(e.1)
    ensures forall id :: (id, NoChanges) in LlmAllReport(apps, outcome).skipped ==>
                         exists k :: 0 <= k < |apps| && apps[k].id == id && HasDocument(apps[k]) &&
                                     outcome(apps[k]) == Unchanged
    decreases |apps|
  {
    if apps != [] {
      var init := apps[..|apps| - 1];
      LlmAllOrigins(init, outcome);
      assert forall k :: 0 <= k < |init| ==> init[k] == apps[k];
    }
  }

  /** Every applicant lands in exactly one list, those skipped for want of a
      document are exactly the ones without one, every other applicant is
      filed where its result says, and every entry comes from such an
      applicant. */
  lemma LlmAllPartition(apps: seq<Record>, outcome: Record -> LlmResult)
    ensures var r := LlmAllReport(apps, outcome);
            |r.success| + |r.failed| + |r.skipped| == |apps|
    ensures forall id :: (id, NoDocument) in LlmAllReport(apps, outcome).skipped <==>
                         exists k :: 0 <= k < |apps| && apps[k].id == id && !HasDocument(apps[k])
    ensures forall k :: 0 <= k < |apps| && HasDocument(apps[k]) ==>
                          FiledAs(LlmAllReport(apps, outcome), apps[k].id, outcome(apps[k]))
    ensures forall id :: id in LlmAllReport(apps, outcome).success ==>
                         exists k :: 0 <= k < |apps| && apps[k].id == id && HasDocument(apps[k]) &&
                                     outcome(apps[k]).Evaluated?
    ensures forall e :: e in LlmAllReport(apps, outcome).failed ==>
                        exists k :: 0 <= k < |apps| && apps[k].id == e.0 && HasDocument(apps[k]) &&
                                    outcome(apps[k]) == LlmFailed(e.1)
    ensures forall id :: (id, NoChanges) in LlmAllReport(apps, outcome).skipped ==>
                         exists k :: 0 <= k < |apps| && apps[k].id == id && HasDocument(apps[k]) &&
                                     outcome(apps[k]) == Unchanged
  {
    LlmAllCounts(apps, outcome);
    LlmAllNoDocument(apps, outcome);
    LlmAllFiled(apps, outcome);
    LlmAllOrigins(apps, outcome);
  }

  /** The batch checks for a document first, so "No compressed JSON found"
      never appears among the failures. */
  lemma {:induction false} NeverFailsForMissingDocument(apps: seq<Record>, applicants: seq<Record>, codec: Codec,
                                                        llm: Json -> Completion, svc: Service)
    ensures forall e :: e in LlmAllReport(apps, Outcomes(applicants, codec, llm, svc)).failed ==> e.1 != NoCompressedJson
    decreases |apps|
  {
    if apps != [] {
      NeverFailsForMissingDocument(apps[..|apps| - 1], applicants, codec, llm, svc);
    }
  }

  lemma LlmAllReportStep(apps: seq<Record>, i: nat, outcome: Record -> LlmResult)
    requires i < |apps|
    ensures LlmAllReport(apps[..i + 1], outcome) == Tally(LlmAllReport(apps[..i], outcome), apps[i], outcome(apps[i]))
  {
    assert apps[..i + 1][..i] == apps[..i];
  }

  /** Only the table's ids matter to an evaluation. */
  lemma OutcomeSameIds(a: seq<Record>, b: seq<Record>, app: Record, codec: Codec, llm: Json -> Completion, svc: Service)
    requires SameIds(a, b)
    ensures Outcome(a, app, codec, llm, svc) == Outcome(b, app, codec, llm, svc)
  {
    assert FindRecord(a, app.id).Some? == FindRecord(b, app.id).Some?;
  }

  /** The updates of the batch: every applicant with a document is
      evaluated and asks for its own write. */
  function Writes(codec: Codec, llm: Json -> Completion, svc: Service): Record -> Option<Fields> {
    app => WriteOf(app, codec, llm, svc)
  }

  /** After the batch, an applicant it evaluated carries the write-back of
      its reply and is listed as a success (record ids are unique). */
  lemma EvaluatedCarryReply(apps: seq<Record>, codec: Codec, llm: Json -> Completion, svc: Service, k: nat)
    requires k < |apps| && Outcome(apps, apps[k], codec, llm, svc).Evaluated?
    requires forall j :: 0 <= j < |apps| && j != k ==> apps[j].id != apps[k].id
    ensures var w := WriteBack(Outcome(apps, apps[k], codec, llm, svc).reply);
            var after := FieldsOf(PatchEach(apps, apps, Writes(codec, llm, svc))[k]);
            w.Some? && forall key :: key in w.value ==> key in after && after[key] == w.value[key]
    ensures apps[k].id in LlmAllReport(apps, Outcomes(apps, codec, llm, svc)).success
  {
    EvaluatedWritten(apps, codec, llm, svc, k);
    EvaluatedListed(apps, codec, llm, svc, k);
  }

  lemma EvaluatedWritten(apps: seq<Record>, codec: Codec, llm: Json -> Completion, svc: Service, k: nat)
    requires k < |apps| && Outcome(apps, apps[k], codec, llm, svc).Evaluated?
    requires forall j :: 0 <= j < |apps| && j != k ==> apps[j].id != apps[k].id
    ensures var w := WriteBack(Outcome(apps, apps[k], codec, llm, svc).reply);
            var after := FieldsOf(PatchEach(apps, apps, Writes(codec, llm, svc))[k]);
            w.Some? && forall key :: key in w.value ==> key in after && after[key] == w.value[key]
  {
    WriteOfOutcome(apps, apps[k], codec, llm, svc);
    PatchEachWritten(apps, apps, Writes(codec, llm, svc), k, k);
  }

  lemma EvaluatedListed(apps: seq<Record>, codec: Codec, llm: Json -> Completion, svc: Service, k: nat)
    requires k < |apps| && Outcome(apps, apps[k], codec, llm, svc).Evaluated?
    ensures apps[k].id in LlmAllReport(apps, Outcomes(apps, codec, llm, svc)).success
  {
    var outcome := Outcomes(apps, codec, llm, svc);
    assert HasDocument(apps[k]) && outcome(apps[k]) == Outcome(apps, apps[k], codec, llm, svc);
    LlmAllFiled(apps, outcome);
  }

  /** One applicant of the batch: evaluated against the table the earlier
      writes left, it has the result it has against the table the batch
      started from. */
  lemma LlmBatchStep(apps: seq<Record>, i: nat, codec: Codec, llm: Json -> Completion, svc: Service,
                     before: seq<Record>)
    requires i < |apps|
    requires before == PatchEach(apps, apps[..i], Writes(codec, llm, svc))
    ensures Outcome(before, apps[i], codec, llm, svc) == Outcomes(apps, codec, llm, svc)(apps[i])
  {
    PatchEachSameIds(apps, apps[..i], Writes(codec, llm, svc));
    OutcomeSameIds(before, apps, apps[i], codec, llm, svc);
  }

  /** `evaluate_all_applicants()`; the pause between requests is left out. */
  method EvaluateAllApplicants(store: Store, codec: Codec, llm: Json -> Completion, svc: Service)
    returns (report: LlmReport)
    modifies store
    ensures report == LlmAllReport(old(store.applicants), Outcomes(old(store.applicants), codec, llm, svc))
    ensures store.applicants == PatchEach(old(store.applicants), old(store.applicants), Writes(codec, llm, svc))
    ensures SameIds(store.applicants, old(store.applicants))
    ensures store.personal == old(store.personal) && store.experience == old(store.experience)
    ensures store.salary == old(store.salary) && store.shortlisted == old(store.shortlisted)
  {
    var apps := store.GetAllApplicants();
    ghost var outcome := Outcomes(apps, codec, llm, svc);
    report := LlmReport([], [], [], 0);
    var i := 0;
    while i < |apps|
      invariant 0 <= i <= |apps|
      invariant report == LlmAllReport(apps[..i], outcome)
      invariant store.applicants == PatchEach(apps, apps[..i], Writes(codec, llm, svc))
      invariant store.personal == old(store.personal) && store.experience == old(store.experience)
      invariant store.salary == old(store.salary) && store.shortlisted == old(store.shortlisted)
    {
      var app := apps[i];
      LlmAllReportStep(apps, i, outcome);
      PatchEachStep(apps, apps, i, Writes(codec, llm, svc));
      if !HasDocument(app) {
        report := report.(skipped := report.skipped + [(app.id, NoDocument)]);
        i := i + 1;
        continue;
      }
      LlmBatchStep(apps, i, codec, llm, svc, store.applicants);
      var result := EvaluateApplicant(store, app, codec, llm, svc);
      report := Tally(report, app, result);
      i := i + 1;
    }
    PrefixAll(apps);
    PatchEachSameIds(apps, apps, Writes(codec, llm, svc));
  }
}

/** Reading the digest back: the fenced code blocks of section 4.5 of CommonMark 0.31. */
module Fences {
  import opened Options
  import opened Decimal
  import opened DigestBody

  // ----- The reader -----

  predicate Breaks(c: char) {
    c == '\n' || c == '\r'
  }

  predicate OneLine(s: string) {
    forall i | 0 <= i < |s| :: !Breaks(s[i])
  }

  /** The length of the first line of `s`, without its line ending. */
  function LineLength(s: string): (n: nat)
    ensures n <= |s|
  {
    if s == "" || Breaks(s[0]) then 0 else 1 + LineLength(s[1..])
  }

  /** The length of the line ending `s` starts with: LF, CR, CR LF, or the end of the document. */
  function EndLength(s: string): (n: nat)
    ensures n <= |s|
  {
    if s == "" then 0
    else if s[0] == '\r' && |s| > 1 && s[1] == '\n' then 2
    else 1
  }

  datatype Fencing = Fencing(mark: char, length: nat, indent: nat)

  datatype Reader = Outside | Inside(fence: Fencing, content: string)

  function Opens(line: string): Option<Fencing> {
    var indent := Run(line, ' ');
    if indent > 3 || indent == |line| then None
    else
      var mark := line[indent];
      var length := Run(line[indent..], mark);
      if length < 3 || (mark != '`' && mark != '~') then None
      else if mark == '`' && '`' in line[indent + length..] then None
      else Some(Fencing(mark, length, indent))
  }

  predicate Closes(line: string, fence: Fencing) {
    var indent := Run(line, ' ');
    var length := Run(line[indent..], fence.mark);
    && indent <= 3
    && length >= fence.length
    && forall i | indent + length <= i < |line| :: line[i] == ' ' || line[i] == '\t'
  }

  /** Up to `indent` leading spaces removed. */
  function Unindent(line: string, indent: nat): string {
    var spaces := Run(line, ' ');
    line[if spaces < indent then spaces else indent..]
  }

  /** The contents of the fenced code blocks of a document, in order. */
  function Read(s: string, reader: Reader): seq<string>
    decreases |s|
  {
    if s == "" then
      if reader.Inside? then [reader.content] else []
    else
      var n := LineLength(s);
      var end := n + EndLength(s[n..]);
      var line, rest := s[..n], s[end..];
      match reader
      case Outside =>
        var fence := Opens(line);
        Read(rest, if fence.Some? then Inside(fence.value, "") else Outside)
      case Inside(fence, content) =>
        if Closes(line, fence) then [content] + Read(rest, Outside)
        else Read(rest, Inside(fence, content + Unindent(line, fence.indent) + s[n..end]))
  }

  // ----- One line -----

  /** What follows a line: the end of the document, or a line ending. */
  predicate Follows(tail: string) {
    tail == "" || Breaks(tail[0])
  }

  lemma {:induction false} LineOf(line: string, tail: string)
    requires OneLine(line) && Follows(tail)
    ensures LineLength(line + tail) == |line|
  {
    if line != "" {
      assert (line + tail)[1..] == line[1..] + tail;
      LineOf(line[1..], tail);
    }
  }

  /** One step of the reader. */
  lemma ReadLine(line: string, tail: string, reader: Reader)
    requires OneLine(line) && Follows(tail) && line + tail != ""
    ensures Read(line + tail, reader) ==
      var rest := tail[EndLength(tail)..];
      match reader
      case Outside =>
        var fence := Opens(line);
        Read(rest, if fence.Some? then Inside(fence.value, "") else Outside)
      case Inside(fence, content) =>
        if Closes(line, fence) then [content] + Read(rest, Outside)
        else Read(rest, Inside(fence, content + Unindent(line, fence.indent) + tail[..EndLength(tail)]))
  {
    hide Opens, Closes, Unindent, LineLength;
    LineOf(line, tail);
    var s := line + tail;
    assert s[..|line|] == line && s[|line|..] == tail;
    var end := |line| + EndLength(tail);
    assert s[end..] == tail[EndLength(tail)..];
    assert s[|line|..end] == tail[..EndLength(tail)];
  }

  lemma ReadPlain(line: string, rest: string)
    requires OneLine(line) && Opens(line) == None
    ensures Read(line + "\n" + rest, Outside) == Read(rest, Outside)
    ensures Read(line, Outside) == []
  {
    hide Opens;
    ReadLine(line, "\n" + rest, Outside);
    assert line + "\n" + rest == line + ("\n" + rest);
    if line != "" {
      ReadLine(line, "", Outside);
      assert line + "" == line;
    }
  }

  // ----- One fenced block -----

  lemma {:induction false} RunPrefix(s: string, k: nat, c: char)
    requires k <= |s|
    ensures Run(s[..k], c) <= Run(s, c)
  {
    if k > 0 && s[0] == c {
      assert s[..k][1..] == s[1..][..k - 1];
      RunPrefix(s[1..], k - 1, c);
    }
  }

  lemma {:induction false} RunWithin(s: string, k: nat)
    requires k <= |s|
    ensures Run(s[k..], '`') <= LongestRun(s) && LongestRun(s[k..]) <= LongestRun(s)
  {
    if k > 0 {
      assert s[1..][k - 1..] == s[k..];
      RunWithin(s[1..], k - 1);
    }
  }

  /** A line of the trace never closes a fence longer than every run in the trace. */
  lemma CannotClose(s: string, k: nat, fence: Fencing)
    requires k <= |s| && fence.mark == '`' && LongestRun(s) < fence.length
    ensures !Closes(s[..k], fence)
  {
    hide Run, LongestRun;
    var line := s[..k];
    var indent := Run(line, ' ');
    assert line[indent..] == s[indent..][..k - indent];
    RunPrefix(s[indent..], k - indent, '`');
    RunWithin(s, indent);
  }

  lemma {:induction false} RunOfTicks(s: string)
    requires forall i | 0 <= i < |s| :: s[i] == '`'
    ensures Run(s, '`') == |s|
  {
    if s != "" { RunOfTicks(s[1..]); }
  }

  lemma FenceLine(details: string)
    ensures var fence := Fence(details);
      && OneLine(fence) && |fence| > LongestRun(details)
      && Opens(fence) == Some(Fencing('`', |fence|, 0))
      && Closes(fence, Fencing('`', |fence|, 0))
  {
    var fence := Fence(details);
    RunOfTicks(fence);
    assert Run(fence, ' ') == 0 && fence[0..] == fence;
  }

  /** A fence longer than every run of backticks in `trace`, and the line that closes it. */
  ghost predicate Encloses(fence: Fencing, close: string, trace: string) {
    && fence.mark == '`' && fence.indent == 0 && LongestRun(trace) < fence.length
    && OneLine(close) && close != "" && Closes(close, fence)
  }

  /** The last line of the trace, and the closing line. */
  lemma ReadLastLine(line: string, ending: string, taken: string, fence: Fencing, close: string, tail: string)
    requires OneLine(line) && Encloses(fence, close, line) && Follows(tail)
    requires ending == "\n" || ending == "\r\n"
    ensures Read(line + (ending + (close + tail)), Inside(fence, taken))
            == [taken + line + ending] + Read(tail[EndLength(tail)..], Outside)
  {
    assert line[..|line|] == line;
    CannotClose(line, |line|, fence);
    hide Closes, LongestRun, Read;
    var rest := ending + (close + tail);
    ReadLine(line, rest, Inside(fence, taken));
    assert rest[..EndLength(rest)] == ending && rest[EndLength(rest)..] == close + tail;
    ReadLine(close, tail, Inside(fence, taken + line + ending));
  }

  /** `ending` ends a line when `rest` follows. */
  predicate Ends(ending: string, rest: string) {
    || ending == "\n"
    || ending == "\r\n"
    || (ending == "\r" && (rest == "" || rest[0] != '\n'))
  }

  /** A line of the trace that is not the last. */
  lemma ReadInnerLine(line: string, ending: string, rest: string, taken: string, fence: Fencing, close: string)
    requires OneLine(line) && Encloses(fence, close, line) && Ends(ending, rest)
    ensures Read(line + (ending + rest), Inside(fence, taken)) == Read(rest, Inside(fence, taken + line + ending))
  {
    assert line[..|line|] == line;
    CannotClose(line, |line|, fence);
    hide Closes, LongestRun, Read;
    var tail := ending + rest;
    assert EndLength(tail) == |ending|;
    assert tail[..|ending|] == ending && tail[|ending|..] == rest;
    ReadLine(line, tail, Inside(fence, taken));
  }

  /** The first line of a text that holds a line ending. */
  lemma FirstLine(s: string) returns (line: string, ending: string, rest: string)
    requires LineLength(s) < |s|
    ensures s == line + ending + rest && OneLine(line) && Ends(ending, rest)
    ensures LongestRun(line) <= LongestRun(s) && LongestRun(rest) <= LongestRun(s)
  {
    var k := LineLength(s);
    LineIsOne(s);
    PrefixRuns(s, k);
    hide LineLength, LongestRun;
    var n := EndLength(s[k..]);
    line, ending, rest := s[..k], s[k..][..n], s[k..][n..];
    RunWithin(s, k + n);
    assert rest == s[k + n..];
  }

  lemma {:induction false} PrefixRuns(s: string, k: nat)
    requires k <= |s|
    ensures LongestRun(s[..k]) <= LongestRun(s)
  {
    if k > 0 {
      PrefixRuns(s[1..], k - 1);
      assert s[..k][1..] == s[1..][..k - 1];
      RunPrefix(s, k, '`');
    }
  }

  /** Inside the fence the reader takes in the whole trace, character for character. */
  lemma {:induction false} ReadTrace(trace: string, taken: string, fence: Fencing, close: string, tail: string)
    requires Encloses(fence, close, trace) && Follows(tail)
    ensures Read(trace + ("\n" + (close + tail)), Inside(fence, taken))
            == [taken + trace + "\n"] + Read(tail[EndLength(tail)..], Outside)
    decreases |trace|
  {
    hide *;
    if LineLength(trace) == |trace| {
      assert OneLine(trace) by { LineIsOne(trace); assert trace[..|trace|] == trace; }
      ReadLastLine(trace, "\n", taken, fence, close, tail);
    } else {
      var line, ending, rest := FirstLine(trace);
      EnclosesLess(fence, close, trace, line);
      EnclosesLess(fence, close, trace, rest);
      if rest == "" && ending == "\r" {
        Carriage(taken, line, close + tail);
        ReadLastLine(line, "\r\n", taken, fence, close, tail);
      } else {
        var after := "\n" + (close + tail);
        EndsStill(ending, rest, after);
        Regroup(taken, line, ending, rest, after);
        ReadInnerLine(line, ending, rest + after, taken, fence, close);
        ReadTrace(rest, taken + line + ending, fence, close, tail);
      }
    }
  }

  lemma Carriage(taken: string, line: string, last: string)
    ensures line + "\r" + "" + ("\n" + last) == line + ("\r\n" + last)
    ensures taken + line + "\r\n" == taken + (line + "\r" + "") + "\n"
  {
  }

  lemma Regroup(taken: string, line: string, ending: string, rest: string, after: string)
    ensures line + ending + rest + after == line + (ending + (rest + after))
    ensures taken + line + ending + rest == taken + (line + ending + rest)
  {
  }

  lemma EnclosesLess(fence: Fencing, close: string, trace: string, part: string)
    requires Encloses(fence, close, trace) && LongestRun(part) <= LongestRun(trace)
    ensures Encloses(fence, close, part)
  {
  }

  lemma EndsStill(ending: string, rest: string, more: string)
    requires Ends(ending, rest) && !(rest == "" && ending == "\r")
    ensures Ends(ending, rest + more)
  {
  }

  lemma {:induction false} LineIsOne(s: string)
    ensures var k := LineLength(s); OneLine(s[..k]) && (k == |s| || Breaks(s[k]))
  {
    if s != "" && !Breaks(s[0]) { LineIsOne(s[1..]); }
  }

  /** A fenced trace is read back exactly. */
  lemma ReadBlock(trace: string, tail: string)
    requires Follows(tail)
    ensures Read(FencedBlock(trace) + tail, Outside) == [trace + "\n"] + Read(tail[EndLength(tail)..], Outside)
  {
    hide Closes, Opens, LongestRun, Read;
    var close := Fence(trace);
    FenceLine(trace);
    var rest := trace + ("\n" + (close + tail));
    assert FencedBlock(trace) + tail == close + ("\n" + rest);
    ReadLine(close, "\n" + rest, Outside);
    assert ("\n" + rest)[1..] == rest;
    ReadTrace(trace, "", Fencing('`', |close|, 0), close, tail);
    assert "" + trace + "\n" == trace + "\n";
  }

  // ----- The whole body -----

  ghost predicate Tidy(part: Part) {
    match part
    case Prose(text) => OneLine(text) && text != "" && (text[0] == '*' || text[0] == '…')
    case Section(g, _) => OneLine(g.kind) && OneLine(g.message) && OneLine(g.first) && OneLine(g.last)
  }

  function TraceOf(part: Part): seq<string> {
    if part.Prose? || part.group.details == "" then []
    else [Capped(part.group.details, part.cap) + "\n"]
  }

  function Traces(parts: seq<Part>): seq<string> {
    if parts == [] then [] else TraceOf(parts[0]) + Traces(parts[1..])
  }

  lemma OneLineJoins(s: string, t: string)
    requires OneLine(s) && OneLine(t)
    ensures OneLine(s + t)
  {
  }

  lemma PrintedOneLine(n: nat)
    ensures OneLine(Print(n))
  {
    PrintIsDigits(n);
  }

  lemma HeadLinePlain(g: Group)
    requires Tidy(Section(g, None))
    ensures OneLine(HeadLine(g)) && Opens(HeadLine(g)) == None
    ensures OneLine(TimeLine(g)) && Opens(TimeLine(g)) == None
  {
    PrintedOneLine(g.count);
    hide Print, Opens;
    assert OneLine(HeadLine(g));
    assert OneLine(TimeLine(g));
    DoesNotOpen(HeadLine(g));
    DoesNotOpen(TimeLine(g));
  }

  lemma DoesNotOpen(line: string)
    requires line != "" && line[0] in "#-*…"
    ensures Opens(line) == None
  {
    assert Run(line, ' ') == 0 && line[0..] == line;
  }

  lemma ReadPart(part: Part, rest: string)
    requires Tidy(part)
    ensures Read(part.Text() + "\n" + rest, Outside) == TraceOf(part) + Read(rest, Outside)
    ensures Read(part.Text(), Outside) == TraceOf(part)
  {
    hide Read, Opens, HeadLine, TimeLine, FencedBlock, Capped;
    match part {
      case Prose(text) =>
        DoesNotOpen(text);
        ReadPlain(text, rest);
      case Section(g, cap) =>
        HeadLinePlain(g);
        if g.details == "" {
          var head, time := HeadLine(g), TimeLine(g);
          ReadPlain(head, time + "\n" + rest);
          ReadPlain(time, rest);
          ReadPlain(head, time);
          assert part.Text() == head + "\n" + time;
          assert part.Text() + "\n" + rest == head + "\n" + (time + "\n" + rest);
        } else {
          ReadSection(g, cap, "\n" + rest);
          assert ("\n" + rest)[1..] == rest;
          assert part.Text() + "\n" + rest == part.Text() + ("\n" + rest);
          ReadSection(g, cap, "");
          assert part.Text() + "" == part.Text();
          assert Read("", Outside) == [] by { ReadNothing(); }
        }
    }
  }

  lemma ReadNothing()
    ensures Read("", Outside) == []
  {
  }

  lemma ReadSection(g: Group, cap: Option<nat>, tail: string)
    requires Tidy(Section(g, cap)) && g.details != "" && Follows(tail)
    ensures Read(RenderGroup(g, cap) + tail, Outside)
            == [Capped(g.details, cap) + "\n"] + Read(tail[EndLength(tail)..], Outside)
  {
    hide Read, Opens, HeadLine, TimeLine, FencedBlock, Capped;
    HeadLinePlain(g);
    var head, time, block := HeadLine(g), TimeLine(g), FencedBlock(Capped(g.details, cap));
    assert RenderGroup(g, cap) + tail == head + "\n" + (time + "\n" + (block + tail));
    ReadPlain(head, time + "\n" + (block + tail));
    ReadPlain(time, block + tail);
    ReadBlock(Capped(g.details, cap), tail);
  }

  lemma {:induction false} ReadJoined(parts: seq<Part>)
    requires forall part | part in parts :: Tidy(part)
    ensures Read(Join(parts), Outside) == Traces(parts)
  {
    hide Read, Tidy, TraceOf, Join;
    JoinStep(parts);
    if parts == [] {
      ReadNothing();
    } else if |parts| == 1 {
      assert parts[0] in parts;
      ReadPart(parts[0], "");
      assert Traces(parts[1..]) == [];
    } else {
      assert parts[0] in parts;
      ReadJoined(parts[1..]);
      ReadTwo(parts[0], Join(parts[1..]));
    }
  }

  /** A part, a blank line, and the rest. */
  lemma ReadTwo(part: Part, rest: string)
    requires Tidy(part)
    ensures Read(part.Text() + "\n\n" + rest, Outside) == TraceOf(part) + Read(rest, Outside)
  {
    hide *;
    ReadPart(part, "\n" + rest);
    assert part.Text() + "\n\n" + rest == part.Text() + "\n" + ("\n" + rest);
    assert Opens("") == None by { NothingOpens(); }
    assert OneLine("") by { EmptyIsOneLine(); }
    ReadPlain("", rest);
    assert "" + "\n" + rest == "\n" + rest;
  }

  lemma EmptyIsOneLine()
    ensures OneLine("")
  {
  }

  lemma NothingOpens()
    ensures Opens("") == None
  {
  }

  /** The traces of a list of groups, as shown under a cap. */
  function Details(groups: seq<Group>, cap: Option<nat>): seq<string> {
    if groups == [] then []
    else (if groups[0].details == "" then [] else [Capped(groups[0].details, cap) + "\n"]) + Details(groups[1..], cap)
  }

  lemma {:induction false} TracesAppend(ps: seq<Part>, qs: seq<Part>)
    ensures Traces(ps + qs) == Traces(ps) + Traces(qs)
  {
    hide TraceOf;
    if ps == [] {
      assert ps + qs == qs;
    } else {
      assert (ps + qs)[1..] == ps[1..] + qs;
      TracesAppend(ps[1..], qs);
    }
  }

  lemma {:induction false} TracesOfSections(groups: seq<Group>, cap: Option<nat>)
    ensures Traces(Sections(groups, cap)) == Details(groups, cap)
  {
    hide Capped;
    if groups != [] {
      assert Sections(groups, cap)[1..] == Sections(groups[1..], cap);
      TracesOfSections(groups[1..], cap);
    }
  }

  /** Prose around the sections carries no trace. */
  lemma TracesAround(before: seq<Part>, groups: seq<Group>, cap: Option<nat>, after: seq<Part>)
    requires |before| <= 1 && |after| <= 1 && forall part | part in before + after :: part.Prose?
    ensures Traces(before + Sections(groups, cap) + after) == Details(groups, cap)
  {
    hide Sections, Details;
    TracesAppend(before + Sections(groups, cap), after);
    TracesAppend(before, Sections(groups, cap));
    TracesOfSections(groups, cap);
    NoteHasNoTrace(before);
    NoteHasNoTrace(after);
  }

  lemma NoteHasNoTrace(note: seq<Part>)
    requires |note| <= 1 && forall part | part in note :: part.Prose?
    ensures Traces(note) == []
  {
    if note != [] {
      assert note[0] in note && note[1..] == [];
    }
  }

  ghost predicate TidyGroup(g: Group) {
    OneLine(g.kind) && OneLine(g.message) && OneLine(g.first) && OneLine(g.last)
  }

  lemma TidyAround(before: seq<Part>, groups: seq<Group>, cap: Option<nat>, after: seq<Part>)
    requires forall part | part in before + after :: Tidy(part)
    requires forall g | g in groups :: TidyGroup(g)
    ensures forall part | part in before + Sections(groups, cap) + after :: Tidy(part)
  {
    forall part | part in Sections(groups, cap)
      ensures Tidy(part)
    {
      assert part.group in groups;
    }
  }

  lemma {:induction false} PiecesOneLine(pieces: seq<string>)
    requires forall piece | piece in pieces :: OneLine(piece)
    ensures OneLine(Concat(pieces))
  {
    if pieces != [] {
      PiecesOneLine(pieces[1..]);
      assert pieces[0] in pieces;
      OneLineJoins(pieces[0], Concat(pieces[1..]));
    }
  }

  lemma NotesAreTidy(missing: bool, n: nat)
    ensures forall part | part in Opening(missing) + MoreNote(n) :: Tidy(part)
    ensures forall part | part in Opening(missing) + [DroppedNote(n)] :: Tidy(part)
  {
    hide Tidy;
    assert Tidy(Prose(Concat(HeartbeatPieces()))) by { HeartbeatIsTidy(); }
    CountsAreTidy(n);
  }

  lemma HeartbeatIsTidy()
    ensures Tidy(Prose(Concat(HeartbeatPieces())))
  {
    hide Concat, OneLine;
    assert forall piece | piece in HeartbeatPieces() :: OneLine(piece) by { HeartbeatPiecesOneLine(); }
    PiecesOneLine(HeartbeatPieces());
    assert HeartbeatPieces()[0][0] == '*';
    FirstPiece(HeartbeatPieces());
  }

  lemma HeartbeatPiecesOneLine()
    ensures forall piece | piece in HeartbeatPieces() :: OneLine(piece)
  {
    var ps := HeartbeatPieces();
    forall i | 0 <= i < |ps|
      ensures OneLine(ps[i])
    {
      assert OneLine(ps[0]) && OneLine(ps[1]) && OneLine(ps[2]);
      assert OneLine(ps[3]) && OneLine(ps[4]) && OneLine(ps[5]);
      assert OneLine(ps[6]) && OneLine(ps[7]) && OneLine(ps[8]);
    }
  }

  lemma FirstPiece(pieces: seq<string>)
    requires pieces != [] && pieces[0] != ""
    ensures Concat(pieces) != "" && Concat(pieces)[0] == pieces[0][0]
  {
  }

  lemma CountsAreTidy(n: nat)
    ensures Tidy(DroppedNote(n))
    ensures forall part | part in MoreNote(n) :: Tidy(part)
  {
    PrintedOneLine(n);
    PiecesOneLine(MorePieces());
    hide Print, Concat, MorePieces;
  }

  /** What the body is made of: a pass over all shown groups, or some groups and a note. */
  lemma BodyShape(groups: seq<Group>, missing: bool) returns (keep: nat, cap: Option<nat>, after: seq<Part>, n: nat)
    ensures keep <= |Shown(groups)| && (keep == |Shown(groups)| || cap == Some(LAST_CAP))
    ensures RenderParts(groups, missing) == Opening(missing) + Sections(Shown(groups)[..keep], cap) + after
    ensures after == MoreNote(n) || after == [DroppedNote(n)]
  {
    hide Fits, LastResort, Sections, Opening, MoreNote, DroppedNote, Shown;
    var parts := RenderParts(groups, missing);
    var shown := Shown(groups);
    keep, cap, n := |shown|, None, if |groups| < |shown| then 0 else |groups| - |shown|;
    after := MoreNote(n);
    assert shown[..|shown|] == shown;
    assert |shown| <= |groups| by { ShownAtMost(groups); }
    if parts == Pass(groups, missing, None) {
    } else if parts == Pass(groups, missing, Some(DETAILS_CAP)) {
      cap := Some(DETAILS_CAP);
    } else if parts == Pass(groups, missing, Some(LAST_CAP)) {
      cap := Some(LAST_CAP);
    } else {
      keep := LastResortIsKept(groups, missing, if |shown| == 0 then 0 else |shown| - 1);
      cap, n := Some(LAST_CAP), |groups| - keep;
      after := [DroppedNote(n)];
    }
  }

  lemma ShownAtMost(groups: seq<Group>)
    ensures |Shown(groups)| <= |groups|
  {
  }

  /** Reading the body recovers exactly the traces shown, whatever runs of backticks they hold:
      those of the first `keep` groups, each whole or cut at one cap. */
  lemma FencesSurvive(groups: seq<Group>, missing: bool) returns (keep: nat, cap: Option<nat>)
    requires forall g | g in groups :: TidyGroup(g)
    ensures keep <= |Shown(groups)| && (keep == |Shown(groups)| || cap == Some(LAST_CAP))
    ensures Read(Join(RenderParts(groups, missing)), Outside) == Details(Shown(groups)[..keep], cap)
  {
    var after, n;
    keep, cap, after, n := BodyShape(groups, missing);
    hide RenderParts;
    NotesAreProse(missing, n);
    NotesAreTidy(missing, n);
    hide *;
    ReadAround(Opening(missing), Shown(groups)[..keep], cap, after);
  }

  lemma NotesAreProse(missing: bool, n: nat)
    ensures |Opening(missing)| <= 1 && forall part | part in Opening(missing) :: part.Prose?
    ensures |MoreNote(n)| <= 1 && forall part | part in MoreNote(n) :: part.Prose?
    ensures DroppedNote(n).Prose?
  {
    hide Print, Concat, HeartbeatPieces, MorePieces;
  }

  lemma ReadAround(before: seq<Part>, groups: seq<Group>, cap: Option<nat>, after: seq<Part>)
    requires |before| <= 1 && |after| <= 1
    requires forall part | part in before + after :: part.Prose? && Tidy(part)
    requires forall g | g in groups :: TidyGroup(g)
    ensures Read(Join(before + Sections(groups, cap) + after), Outside) == Details(groups, cap)
  {
    hide *;
    TidyAround(before, groups, cap, after);
    TracesAround(before, groups, cap, after);
    ReadJoined(before + Sections(groups, cap) + after);
  }

  /** A pass over all shown groups reads back as their traces. */
  lemma PassReads(groups: seq<Group>, missing: bool, cap: Option<nat>)
    requires forall g | g in groups :: TidyGroup(g)
    ensures Read(Join(Pass(groups, missing, cap)), Outside) == Details(Shown(groups), cap)
  {
    var after := MoreNote(|groups| - |Shown(groups)|);
    ShownAtMost(groups);
    var hidden := |groups| - |Shown(groups)|;
    NotesAreTidy(missing, hidden);
    NotesAreProse(missing, hidden);
    assert Pass(groups, missing, cap) == Opening(missing) + Sections(Shown(groups), cap) + after;
    hide *;
    assert Shown(groups)[..|Shown(groups)|] == Shown(groups);
    ReadAround(Opening(missing), Shown(groups), cap, after);
  }

  // ----- What else the body says -----

  /** The pieces between the marks. */
  function Split(s: string, mark: char): seq<string> {
    if s == "" then [""]
    else
      var rest := Split(s[1..], mark);
      if s[0] == mark then [""] + rest else [[s[0]] + rest[0]] + rest[1..]
  }

  lemma {:induction false} SplitAt(a: string, mark: char, b: string)
    requires mark !in a
    ensures Split(a, mark) == [a] && Split(a + [mark] + b, mark) == [a] + Split(b, mark)
  {
    if a == "" {
      assert ([] + [mark] + b)[1..] == b;
    } else {
      var s := a + [mark] + b;
      assert s[1..] == a[1..] + [mark] + b;
      SplitAt(a[1..], mark, b);
      assert [a[0]] + a[1..] == a;
    }
  }

  /** The time line quotes the first and the last time, in this order. */
  lemma TimesAreQuoted(g: Group)
    requires '`' !in g.first && '`' !in g.last
    ensures Split(TimeLine(g), '`') == ["- first: ", g.first, " — last: ", g.last, " (UTC)"]
  {
    TimeLineIs(g);
    NoTicksAround();
    SplitFive("- first: ", g.first, " — last: ", g.last, " (UTC)", '`');
  }

  lemma NoTicksAround()
    ensures '`' !in "- first: " && '`' !in " — last: " && '`' !in " (UTC)"
  {
  }

  lemma SplitFive(a: string, b: string, c: string, d: string, e: string, mark: char)
    requires mark !in a && mark !in b && mark !in c && mark !in d && mark !in e
    ensures Split(a + [mark] + (b + [mark] + (c + [mark] + (d + [mark] + e))), mark) == [a, b, c, d, e]
  {
    hide Split;
    SplitAt(a, mark, b + [mark] + (c + [mark] + (d + [mark] + e)));
    SplitAt(b, mark, c + [mark] + (d + [mark] + e));
    SplitAt(c, mark, d + [mark] + e);
    SplitAt(d, mark, e);
    SplitAt(e, mark, "");
    assert [a] + ([b] + ([c] + ([d] + [e]))) == [a, b, c, d, e];
  }

  lemma TimeLineIs(g: Group)
    ensures TimeLine(g)
            == "- first: " + ['`'] + (g.first + ['`'] + (" — last: " + ['`'] + (g.last + ['`'] + " (UTC)")))
  {
    assert "- first: `" == "- first: " + ['`'] && "` — last: `" == ['`'] + " — last: " + ['`'] && "` (UTC)" == ['`'] + " (UTC)";
  }

  /** The head line names the label, the count and the message, cut behind 300 characters. */
  lemma HeadSays(g: Group)
    ensures HeadLine(g) == "### " + g.kind + " x" + Print(g.count) + " — "
                           + (if |g.message| <= 300 then g.message else g.message[..300] + "… [truncated]")
  {
  }

  function FirstLineOf(s: string): string {
    s[..LineLength(s)]
  }

  /** A section begins with its head line and its time line. */
  lemma SectionLines(g: Group, cap: Option<nat>)
    requires TidyGroup(g)
    ensures var section := RenderGroup(g, cap);
            && FirstLineOf(section) == HeadLine(g) && |section| > |HeadLine(g)|
            && FirstLineOf(section[|HeadLine(g)| + 1..]) == TimeLine(g)
  {
    hide HeadLine, TimeLine, FencedBlock, LineLength, Opens, Capped;
    HeadLinePlain(g);
    var tail := if g.details == "" then "" else "\n" + FencedBlock(Capped(g.details, cap));
    var head, time := HeadLine(g), TimeLine(g);
    assert RenderGroup(g, cap) == head + ("\n" + (time + tail));
    hide RenderGroup;
    TwoLines(head, time, tail);
  }

  lemma TwoLines(head: string, time: string, tail: string)
    requires OneLine(head) && OneLine(time) && Follows(tail)
    ensures var s := head + ("\n" + (time + tail));
            FirstLineOf(s) == head && |s| > |head| && FirstLineOf(s[|head| + 1..]) == time
  {
    hide LineLength;
    LineOf(head, "\n" + (time + tail));
    LineOf(time, tail);
    assert (head + ("\n" + (time + tail)))[|head| + 1..] == time + tail;
  }

  /** A cut trace is its head and a mark, a short one is whole. */
  lemma CapKeepsHead(details: string, cap: Option<nat>)
    ensures cap.None? || |details| <= cap.value ==> Capped(details, cap) == details
    ensures cap.Some? && |details| > cap.value ==> Capped(details, cap) == details[..cap.value] + "\n" + "… [truncated]"
  {
  }

  /** The body opens with the heartbeat warning exactly when there was no heartbeat. */
  lemma WarningOpens(groups: seq<Group>, missing: bool)
    ensures var parts := RenderParts(groups, missing);
            (parts != [] && parts[0] == Prose(Concat(HeartbeatPieces()))) <==> missing
  {
    var keep, cap, after, n := BodyShape(groups, missing);
    HeartbeatIsTidy();
    FirstPiece(HeartbeatPieces());
    assert HeartbeatPieces()[0][0] == '*';
    hide Concat, HeartbeatPieces, MorePieces, RenderParts, Shown, Print;
    assert after != [] ==> after[0].Prose? && after[0].text[0] == '…';
  }
}

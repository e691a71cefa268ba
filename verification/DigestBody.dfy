/** The body of the nightly failure digest: groups with their traces in fences, shrunk in steps
    until the body fits into an issue. */
module DigestBody {
  import opened Options
  import opened Decimal

  const BODY_LIMIT: nat := 65536
  const TOP_GROUPS: nat := 20
  const DETAILS_CAP: nat := 4000
  const LAST_CAP: nat := 500
  const MESSAGE_CAP: nat := 300
  const TRUNCATION_MARK := "… [truncated]"
  // The two long texts are kept in pieces: the verifier reasons about short literals only.
  function HeartbeatPieces(): seq<string> {
    ["**⚠ No worker ", "heartbeat in ", "the window** — the ", "20-min timer ", "logged nothing; ",
     "investigate ", "scheduler health ", "alongside the ", "failures below."]
  }

  function MorePieces(): seq<string> {
    [" more groups ", "(see App Insights ", "for the rest)."]
  }

  function Concat(pieces: seq<string>): string {
    if pieces == [] then "" else pieces[0] + Concat(pieces[1..])
  }

  datatype Group = Group(kind: string, severity: int, message: string, count: nat,
                         first: string, last: string, details: string)

  // ----- One group -----

  /** How many `c` the string starts with. */
  function Run(s: string, c: char): (n: nat)
    ensures n <= |s|
  {
    if s != "" && s[0] == c then 1 + Run(s[1..], c) else 0
  }

  /** The longest run of backticks anywhere in `s`. */
  function LongestRun(s: string): nat {
    if s == "" then 0
    else
      var rest := LongestRun(s[1..]);
      if Run(s, '`') > rest then Run(s, '`') else rest
  }

  function Fence(details: string): string {
    var n := LongestRun(details) + 1;
    seq(if n < 3 then 3 else n, _ => '`')
  }

  function Capped(details: string, cap: Option<nat>): string {
    if cap.Some? && |details| > cap.value then details[..cap.value] + "\n" + TRUNCATION_MARK else details
  }

  function HeadLine(g: Group): string {
    "### " + g.kind + " x" + Print(g.count) + " — "
    + if |g.message| > MESSAGE_CAP then g.message[..MESSAGE_CAP] + TRUNCATION_MARK else g.message
  }

  function TimeLine(g: Group): string {
    "- first: `" + g.first + "` — last: `" + g.last + "` (UTC)"
  }

  function FencedBlock(details: string): string {
    Fence(details) + "\n" + details + "\n" + Fence(details)
  }

  /** `_render_group`. */
  function RenderGroup(g: Group, cap: Option<nat>): string {
    HeadLine(g) + "\n" + TimeLine(g)
    + if g.details == "" then "" else "\n" + FencedBlock(Capped(g.details, cap))
  }

  // ----- The body as parts -----

  datatype Part = Prose(text: string) | Section(group: Group, cap: Option<nat>) {
    function Text(): string {
      if Prose? then text else RenderGroup(group, cap)
    }
  }

  function Join(parts: seq<Part>): string {
    if parts == [] then ""
    else if |parts| == 1 then parts[0].Text()
    else parts[0].Text() + "\n\n" + Join(parts[1..])
  }

  function Sections(groups: seq<Group>, cap: Option<nat>): seq<Part> {
    seq(|groups|, i requires 0 <= i < |groups| => Section(groups[i], cap))
  }

  function Opening(heartbeatMissing: bool): seq<Part> {
    if heartbeatMissing then [Prose(Concat(HeartbeatPieces()))] else []
  }

  function Shown(groups: seq<Group>): seq<Group> {
    if |groups| > TOP_GROUPS then groups[..TOP_GROUPS] else groups
  }

  function MoreNote(hidden: nat): seq<Part> {
    if hidden == 0 then []
    else [Prose("…and " + Print(hidden) + Concat(MorePieces()))]
  }

  function DroppedNote(dropped: nat): Part {
    Prose("…" + Print(dropped) + " groups " + TRUNCATION_MARK)
  }

  function Pass(groups: seq<Group>, missing: bool, cap: Option<nat>): seq<Part> {
    var shown := Shown(groups);
    Opening(missing) + Sections(shown, cap) + MoreNote(|groups| - |shown|)
  }

  function Kept(groups: seq<Group>, missing: bool, keep: nat): seq<Part>
    requires keep <= |Shown(groups)|
  {
    Opening(missing) + Sections(Shown(groups)[..keep], Some(LAST_CAP)) + [DroppedNote(|groups| - keep)]
  }

  predicate Fits(parts: seq<Part>) {
    |Join(parts)| <= BODY_LIMIT
  }

  /** The last resort from `keep` groups down; nothing fits only if not even no group does. */
  function LastResort(groups: seq<Group>, missing: bool, keep: nat): seq<Part>
    requires keep <= |Shown(groups)|
  {
    if Fits(Kept(groups, missing, keep)) || keep == 0 then Kept(groups, missing, keep)
    else LastResort(groups, missing, keep - 1)
  }

  /** `_render_body`, before joining. */
  function RenderParts(groups: seq<Group>, missing: bool): seq<Part> {
    if Fits(Pass(groups, missing, None)) then Pass(groups, missing, None)
    else if Fits(Pass(groups, missing, Some(DETAILS_CAP))) then Pass(groups, missing, Some(DETAILS_CAP))
    else if Fits(Pass(groups, missing, Some(LAST_CAP))) then Pass(groups, missing, Some(LAST_CAP))
    else LastResort(groups, missing, if |Shown(groups)| == 0 then 0 else |Shown(groups)| - 1)
  }

  const CAPS: seq<Option<nat>> := [None, Some(DETAILS_CAP), Some(LAST_CAP)]

  lemma FirstPassThatFits(groups: seq<Group>, missing: bool, i: nat)
    requires i <= 3 && forall j | 0 <= j < i :: !Fits(Pass(groups, missing, CAPS[j]))
    ensures i < 3 && Fits(Pass(groups, missing, CAPS[i])) ==> RenderParts(groups, missing) == Pass(groups, missing, CAPS[i])
    ensures i == 3 ==>
      RenderParts(groups, missing)
      == LastResort(groups, missing, if |Shown(groups)| == 0 then 0 else |Shown(groups)| - 1)
  {
    hide Pass, LastResort, Fits;
    assert CAPS[0] == None && CAPS[1] == Some(DETAILS_CAP) && CAPS[2] == Some(LAST_CAP);
    assert forall j | 0 <= j < i :: !Fits(Pass(groups, missing, CAPS[j]));
  }

  /** The body is the least shortened one that fits: with whole traces, with 4000 characters of each, with
      500; and only then are groups dropped from the end, no more than must be. */
  lemma LeastShortened(groups: seq<Group>, missing: bool)
    ensures var parts := RenderParts(groups, missing);
      if |Join(Pass(groups, missing, None))| <= 65536 then parts == Pass(groups, missing, None)
      else if |Join(Pass(groups, missing, Some(4000)))| <= 65536 then parts == Pass(groups, missing, Some(4000))
      else if |Join(Pass(groups, missing, Some(500)))| <= 65536 then parts == Pass(groups, missing, Some(500))
      else
        exists keep: nat | keep <= |Shown(groups)| ::
          && parts == Kept(groups, missing, keep) && (keep < |Shown(groups)| || keep == 0)
          && forall k: nat | keep < k < |Shown(groups)| :: |Join(Kept(groups, missing, k))| > 65536
  {
    hide Pass, Join, Kept, LastResort, Shown;
    var from := if |Shown(groups)| == 0 then 0 else |Shown(groups)| - 1;
    var keep := LongestKept(groups, missing, from);
  }

  lemma {:induction false} LongestKept(groups: seq<Group>, missing: bool, from: nat) returns (keep: nat)
    requires from <= |Shown(groups)|
    ensures keep <= from && LastResort(groups, missing, from) == Kept(groups, missing, keep)
    ensures forall k: nat | keep < k <= from :: |Join(Kept(groups, missing, k))| > 65536
  {
    hide Kept, Join;
    LastResortStep(groups, missing, from);
    if Fits(Kept(groups, missing, from)) || from == 0 {
      keep := from;
    } else {
      keep := LongestKept(groups, missing, from - 1);
    }
  }

  /** What a pass shows: the first twenty groups in their order, and how many are hidden. */
  lemma PassShows(groups: seq<Group>, missing: bool, cap: Option<nat>)
    ensures Shown(groups) == groups[..if |groups| <= 20 then |groups| else 20]
    ensures Pass(groups, missing, cap)
            == Opening(missing) + Sections(Shown(groups), cap)
               + if |groups| <= 20 then []
                 else [Prose("…and " + Print(|groups| - 20) + Concat(MorePieces()))]
    ensures forall keep: nat | keep <= |Shown(groups)| ::
      Kept(groups, missing, keep)
      == Opening(missing) + Sections(Shown(groups)[..keep], Some(500)) + [Prose("…" + Print(|groups| - keep) + " groups " + "… [truncated]")]
  {
    hide Opening, Concat, MorePieces, Sections, Print;
  }

  lemma LastResortStep(groups: seq<Group>, missing: bool, keep: nat)
    requires keep <= |Shown(groups)|
    ensures LastResort(groups, missing, keep)
            == if Fits(Kept(groups, missing, keep)) || keep == 0 then Kept(groups, missing, keep)
               else LastResort(groups, missing, keep - 1)
  {
  }

  /** The loops of `_render_body`. */
  method RenderBody(groups: seq<Group>, missing: bool) returns (body: string)
    ensures body == Join(RenderParts(groups, missing))
  {
    hide Join, Sections, RenderParts, LastResort, Opening, Concat, RenderGroup;
    var shown := Shown(groups);
    for i := 0 to 3
      invariant forall j | 0 <= j < i :: !Fits(Pass(groups, missing, CAPS[j]))
    {
      var parts := Opening(missing) + Sections(shown, CAPS[i]);
      if |groups| > |shown| { parts := parts + MoreNote(|groups| - |shown|); }
      assert parts == Pass(groups, missing, CAPS[i]);
      body := Join(parts);
      FirstPassThatFits(groups, missing, i);
      if |body| <= BODY_LIMIT { return; }
    }
    FirstPassThatFits(groups, missing, 3);
    var keep := |shown| - 1;
    while keep >= 0
      invariant -1 <= keep && (keep < |shown| || keep == -1)
      invariant RenderParts(groups, missing) == LastResort(groups, missing, if keep < 0 then 0 else keep)
    {
      var parts := Opening(missing) + Sections(shown[..keep], Some(LAST_CAP)) + [DroppedNote(|groups| - keep)];
      body := Join(parts);
      LastResortStep(groups, missing, keep);
      if |body| <= BODY_LIMIT { return; }
      keep := keep - 1;
    }
    LastResortStep(groups, missing, 0);
    assert Kept(groups, missing, 0) == Opening(missing) + [DroppedNote(|groups|)] by { NoSections(groups); }
    body := Join(Opening(missing) + [DroppedNote(|groups|)]);
  }

  lemma NoSections(groups: seq<Group>)
    ensures Sections(Shown(groups)[..0], Some(LAST_CAP)) == []
  {
  }

  // ----- The size -----

  lemma {:induction false} JoinAtMost(parts: seq<Part>, each: nat)
    requires forall part | part in parts :: |part.Text()| <= each
    ensures |Join(parts)| <= |parts| * (each + 2)
  {
    hide *;
    if |parts| > 1 {
      JoinAtMost(parts[1..], each);
      assert Join(parts) == parts[0].Text() + "\n\n" + Join(parts[1..]) by { JoinStep(parts); }
      assert parts[0] in parts;
      assert |parts| * (each + 2) == |parts[1..]| * (each + 2) + (each + 2);
    } else if |parts| == 1 {
      assert parts[0] in parts;
      JoinStep(parts);
    } else {
      JoinStep(parts);
    }
  }

  lemma JoinStep(parts: seq<Part>)
    ensures parts == [] ==> Join(parts) == ""
    ensures |parts| == 1 ==> Join(parts) == parts[0].Text()
    ensures |parts| > 1 ==> Join(parts) == parts[0].Text() + "\n\n" + Join(parts[1..])
  {
    hide RenderGroup;
  }

  lemma CountDigits(n: nat)
    requires n < 10_000_000_000_000_000_000
    ensures |Print(n)| <= 19
  {
    assert Pow10(19) >= 10_000_000_000_000_000_000 by { PowNineteen(); }
    PrintLength(n, 19);
  }

  lemma NoteSizes(missing: bool, n: nat)
    requires n < 10_000_000_000_000_000_000
    ensures |Opening(missing)| <= 1 && forall part | part in Opening(missing) :: part.Prose? && |part.text| <= 200
    ensures |MoreNote(n)| <= 1 && forall part | part in MoreNote(n) :: part.Prose? && |part.text| <= 200
    ensures DroppedNote(n).Prose? && |DroppedNote(n).text| <= 200
  {
    PieceSizes();
    CountDigits(n);
    hide Concat, Print, HeartbeatPieces, MorePieces;
    assert |TRUNCATION_MARK| == 13;
  }

  lemma PieceSizes()
    ensures |Concat(HeartbeatPieces())| <= 180 && |Concat(MorePieces())| <= 60
  {
    hide Concat;
    ConcatSize(HeartbeatPieces(), 20) by { forall piece | piece in HeartbeatPieces() ensures |piece| <= 20 {} }
    ConcatSize(MorePieces(), 20) by { forall piece | piece in MorePieces() ensures |piece| <= 20 {} }
    assert |HeartbeatPieces()| == 9 && |MorePieces()| == 3;
  }

  lemma {:induction false} ConcatSize(pieces: seq<string>, each: nat)
    requires forall piece | piece in pieces :: |piece| <= each
    ensures |Concat(pieces)| <= |pieces| * each
  {
    if pieces != [] {
      assert pieces[0] in pieces;
      assert Concat(pieces) == pieces[0] + Concat(pieces[1..]);
      hide Concat;
      ConcatSize(pieces[1..], each);
      assert |pieces| * each == |pieces[1..]| * each + each;
    }
  }

  lemma PowNineteen()
    ensures Pow10(19) == 10_000_000_000_000_000_000
  {
    assert Pow10(4) == 10_000;
    assert Pow10(8) == 10_000 * Pow10(4);
    assert Pow10(12) == 10_000 * Pow10(8);
    assert Pow10(16) == 10_000 * Pow10(12);
    assert Pow10(19) == 1_000 * Pow10(16);
  }

  /** With no group at all the body fits, so the last resort always ends. */
  lemma FloorFits(groups: seq<Group>, missing: bool)
    requires |groups| < 10_000_000_000_000_000_000
    ensures Fits(Kept(groups, missing, 0))
  {
    NoteSizes(missing, |groups|);
    hide *;
    FewFit(Opening(missing) + [DroppedNote(|groups|)]);
  }

  lemma FewFit(parts: seq<Part>)
    requires |parts| <= 2 && forall part | part in parts :: part.Prose? && |part.text| <= 200
    ensures Fits(parts)
  {
    hide Join;
    JoinAtMost(parts, 200);
  }

  lemma {:induction false} LastResortIsKept(groups: seq<Group>, missing: bool, from: nat) returns (keep: nat)
    requires from <= |Shown(groups)|
    ensures keep <= from && LastResort(groups, missing, from) == Kept(groups, missing, keep)
    ensures Fits(Kept(groups, missing, keep)) || keep == 0
  {
    hide Fits, Kept;
    LastResortStep(groups, missing, from);
    if Fits(Kept(groups, missing, from)) || from == 0 {
      keep := from;
    } else {
      keep := LastResortIsKept(groups, missing, from - 1);
    }
  }

  /** The body never exceeds the limit, whatever the groups hold. */
  lemma BodyFits(groups: seq<Group>, missing: bool)
    requires |groups| < 10_000_000_000_000_000_000
    ensures |Join(RenderParts(groups, missing))| <= 65536
  {
    hide Pass, Join, Kept;
    FloorFits(groups, missing);
    var _ := LastResortIsKept(groups, missing, if |Shown(groups)| == 0 then 0 else |Shown(groups)| - 1);
  }

  // ----- When nothing is dropped -----

  /** Timestamps and counts of a size App Insights produces. */
  ghost predicate Modest(g: Group) {
    |g.kind| <= 9 && |g.first| <= 64 && |g.last| <= 64 && g.count < 10_000_000_000_000_000_000
  }

  lemma {:induction false} RunAtMost(s: string)
    ensures LongestRun(s) <= |s|
  {
    if s != "" { RunAtMost(s[1..]); }
  }

  lemma SectionAtMost(g: Group)
    requires Modest(g)
    ensures |RenderGroup(g, Some(LAST_CAP))| <= 2100
  {
    CountDigits(g.count);
    var details := Capped(g.details, Some(LAST_CAP));
    assert |details| <= 514;
    RunAtMost(details);
    hide Print, LongestRun;
    assert |Fence(details)| <= 515;
    assert |HeadLine(g)| <= 360;
    assert |TimeLine(g)| <= 160;
  }

  /** With such groups the 500-character pass fits: every one of the first twenty groups is shown,
      the rest is counted, and the last resort is never reached. */
  lemma NothingDropped(groups: seq<Group>, missing: bool)
    requires |groups| < 10_000_000_000_000_000_000 && forall g | g in groups :: Modest(g)
    ensures Fits(Pass(groups, missing, Some(LAST_CAP)))
    ensures exists cap: Option<nat> :: RenderParts(groups, missing) == Pass(groups, missing, cap)
  {
    var parts := Pass(groups, missing, Some(LAST_CAP));
    PassLength(groups, missing);
    hide *;
    forall part | part in parts
      ensures |part.Text()| <= 2100
    {
      PartAtMost(groups, missing, part);
    }
    JoinAtMost(parts, 2100);
    assert |parts| * 2102 <= 22 * 2102;
    assert Fits(parts) by { FitsIs(parts); }
    FirstPasses(groups, missing);
  }

  lemma PassLength(groups: seq<Group>, missing: bool)
    ensures |Pass(groups, missing, Some(LAST_CAP))| <= 22
  {
    hide Concat, Print, HeartbeatPieces, MorePieces;
  }

  lemma FitsIs(parts: seq<Part>)
    ensures Fits(parts) == (|Join(parts)| <= 65536)
  {
    hide Join;
  }

  lemma FirstPasses(groups: seq<Group>, missing: bool)
    requires Fits(Pass(groups, missing, Some(LAST_CAP)))
    ensures exists cap: Option<nat> :: RenderParts(groups, missing) == Pass(groups, missing, cap)
  {
    hide Pass, Fits, LastResort;
  }

  lemma PartAtMost(groups: seq<Group>, missing: bool, part: Part)
    requires |groups| < 10_000_000_000_000_000_000 && forall g | g in groups :: Modest(g)
    requires part in Pass(groups, missing, Some(LAST_CAP))
    ensures |part.Text()| <= 2100
  {
    hide RenderGroup, Opening, MoreNote;
    var hidden := |groups| - |Shown(groups)|;
    NoteSizes(missing, hidden);
    if part.Section? {
      assert part.group in groups && part.cap == Some(LAST_CAP);
      SectionAtMost(part.group);
    } else {
      assert part in Opening(missing) || part in MoreNote(hidden);
    }
  }
}

/** Claim references: the two patterns that read one out of a subject, the card name that
    carries one, the bounded search that must find it again, and the classification of an
    email into what the pipeline will do with it. */
module ClaimData {
  import opened Options
  import opened Decimal

  /** The digits `\d` accepts.  Python's class is wider than ASCII, so it is a parameter. */
  type DigitClass = char -> bool

  datatype Ref = Ref(year: string, number: string) {
    function Text(): string {
      year + "/" + number
    }
  }

  predicate AllIn(d: DigitClass, s: string) {
    forall i | 0 <= i < |s| :: d(s[i])
  }

  ghost predicate IsRef(d: DigitClass, ref: Ref) {
    |ref.year| == 4 && AllIn(d, ref.year) && |ref.number| > 0 && AllIn(d, ref.number)
  }

  /** How many characters of the class `s` starts with. */
  function Run(d: DigitClass, s: string): (n: nat)
    ensures n <= |s| && AllIn(d, s[..n]) && (n < |s| ==> !d(s[n]))
  {
    if s == "" || !d(s[0]) then 0 else 1 + Run(d, s[1..])
  }

  lemma {:induction false} RunIs(d: DigitClass, s: string, n: nat)
    requires n <= |s| && AllIn(d, s[..n]) && (n < |s| ==> !d(s[n]))
    ensures Run(d, s) == n
  {
    var m := Run(d, s);
    assert forall i | 0 <= i < n :: s[..n][i] == s[i];
    assert forall i | 0 <= i < m :: s[..m][i] == s[i];
  }

  // ----- (\d{4})/(\d+) -----

  predicate SlashedHere(d: DigitClass, s: string) {
    |s| >= 6 && d(s[0]) && d(s[1]) && d(s[2]) && d(s[3]) && s[4] == '/' && d(s[5])
  }

  function RefHere(d: DigitClass, s: string): Ref
    requires SlashedHere(d, s)
  {
    Ref(s[..4], s[5..5 + Run(d, s[5..])])
  }

  /** `_SLASHED_REF.search`. */
  function ParseSlashed(d: DigitClass, s: string): Option<Ref> {
    if SlashedHere(d, s) then Some(RefHere(d, s))
    else if s == "" then None
    else ParseSlashed(d, s[1..])
  }

  /** The search returns the leftmost match: none exactly when no position matches, and
      otherwise the one no earlier position beats. */
  lemma {:induction false} ParseIsLeftmost(d: DigitClass, s: string) returns (at: nat)
    ensures at <= |s| && (forall i | 0 <= i < at :: !SlashedHere(d, s[i..]))
    ensures ParseSlashed(d, s) == if SlashedHere(d, s[at..]) then Some(RefHere(d, s[at..])) else None
    ensures ParseSlashed(d, s).None? ==> at == |s|
  {
    if SlashedHere(d, s) || s == "" {
      at := 0;
      assert s[0..] == s;
    } else {
      var rest := ParseIsLeftmost(d, s[1..]);
      at := rest + 1;
      assert s[at..] == s[1..][rest..];
      forall i | 0 <= i < at
        ensures !SlashedHere(d, s[i..])
      {
        if i == 0 { assert s[0..] == s; } else { assert s[i..] == s[1..][i - 1..]; }
      }
    }
  }

  lemma {:induction false} ParsedIsRef(d: DigitClass, s: string)
    requires ParseSlashed(d, s).Some?
    ensures IsRef(d, ParseSlashed(d, s).value)
  {
    if SlashedHere(d, s) {
      var tail := s[5..];
      assert tail[0] == s[5];
      assert s[5..5 + Run(d, tail)] == tail[..Run(d, tail)];
    } else {
      ParsedIsRef(d, s[1..]);
    }
  }

  /** No match crosses a character that is neither a digit nor a slash. */
  lemma {:induction false} ParseAcross(d: DigitClass, a: string, c: char, b: string)
    requires !d(c) && c != '/'
    ensures ParseSlashed(d, a + [c] + b)
            == if ParseSlashed(d, a).Some? then ParseSlashed(d, a) else ParseSlashed(d, b)
  {
    var s := a + [c] + b;
    if a == "" {
      assert s == [c] + b && s[1..] == b;
    } else {
      HereAcross(d, a, c, b);
      if !SlashedHere(d, a) {
        assert s[1..] == a[1..] + [c] + b;
        ParseAcross(d, a[1..], c, b);
      }
    }
  }

  lemma HereAcross(d: DigitClass, a: string, c: char, b: string)
    requires !d(c) && c != '/' && a != ""
    ensures SlashedHere(d, a + [c] + b) == SlashedHere(d, a)
    ensures SlashedHere(d, a) ==> RefHere(d, a + [c] + b) == RefHere(d, a)
  {
    var s := a + [c] + b;
    assert forall i | 0 <= i < |a| :: s[i] == a[i];
    assert s[|a|] == c;
    if SlashedHere(d, a) {
      var n := Run(d, a[5..]);
      assert s[5..][..n] == a[5..][..n] && s[..4] == a[..4];
      assert s[5..][n] == s[5 + n];
      if 5 + n < |a| { assert a[5..][n] == a[5 + n]; }
      RunIs(d, s[5..], n);
      assert s[5..5 + n] == a[5..5 + n];
    }
  }

  lemma ParseOwnText(d: DigitClass, ref: Ref)
    requires IsRef(d, ref)
    ensures ParseSlashed(d, ref.Text()) == Some(ref)
  {
    var s := ref.Text();
    assert s[..4] == ref.year && s[5..] == ref.number;
    assert forall i | 0 <= i < 4 :: s[i] == ref.year[i];
    assert s[5] == ref.number[0];
    RunIs(d, ref.number, |ref.number|);
    assert s[5..5 + |ref.number|] == ref.number;
  }

  // ----- \b(20\d\d)(\d{6,})\b, ASCII -----

  const ASCII_DIGIT: DigitClass := c => '0' <= c <= '9'

  predicate Word(c: char) {
    '0' <= c <= '9' || 'a' <= c <= 'z' || 'A' <= c <= 'Z' || c == '_'
  }

  /** A match at the start of `s`, whose preceding character is a word character or not. */
  predicate SlashlessHere(afterWord: bool, s: string) {
    var n := Run(ASCII_DIGIT, s);
    !afterWord && n >= 10 && s[0] == '2' && s[1] == '0' && (n < |s| ==> !Word(s[n]))
  }

  /** The two groups of `_SLASHLESS_REF.search`. */
  function FindSlashless(afterWord: bool, s: string): Option<Ref>
    decreases |s|
  {
    if SlashlessHere(afterWord, s) then Some(Ref(s[..4], s[4..Run(ASCII_DIGIT, s)]))
    else if s == "" then None
    else FindSlashless(Word(s[0]), s[1..])
  }

  function StripZeros(s: string): string {
    if s != "" && s[0] == '0' then StripZeros(s[1..]) else s
  }

  function ParseClaimRef(d: DigitClass, subject: string, slashless: bool): Option<Ref> {
    if ParseSlashed(d, subject).Some? then ParseSlashed(d, subject)
    else if !slashless then None
    else
      match FindSlashless(false, subject)
      case Some(found) =>
        var number := StripZeros(found.number);
        if number == "" then None else Some(Ref(found.year, number))
      case None => None
  }

  lemma {:induction false} SlashlessAcross(afterWord: bool, a: string, c: char, b: string)
    requires !Word(c)
    ensures FindSlashless(afterWord, a + [c] + b)
            == if FindSlashless(afterWord, a).Some? then FindSlashless(afterWord, a)
               else FindSlashless(false, b)
    decreases |a|
  {
    var s := a + [c] + b;
    if a == "" {
      assert s == [c] + b && s[1..] == b;
      assert Run(ASCII_DIGIT, s) == 0;
    } else {
      var n := Run(ASCII_DIGIT, a);
      assert forall i | 0 <= i < |a| :: s[i] == a[i];
      assert s[|a|] == c && s[..n] == a[..n];
      RunIs(ASCII_DIGIT, s, n);
      assert n >= 4 ==> s[..4] == a[..4] && s[4..n] == a[4..n];
      assert s[1..] == a[1..] + [c] + b;
      SlashlessAcross(Word(a[0]), a[1..], c, b);
    }
  }

  lemma {:induction false} NothingBehindWord(s: string)
    requires forall i | 0 <= i < |s| :: Word(s[i])
    ensures FindSlashless(true, s) == None
    decreases |s|
  {
    if s != "" { NothingBehindWord(s[1..]); }
  }

  /** Of a token of word characters the slashless search accepts exactly those of ten or more digits that
      start with 20.  With `SlashlessAcross`, which parts a text into its tokens, that says what it finds. */
  lemma TokenIs(t: string)
    requires forall i | 0 <= i < |t| :: Word(t[i])
    ensures FindSlashless(false, t)
            == if AllIn(ASCII_DIGIT, t) && |t| >= 10 && t[..2] == "20" then Some(Ref(t[..4], t[4..])) else None
  {
    var n := Run(ASCII_DIGIT, t);
    assert t[..|t|] == t;
    if AllIn(ASCII_DIGIT, t) { RunIs(ASCII_DIGIT, t, |t|); }
    assert n == |t| ==> AllIn(ASCII_DIGIT, t);
    if |t| >= 2 { assert t[..2] == "20" <==> t[0] == '2' && t[1] == '0'; }
    if t != "" { NothingBehindWord(t[1..]); }
  }

  lemma {:induction false} StripZerosIs(s: string)
    ensures var r := StripZeros(s);
            |r| <= |s| && r == s[|s| - |r|..] && (r != "" ==> r[0] != '0') && forall i | 0 <= i < |s| - |r| :: s[i] == '0'
  {
    if s != "" && s[0] == '0' {
      var rest := s[1..];
      StripZerosIs(rest);
      hide StripZeros;
      var k := |rest| - |StripZeros(rest)|;
      assert StripZeros(s) == StripZeros(rest) by { StripOne(s); }
      assert s[k + 1..] == rest[k..] && forall i | 0 < i < k + 1 :: s[i] == rest[i - 1];
    }
  }

  lemma StripOne(s: string)
    requires s != "" && s[0] == '0'
    ensures StripZeros(s) == StripZeros(s[1..])
  {
  }

  /** Which reference is read: the slashed one if there is one; without it only where asked for, the
      slashless one without its leading zeros, and none if they are all of it. */
  lemma ReferenceIs(d: DigitClass, subject: string, slashless: bool)
    ensures var ref, slashed, found := ParseClaimRef(d, subject, slashless), ParseSlashed(d, subject), FindSlashless(false, subject);
            && (slashed.Some? ==> ref == slashed)
            && (slashed.None? && (!slashless || found.None?) ==> ref.None?)
            && (slashed.None? && slashless && found.Some? ==>
                  if forall i | 0 <= i < |found.value.number| :: found.value.number[i] == '0' then ref.None?
                  else
                    && ref.Some? && ref.value.year == found.value.year && ref.value.number != "" && ref.value.number[0] != '0'
                    && exists k | 0 <= k <= |found.value.number| ::
                         ref.value.number == found.value.number[k..] && forall i | 0 <= i < k :: found.value.number[i] == '0')
  {
    var found := FindSlashless(false, subject);
    if found.Some? { StripZerosIs(found.value.number); }
  }

  lemma {:induction false} StripPadding(k: nat, number: string)
    requires number != "" && number[0] != '0'
    ensures StripZeros(Zeros(k) + number) == number
  {
    if k == 0 {
      assert Zeros(k) + number == number;
    } else {
      assert (Zeros(k) + number)[1..] == Zeros(k - 1) + number;
      StripPadding(k - 1, number);
    }
  }

  lemma FindPadded(ref: Ref, k: nat)
    requires IsRef(ASCII_DIGIT, ref) && ref.year[..2] == "20" && k + |ref.number| >= 6
    ensures FindSlashless(false, ref.year + Zeros(k) + ref.number) == Some(Ref(ref.year, Zeros(k) + ref.number))
  {
    var s := ref.year + Zeros(k) + ref.number;
    assert s == ref.year + (Zeros(k) + ref.number);
    assert ref.year[0] == ref.year[..2][0] && ref.year[1] == ref.year[..2][1];
    forall i | 0 <= i < |s|
      ensures ASCII_DIGIT(s[i])
    {
      if i >= 4 + k { assert s[i] == ref.number[i - 4 - k]; }
    }
    assert s[..|s|] == s;
    RunIs(ASCII_DIGIT, s, |s|);
    assert s[..4] == ref.year && s[4..|s|] == Zeros(k) + ref.number;
  }

  /** `before` and `after` end and start outside a word, or are empty. */
  ghost predicate Delimited(before: string, after: string) {
    && (before != "" ==> !Word(before[|before| - 1]))
    && (after != "" ==> !Word(after[0]))
  }

  lemma FindBefore(middle: string, after: string)
    requires Delimited("", after) && FindSlashless(false, middle).Some?
    ensures FindSlashless(false, middle + after) == FindSlashless(false, middle)
  {
    if after == "" {
      assert middle + after == middle;
    } else {
      assert middle + after == middle + [after[0]] + after[1..];
      SlashlessAcross(false, middle, after[0], after[1..]);
    }
  }

  lemma FindAfter(before: string, tail: string)
    requires Delimited(before, "") && FindSlashless(false, before).None?
    ensures FindSlashless(false, before + tail) == FindSlashless(false, tail)
  {
    if before == "" {
      assert before + tail == tail;
    } else {
      var m := |before| - 1;
      var front, last := before[..m], before[m];
      assert before == front + [last] + "";
      assert FindSlashless(false, "") == None;
      hide FindSlashless;
      SlashlessAcross(false, front, last, "");
      assert before + tail == front + [last] + tail;
      SlashlessAcross(false, front, last, tail);
    }
  }

  lemma FindBetween(before: string, middle: string, after: string)
    requires Delimited(before, after)
    requires FindSlashless(false, before).None? && FindSlashless(false, middle).Some?
    ensures FindSlashless(false, before + middle + after) == FindSlashless(false, middle)
  {
    assert before + middle + after == before + (middle + after);
    FindBefore(middle, after);
    FindAfter(before, middle + after);
  }

  /** The zero-padded form of a Gestión con Perito subject reads as the slashed form does. */
  lemma PaddedReadsAsSlashed(d: DigitClass, before: string, ref: Ref, k: nat, after: string, subject: string)
    requires IsRef(ASCII_DIGIT, ref) && IsRef(d, ref) && ref.year[..2] == "20" && ref.number[0] != '0'
    requires k + |ref.number| >= 6 && Delimited(before, after) && FindSlashless(false, before).None?
    requires subject == before + (ref.year + Zeros(k) + ref.number) + after && ParseSlashed(d, subject).None?
    ensures ParseClaimRef(d, subject, true) == ParseClaimRef(d, ref.Text(), true) == Some(ref)
  {
    assert ParseClaimRef(d, ref.Text(), true) == Some(ref) by {
      ParseOwnText(d, ref);
    }
    assert FindSlashless(false, subject) == Some(Ref(ref.year, Zeros(k) + ref.number)) by {
      FindPadded(ref, k);
      FindBetween(before, ref.year + Zeros(k) + ref.number, after);
    }
    StripPadding(k, ref.number);
  }

  // ----- Card names and the board search -----

  /** `build_card_name`, from the town in upper case and the owner as printed. */
  function CardName(town: string, ref: Ref, owner: string): string {
    town + " " + ref.Text() + " " + owner
  }

  /** `re.search(rf"{re.escape(ref)}(?!\d)", name)`. */
  predicate MentionsAt(d: DigitClass, name: string, ref: string, i: nat) {
    && i + |ref| <= |name| && name[i..i + |ref|] == ref
    && (i + |ref| < |name| ==> !d(name[i + |ref|]))
  }

  predicate Mentions(d: DigitClass, name: string, ref: string) {
    exists i | 0 <= i <= |name| :: MentionsAt(d, name, ref, i)
  }

  lemma MentionMoves(d: DigitClass, a: string, b: string, ref: string, i: nat)
    requires MentionsAt(d, b, ref, i)
    ensures MentionsAt(d, a + b, ref, |a| + i)
  {
    var s := a + b;
    assert s[|a|..] == b;
    assert s[|a| + i..|a| + i + |ref|] == s[|a|..][i..i + |ref|];
  }

  lemma MentionsAcross(d: DigitClass, a: string, c: char, b: string, ref: string)
    requires !d(c) && c !in ref
    ensures Mentions(d, a + [c] + b, ref) <==> Mentions(d, a, ref) || Mentions(d, b, ref)
  {
    var s := a + [c] + b;
    var n := |ref|;
    if Mentions(d, a, ref) {
      var i :| 0 <= i <= |a| && MentionsAt(d, a, ref, i);
      assert s[..|a|] == a && s[i..i + n] == s[..|a|][i..i + n];
      assert MentionsAt(d, s, ref, i);
    }
    if Mentions(d, b, ref) {
      var i :| 0 <= i <= |b| && MentionsAt(d, b, ref, i);
      MentionMoves(d, a + [c], b, ref, i);
    }
    if Mentions(d, s, ref) {
      var i :| 0 <= i <= |s| && MentionsAt(d, s, ref, i);
      MentionsBack(d, a, c, b, ref, i);
    }
  }

  lemma MentionsBack(d: DigitClass, a: string, c: char, b: string, ref: string, i: nat)
    requires c !in ref && MentionsAt(d, a + [c] + b, ref, i)
    ensures Mentions(d, a, ref) || Mentions(d, b, ref)
  {
    var s := a + [c] + b;
    var n := |ref|;
    assert forall j | i <= j < i + n :: s[j] == s[i..i + n][j - i];
    assert s[|a|] == c;
    if i + n <= |a| {
      assert s[..|a|] == a && s[i..i + n] == s[..|a|][i..i + n];
      assert MentionsAt(d, a, ref, i);
    } else {
      assert i > |a|;
      var j := i - |a| - 1;
      assert s[|a| + 1..] == b && s[|a| + 1..][j..j + n] == s[i..i + n];
      assert MentionsAt(d, b, ref, j);
    }
  }

  lemma MentionsOther(d: DigitClass, own: Ref, ref: Ref)
    requires IsRef(d, own) && IsRef(d, ref) && !d('/')
    ensures Mentions(d, own.Text(), ref.Text()) <==> own == ref
  {
    var s, r := own.Text(), ref.Text();
    if own == ref {
      assert MentionsAt(d, s, r, 0);
    }
    if Mentions(d, s, r) {
      var i :| 0 <= i <= |s| && MentionsAt(d, s, r, i);
      assert forall j | 0 <= j < |s| :: s[j] == if j < 4 then own.year[j] else if j == 4 then '/' else own.number[j - 5];
      assert s[i..i + |r|][4] == '/' && s[i + 4] == '/';
      assert i == 0;
      assert s[..4] == own.year && r[..4] == ref.year && s[..4] == s[0..|r|][..4];
      assert s[5..] == own.number && r[5..] == ref.number;
      assert s[5..|r|] == s[0..|r|][5..];
    }
  }

  /** Which refs a card name answers to: its own, and any its town or owner mention. */
  lemma CardAnswersTo(d: DigitClass, town: string, own: Ref, owner: string, ref: Ref)
    requires IsRef(d, own) && IsRef(d, ref) && !d('/') && !d(' ')
    ensures Mentions(d, CardName(town, own, owner), ref.Text())
            <==> own == ref || Mentions(d, town, ref.Text()) || Mentions(d, owner, ref.Text())
  {
    assert forall i | 0 <= i < |ref.Text()| :: d(ref.Text()[i]) || ref.Text()[i] == '/' by {
      assert forall i | 0 <= i < |ref.Text()| :: ref.Text()[i] == '/' || ref.Text()[i] in ref.year || ref.Text()[i] in ref.number;
    }
    var rest := own.Text() + [' '] + owner;
    assert CardName(town, own, owner) == town + [' '] + rest;
    MentionsAcross(d, town, ' ', rest, ref.Text());
    MentionsAcross(d, own.Text(), ' ', owner, ref.Text());
    MentionsOther(d, own, ref);
  }

  lemma MentionHasSlash(d: DigitClass, name: string, ref: Ref)
    requires Mentions(d, name, ref.Text())
    ensures '/' in name
  {
    var i :| 0 <= i <= |name| && MentionsAt(d, name, ref.Text(), i);
    var m := |ref.year|;
    assert name[i..i + |ref.Text()|][m] == '/' && name[i + m] == '/';
  }

  /** A name printed without "/" in town and owner answers to exactly one ref. */
  lemma CardAnswersOnlyToItself(d: DigitClass, town: string, own: Ref, owner: string, ref: Ref)
    requires IsRef(d, own) && IsRef(d, ref) && !d('/') && !d(' ')
    requires '/' !in town && '/' !in owner
    ensures Mentions(d, CardName(town, own, owner), ref.Text()) <==> own == ref
  {
    CardAnswersTo(d, town, own, owner, ref);
    if Mentions(d, town, ref.Text()) { MentionHasSlash(d, town, ref); }
    if Mentions(d, owner, ref.Text()) { MentionHasSlash(d, owner, ref); }
  }

  /** Reading a ref back from a card name: the claim's own, exactly when the town holds no other. */
  lemma CardNameRoundTrip(d: DigitClass, town: string, own: Ref, owner: string, slashless: bool)
    requires IsRef(d, own) && !d('/') && !d(' ')
    ensures ParseClaimRef(d, CardName(town, own, owner), slashless)
            == if ParseSlashed(d, town).Some? then ParseSlashed(d, town) else Some(own)
  {
    var rest := own.Text() + [' '] + owner;
    assert CardName(town, own, owner) == town + [' '] + rest;
    ParseAcross(d, town, ' ', rest);
    ParseAcross(d, own.Text(), ' ', owner);
    ParseOwnText(d, own);
  }
}

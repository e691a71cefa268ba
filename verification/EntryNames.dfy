/** The names of a claim's attachments inside the downloaded zip. */
module EntryNames {
  import opened Collections
  import opened Decimal

  datatype Attachment = Attachment(id: string, name: string)

  // ----- Paths -----

  /** The length of the longest suffix of `s` that does not hold `c`. */
  function TailWithout(s: string, c: char): (n: nat)
    ensures n <= |s| && c !in s[|s| - n..] && (n < |s| ==> s[|s| - n - 1] == c)
  {
    if s == "" || s[|s| - 1] == c then 0
    else
      var front := s[..|s| - 1];
      var n := TailWithout(front, c);
      assert s[|s| - n - 1..] == front[|front| - n..] + [s[|s| - 1]];
      n + 1
  }

  /** `PurePosixPath(s).name`: the last component that is neither empty nor ".". */
  function BaseName(s: string): (r: string)
    ensures '/' !in r && r != "."
    decreases |s|
  {
    var n := TailWithout(s, '/');
    var part := s[|s| - n..];
    if part != "" && part != "." then part
    else if n == |s| then ""
    else BaseName(s[..|s| - n - 1])
  }

  /** Where the suffix of a name starts; a leading or a closing dot starts none. */
  function StemLength(base: string): (n: nat)
    ensures n <= |base|
  {
    var n := TailWithout(base, '.');
    if 0 < n && n + 1 < |base| then |base| - n - 1 else |base|
  }

  function Renamed(base: string, n: nat): string {
    base[..StemLength(base)] + (" (" + Print(n) + ")") + base[StemLength(base)..]
  }

  function Numbered(base: string, n: nat): string {
    if n <= 1 then base else Renamed(base, n)
  }

  function Base(a: Attachment): string {
    if BaseName(a.name) == "" then a.id else BaseName(a.name)
  }

  function Bases(attachments: seq<Attachment>): seq<string> {
    seq(|attachments|, i requires 0 <= i < |attachments| => Base(attachments[i]))
  }

  function Times(base: string, bases: seq<string>): nat {
    Count(bases, (b: string) => b == base)
  }

  /** The names as a function of the base names. */
  function NamesOf(bases: seq<string>): seq<string> {
    seq(|bases|, i requires 0 <= i < |bases| => Numbered(bases[i], Times(bases[i], bases[..i + 1])))
  }

  /** `_entry_names`. */
  method Names(attachments: seq<Attachment>) returns (names: seq<string>)
    ensures names == NamesOf(Bases(attachments))
  {
    hide Base, Numbered;
    var seen: map<string, nat> := map[];
    names := [];
    ghost var bases := Bases(attachments);
    for i := 0 to |attachments|
      invariant |names| == i
      invariant forall b: string :: (if b in seen then seen[b] else 0) == Times(b, bases[..i])
      invariant forall j | 0 <= j < i :: names[j] == Numbered(bases[j], Times(bases[j], bases[..j + 1]))
    {
      var base := Base(attachments[i]);
      var count := (if base in seen then seen[base] else 0) + 1;
      seen := seen[base := count];
      assert bases[..i + 1] == bases[..i] + [base];
      forall b: string
        ensures Times(b, bases[..i + 1]) == Times(b, bases[..i]) + if b == base then 1 else 0
      {
        CountSnoc(bases[..i], base, (x: string) => x == b);
      }
      names := names + [Numbered(base, count)];
    }
  }

  // ----- What the names are -----

  /** Two different base names have a numbered form in common, within their numbers of occurrences. */
  ghost predicate Clash(bases: seq<string>) {
    exists b, c, n, m :: Collides(bases, b, n, c, m)
  }

  ghost predicate Collides(bases: seq<string>, b: string, n: nat, c: string, m: nat) {
    && b != c && 1 <= n <= Times(b, bases) && 1 <= m <= Times(c, bases)
    && Numbered(b, n) == Numbered(c, m)
  }

  lemma NumbersDiffer(base: string, n: nat, m: nat)
    requires 1 <= n < m
    ensures Numbered(base, n) != Numbered(base, m)
  {
    hide Print;
    if Numbered(base, n) == Numbered(base, m) {
      var k := StemLength(base);
      var x := Numbered(base, m);
      assert |x| > |base|;
      assert x[k + 2..|x| - (|base| - k) - 1] == Print(m);
      assert x[k + 2..|x| - (|base| - k) - 1] == Print(n);
      PrintInjective(n, m);
    }
  }

  lemma TimesGrow(base: string, bases: seq<string>, i: nat)
    requires i <= |bases|
    ensures Times(base, bases[..i]) <= Times(base, bases)
  {
    assert bases == bases[..i] + bases[i..];
    CountAppend(bases[..i], bases[i..], (b: string) => b == base);
  }

  lemma TimesStep(bases: seq<string>, i: nat, base: string)
    requires i < |bases|
    ensures Times(base, bases[..i + 1]) == Times(base, bases[..i]) + if bases[i] == base then 1 else 0
  {
    assert bases[..i + 1] == bases[..i] + [bases[i]];
    CountSnoc(bases[..i], bases[i], (b: string) => b == base);
  }

  /** Every number up to the number of occurrences is given to one of them. */
  lemma {:induction false} Occurrence(base: string, bases: seq<string>, n: nat) returns (i: nat)
    requires 1 <= n <= Times(base, bases)
    ensures i < |bases| && bases[i] == base && Times(base, bases[..i + 1]) == n
  {
    var front := bases[..|bases| - 1];
    TimesStep(bases, |bases| - 1, base);
    assert bases[..|bases|] == bases;
    if n <= Times(base, front) {
      i := Occurrence(base, front, n);
      assert bases[..i + 1] == front[..i + 1];
    } else {
      i := |bases| - 1;
    }
  }

  /** The names are pairwise distinct exactly when no two different base names clash. */
  lemma NamesAreDistinct(bases: seq<string>)
    ensures Distinct(NamesOf(bases)) <==> !Clash(bases)
  {
    hide Numbered, Times;
    var names := NamesOf(bases);
    if !Clash(bases) {
      forall i, j | 0 <= i < j < |names|
        ensures names[i] != names[j]
      {
        var b, c := bases[i], bases[j];
        var n, m := Times(b, bases[..i + 1]), Times(c, bases[..j + 1]);
        TimesGrow(b, bases, i + 1);
        TimesGrow(c, bases, j + 1);
        TimesStep(bases, i, b);
        TimesStep(bases, j, c);
        if b == c {
          assert bases[..j][..i + 1] == bases[..i + 1];
          TimesGrow(b, bases[..j], i + 1);
          NumbersDiffer(b, n, m);
        } else {
          assert !Collides(bases, b, n, c, m);
        }
      }
    } else {
      var b, c, n, m :| Collides(bases, b, n, c, m);
      var i := Occurrence(b, bases, n);
      var j := Occurrence(c, bases, m);
      assert names[i] == names[j];
    }
  }

  // ----- When they cannot clash -----

  /** An opening parenthesis behind a space. */
  predicate Paren(s: string) {
    exists i | 0 <= i < |s| - 1 :: s[i] == ' ' && s[i + 1] == '('
  }

  /** A name with an inserted number shows where the number stands. */
  lemma InsertedOnce(b: string, j: nat, p: string, c: string, k: nat, q: string)
    requires j <= |b| && k <= |c| && !Paren(c)
    requires b[..j] + (" (" + p) + b[j..] == c[..k] + (" (" + q) + c[k..]
    ensures j >= k
  {
    var x := b[..j] + (" (" + p) + b[j..];
    assert x[j] == ' ' && x[j + 1] == '(';
    assert x[k] == ' ' && forall i | 0 <= i < k :: x[i] == c[i];
  }

  lemma SameNumber(p: string, s: string, q: string, t: string)
    requires AllDigits(p) && AllDigits(q) && p + ")" + s == q + ")" + t
    ensures p == q && s == t
  {
    var x := p + ")" + s;
    assert x[|p|] == ')' && x[|q|] == ')';
    assert forall i | 0 <= i < |p| :: x[i] == p[i];
    assert forall i | 0 <= i < |q| :: x[i] == q[i];
    assert p == x[..|p|] && q == x[..|q|] && s == x[|p| + 1..] && t == x[|q| + 1..];
  }

  lemma RenamedInjective(b: string, n: nat, c: string, m: nat)
    requires !Paren(b) && !Paren(c) && Renamed(b, n) == Renamed(c, m)
    ensures b == c
  {
    PrintIsDigits(n);
    PrintIsDigits(m);
    hide Print, StemLength, AllDigits;
    var j, k := StemLength(b), StemLength(c);
    assert " (" + (Print(n) + ")") == " (" + Print(n) + ")" && " (" + (Print(m) + ")") == " (" + Print(m) + ")";
    InsertedOnce(b, j, Print(n) + ")", c, k, Print(m) + ")");
    InsertedOnce(c, k, Print(m) + ")", b, j, Print(n) + ")");
    var x := Renamed(b, n);
    assert x[..j] == b[..j] && x[..j] == c[..j];
    assert x[j + 2..] == Print(n) + ")" + b[j..] && x[j + 2..] == Print(m) + ")" + c[j..];
    SameNumber(Print(n), b[j..], Print(m), c[j..]);
    assert b == b[..j] + b[j..] && c == c[..j] + c[j..];
  }

  lemma RenamedHasParen(b: string, n: nat)
    ensures Paren(Renamed(b, n))
  {
    hide Print, StemLength;
    var j := StemLength(b);
    assert Renamed(b, n)[j] == ' ' && Renamed(b, n)[j + 1] == '(';
  }

  // ----- What a clash is -----

  function Mark(n: nat): string {
    " (" + Print(n) + ")"
  }

  /** A file is literally called like the renamed form of a repeated one. */
  ghost predicate NameTaken(bases: seq<string>) {
    exists c, m: nat | 2 <= m <= Times(c, bases) :: Renamed(c, m) in bases
  }

  /** Renamed forms of two repeated names meet: one ends in a number and a dot, the other in a dot and
      a number, like "s (2)." three times and "s. (3)" twice. */
  ghost predicate DotsMeet(bases: seq<string>) {
    exists stem: string, n: nat, m: nat :: MeetAt(bases, stem, n, m)
  }

  ghost predicate MeetAt(bases: seq<string>, stem: string, n: nat, m: nat) {
    && stem != "" && 2 <= n <= Times(stem + Mark(m) + ".", bases) && 2 <= m <= Times(stem + "." + Mark(n), bases)
  }

  lemma TailIs(s: string, c: char, n: nat)
    requires n <= |s| && c !in s[|s| - n..] && (n < |s| ==> s[|s| - n - 1] == c)
    ensures TailWithout(s, c) == n
  {
    hide TailWithout;
    var m := TailWithout(s, c);
    forall i | |s| - m <= i < |s|
      ensures s[i] != c
    {
      assert s[i] == s[|s| - m..][i - (|s| - m)];
    }
    forall i | |s| - n <= i < |s|
      ensures s[i] != c
    {
      assert s[i] == s[|s| - n..][i - (|s| - n)];
    }
  }

  /** A suffix is one dot, something behind it, and something before it. */
  lemma StemIs(base: string)
    ensures var j := StemLength(base);
            j < |base| ==> 0 < j && j + 1 < |base| && base[j] == '.' && '.' !in base[j + 1..]
  {
  }

  lemma NoSuffix(base: string, i: nat)
    requires StemLength(base) == |base| && i < |base| && base[i] == '.' && '.' !in base[i + 1..]
    ensures i == 0 || i == |base| - 1
  {
    TailIs(base, '.', |base| - i - 1);
  }

  lemma MarkHasNoDot(n: nat)
    ensures '.' !in Mark(n) && |Mark(n)| >= 4
  {
    PrintIsDigits(n);
    hide Print;
  }

  /** A number at the end of a name, taken apart. */
  lemma SameEnd(s: string, n: nat, t: string, m: nat)
    requires s + Mark(n) == t + Mark(m)
    ensures s == t && n == m
  {
    PrintIsDigits(n);
    PrintIsDigits(m);
    hide Print;
    var x, p, q := s + Mark(n), Print(n), Print(m);
    assert x[|x| - |p| - 1..] == p + ")" && x[|x| - |p| - 2] == '(';
    assert x == t + Mark(m);
    assert x[|x| - |q| - 1..] == q + ")" && x[|x| - |q| - 2] == '(';
    hide Mark;
    TailIs(x, '(', |p| + 1);
    TailIs(x, '(', |q| + 1);
    assert p == x[|x| - |p| - 1..][..|p|] && q == x[|x| - |q| - 1..][..|q|];
    PrintInjective(n, m);
    SameFront(s, t, Mark(n));
  }

  lemma SameFront(s: string, t: string, u: string)
    requires s + u == t + u
    ensures s == t
  {
    assert s == (s + u)[..|s|] && t == (t + u)[..|t|];
  }

  lemma RenamedIs(base: string, n: nat)
    ensures Renamed(base, n) == base[..StemLength(base)] + Mark(n) + base[StemLength(base)..]
  {
  }

  /** Both names have a suffix: it is the same one. */
  lemma BothSuffixed(b: string, n: nat, c: string, m: nat)
    requires StemLength(b) < |b| && StemLength(c) < |c| && Renamed(b, n) == Renamed(c, m)
    ensures b == c
  {
    var j, k := StemLength(b), StemLength(c);
    StemIs(b);
    StemIs(c);
    RenamedIs(b, n);
    RenamedIs(c, m);
    hide Mark, Renamed, StemLength;
    var x := b[..j] + Mark(n) + b[j..];
    assert x[|x| - (|b| - j - 1)..] == b[j + 1..] && x[|x| - (|c| - k - 1)..] == c[k + 1..];
    TailIs(x, '.', |b| - j - 1);
    TailIs(x, '.', |c| - k - 1);
    assert b[..j] + Mark(n) == x[..|x| - (|b| - j)] && c[..k] + Mark(m) == x[..|x| - (|c| - k)];
    SameEnd(b[..j], n, c[..k], m);
    assert b == b[..j] + b[j..] && c == c[..k] + c[k..];
    assert b[j..] == x[|x| - (|b| - j)..] && c[k..] == x[|x| - (|c| - k)..];
  }

  /** Only the second name has a suffix: it holds the number of the first. */
  lemma OneSuffixed(b: string, n: nat, c: string, m: nat) returns (stem: string)
    requires StemLength(b) == |b| && StemLength(c) < |c| && Renamed(b, n) == Renamed(c, m)
    ensures stem != "" && b == stem + Mark(m) + "." && c == stem + "." + Mark(n)
  {
    var k := StemLength(c);
    StemIs(c);
    RenamedIs(b, n);
    RenamedIs(c, m);
    MarkHasNoDot(n);
    hide *;
    assert b[..|b|] == b && b[|b|..] == "";
    stem := c[..k];
    var suffix := c[k..];
    assert suffix[0] == '.' && suffix[1..] == c[k + 1..] && c == stem + suffix;
    assert b + Mark(n) == stem + Mark(m) + suffix;
    DotInside(b, n, stem + Mark(m), suffix);
    assert suffix == "." + Mark(n);
  }

  /** A suffix that reaches into a name without one starts with the closing dot of the name. */
  lemma DotInside(b: string, n: nat, front: string, suffix: string)
    requires StemLength(b) == |b| && '.' !in Mark(n) && front != ""
    requires b + Mark(n) == front + suffix && suffix != "" && suffix[0] == '.' && '.' !in suffix[1..]
    ensures b == front + "." && suffix[1..] == Mark(n)
  {
    hide Mark, StemLength;
    var i, x := |front|, b + Mark(n);
    assert x[i] == '.' && x[i + 1..] == suffix[1..];
    assert i < |b| by { assert forall h | |b| <= h < |x| :: x[h] == Mark(n)[h - |b|]; }
    assert b == x[..|b|] && b[i + 1..] == suffix[1..][..|b| - i - 1];
    NoSuffix(b, i);
    assert i == |b| - 1;
    assert b == x[..i] + [x[i]] && x[..i] == front && x[|b|..] == Mark(n);
  }

  lemma DottedRenamed(stem: string, n: nat, m: nat)
    requires stem != ""
    ensures Renamed(stem + Mark(m) + ".", n) == Renamed(stem + "." + Mark(n), m)
    ensures stem + Mark(m) + "." != stem + "." + Mark(n)
  {
    var b, c := stem + Mark(m) + ".", stem + "." + Mark(n);
    RenamedIs(b, n);
    RenamedIs(c, m);
    DottedStems(stem, n, m);
    assert b[|b| - 1] == '.' && c[|c| - 1] == ')';
    hide *;
    assert b[..|b|] == b && b[|b|..] == "";
    assert c[..|stem|] == stem && c[|stem|..] == "." + Mark(n);
    assert b + Mark(n) + "" == stem + Mark(m) + ("." + Mark(n));
  }

  /** The closing dot of the one name starts no suffix, the dot of the other does. */
  lemma DottedStems(stem: string, n: nat, m: nat)
    requires stem != ""
    ensures StemLength(stem + Mark(m) + ".") == |stem + Mark(m) + "."|
    ensures StemLength(stem + "." + Mark(n)) == |stem|
  {
    var b, c := stem + Mark(m) + ".", stem + "." + Mark(n);
    MarkHasNoDot(n);
    hide Mark, TailWithout;
    assert b[|b| - 1] == '.' && b[|b| - 0..] == "";
    TailIs(b, '.', 0);
    assert c[|c| - |Mark(n)|..] == Mark(n) && c[|stem|] == '.';
    TailIs(c, '.', |Mark(n)|);
  }

  lemma TimesIn(base: string, bases: seq<string>)
    ensures base in bases <==> Times(base, bases) >= 1
  {
    CountNone(bases, (b: string) => b == base);
    if base in bases && Times(base, bases) == 0 { assert false; }
  }

  /** The two ways in which names clash, and no other. */
  lemma ClashIs(bases: seq<string>)
    ensures Clash(bases) <==> NameTaken(bases) || DotsMeet(bases)
  {
    hide Times, Renamed, Mark;
    if Clash(bases) {
      var b, c, n, m :| Collides(bases, b, n, c, m);
      ClashSplits(bases, b, n, c, m);
    }
    if NameTaken(bases) {
      var c, m: nat :| 2 <= m <= Times(c, bases) && Renamed(c, m) in bases;
      TimesIn(Renamed(c, m), bases);
      RenamedIsLonger(c, m);
      assert Collides(bases, Renamed(c, m), 1, c, m);
    }
    if DotsMeet(bases) {
      var stem: string, n: nat, m: nat :| MeetAt(bases, stem, n, m);
      DottedRenamed(stem, n, m);
      assert Collides(bases, stem + Mark(m) + ".", n, stem + "." + Mark(n), m);
    }
  }

  lemma RenamedIsLonger(c: string, m: nat)
    ensures Renamed(c, m) != c
  {
    hide Print;
    assert |Renamed(c, m)| > |c|;
  }

  lemma ClashSplits(bases: seq<string>, b: string, n: nat, c: string, m: nat)
    requires Collides(bases, b, n, c, m)
    ensures NameTaken(bases) || DotsMeet(bases)
  {
    hide Times, Renamed, Mark, StemLength;
    TimesIn(b, bases);
    TimesIn(c, bases);
    if n > 1 && m > 1 {
      StemIs(b);
      StemIs(c);
      if StemLength(b) < |b| && StemLength(c) < |c| {
        BothSuffixed(b, n, c, m);
      } else if StemLength(c) < |c| {
        var stem := OneSuffixed(b, n, c, m);
        assert MeetAt(bases, stem, n, m);
      } else if StemLength(b) < |b| {
        var stem := OneSuffixed(c, m, b, n);
        assert MeetAt(bases, stem, m, n);
      } else {
        BareRenamed(b, n, c, m);
      }
    }
  }

  lemma BareRenamed(b: string, n: nat, c: string, m: nat)
    requires StemLength(b) == |b| && StemLength(c) == |c| && Renamed(b, n) == Renamed(c, m)
    ensures b == c
  {
    RenamedIs(b, n);
    RenamedIs(c, m);
    assert b[..|b|] == b && b[|b|..] == "" && c[..|c|] == c && c[|c|..] == "";
    assert b + Mark(n) + "" == b + Mark(n) && c + Mark(m) + "" == c + Mark(m);
    SameEnd(b, n, c, m);
  }

  /** The names are pairwise distinct if and only if no file is called like a renamed one and no two
      dotted names meet: both can be read off the names of the files. */
  lemma DistinctUnlessTaken(bases: seq<string>)
    ensures Distinct(NamesOf(bases)) <==> !NameTaken(bases) && !DotsMeet(bases)
  {
    NamesAreDistinct(bases);
    ClashIs(bases);
  }

  /** Without " (" in any base name the names are pairwise distinct. */
  lemma PlainNamesAreDistinct(bases: seq<string>)
    requires forall base | base in bases :: !Paren(base)
    ensures Distinct(NamesOf(bases))
  {
    NamesAreDistinct(bases);
    hide Renamed;
    if b, c, n, m :| Collides(bases, b, n, c, m) {
      assert b in bases by { var i := Occurrence(b, bases, n); }
      assert c in bases by { var i := Occurrence(c, bases, m); }
      RenamedHasParen(b, n);
      RenamedHasParen(c, m);
      if n > 1 && m > 1 { RenamedInjective(b, n, c, m); }
    }
  }

  /** With it they need not be: a file of that very name meets a renamed one. */
  lemma RenamedMeetsOriginal()
    ensures var names := NamesOf(["a (2)", "a", "a"]); names[0] == names[2] == "a (2)"
  {
    var bases := ["a (2)", "a", "a"];
    assert "a (2)" != "a" by { assert |"a (2)"| == 5; }
    TimesStep(bases, 0, "a");
    TimesStep(bases, 1, "a");
    TimesStep(bases, 2, "a");
    TimesStep(bases, 0, "a (2)");
    assert Numbered("a", 2) == "a (2)" by { RenamedA(); }
    assert bases[..0] == [];
    assert Times("a", []) == 0 && Times("a (2)", []) == 0;
    hide Times, Numbered;
    assert Numbered("a (2)", 1) == "a (2)";
  }

  lemma RenamedA()
    ensures Numbered("a", 2) == "a (2)"
  {
    PrintTwo();
    StemOfA();
    hide StemLength, Print;
    var base := "a";
    assert base[..1] == "a" && base[1..] == "";
    assert Numbered(base, 2) == "a" + (" (" + "2" + ")") + "";
  }

  lemma PrintTwo()
    ensures Print(2) == "2"
  {
  }

  lemma StemOfA()
    ensures StemLength("a") == 1
  {
    hide TailWithout;
    assert "a"[|"a"| - 1..] == "a";
    TailIs("a", '.', 1);
  }

  /** A renamed name carries its number before its suffix, or at its end if it has none. */
  lemma RenamedSpells(stem: string, suffix: string, n: nat)
    requires stem != "" && suffix != "" && '.' !in suffix
    ensures Renamed(stem + "." + suffix, n) == stem + (" (" + Print(n) + ")") + ("." + suffix)
    ensures '.' !in stem ==> Renamed(stem, n) == stem + (" (" + Print(n) + ")")
    ensures Renamed("." + suffix, n) == "." + suffix + (" (" + Print(n) + ")")
  {
    hide StemLength, Print, Renamed;
    StemWith(stem, suffix);
    assert stem + ("." + suffix) == stem + "." + suffix;
    RenamedAt(stem, "." + suffix, n);
    if '.' !in stem {
      StemWithout(stem);
      NumberAtEnd(stem, n);
    }
    StemHidden(suffix);
    NumberAtEnd("." + suffix, n);
  }

  lemma RenamedAt(front: string, back: string, n: nat)
    requires StemLength(front + back) == |front|
    ensures Renamed(front + back, n) == front + (" (" + Print(n) + ")") + back
  {
    hide StemLength, Print;
    assert (front + back)[..|front|] == front && (front + back)[|front|..] == back;
  }

  lemma NumberAtEnd(base: string, n: nat)
    requires StemLength(base) == |base|
    ensures Renamed(base, n) == base + (" (" + Print(n) + ")")
  {
    hide StemLength, Print;
    assert base[..|base|] == base && base[|base|..] == "";
  }

  lemma StemWith(stem: string, suffix: string)
    requires stem != "" && suffix != "" && '.' !in suffix
    ensures StemLength(stem + "." + suffix) == |stem|
  {
    hide TailWithout;
    var base := stem + "." + suffix;
    assert base[|base| - |suffix|..] == suffix && base[|stem|] == '.';
    TailIs(base, '.', |suffix|);
  }

  lemma StemWithout(stem: string)
    requires '.' !in stem
    ensures StemLength(stem) == |stem|
  {
    hide TailWithout;
    assert stem[|stem| - |stem|..] == stem;
    TailIs(stem, '.', |stem|);
  }

  lemma StemHidden(suffix: string)
    requires '.' !in suffix
    ensures StemLength("." + suffix) == 1 + |suffix|
  {
    hide TailWithout;
    var hidden := "." + suffix;
    assert hidden[|hidden| - |suffix|..] == suffix;
    TailIs(hidden, '.', |suffix|);
  }

  /** The last component of a path: what stands behind its last slash, or, if that is nothing or ".",
      that of the path before. */
  lemma LastComponent(folder: string, file: string)
    requires '/' !in file
    ensures BaseName(file) == if file == "." then "" else file
    ensures BaseName(folder + "/" + file) == if file == "" || file == "." then BaseName(folder) else file
  {
    var path := folder + "/" + file;
    assert file[|file| - |file|..] == file && path[|path| - |file|..] == file && path[..|folder|] == folder;
    TailIs(file, '/', |file|);
    TailIs(path, '/', |file|);
    hide TailWithout;
  }

  /** An attachment goes by the last component of its name, a closing slash apart. */
  lemma BaseIs(a: Attachment, folder: string, file: string)
    requires '/' !in file && file != "" && file != "."
    requires a.name == file || a.name == folder + "/" + file || a.name == folder + "/" + file + "/"
    ensures Base(a) == file
  {
    hide BaseName;
    var path := folder + "/" + file;
    LastComponent(folder, file);
    LastComponent(path, "");
    assert path + "/" + "" == path + "/";
  }

  /** It goes by its id only if its name has no component at all. */
  lemma NamelessIsId(a: Attachment)
    requires a.name == "" || a.name == "/" || a.name == "."
    ensures Base(a) == a.id
  {
    hide BaseName;
    LastComponent("", "");
    LastComponent("", ".");
    assert BaseName("/") == "" by { assert "" + "/" + "" == "/"; }
    assert BaseName("") == "" && BaseName(".") == "";
  }

  /** No name holds a slash, provided the ids hold none. */
  lemma NamesHaveNoSlash(attachments: seq<Attachment>)
    requires forall a | a in attachments :: '/' !in a.id
    ensures forall name | name in NamesOf(Bases(attachments)) :: '/' !in name
  {
    hide Times, Base, Numbered;
    var bases := Bases(attachments);
    forall i | 0 <= i < |bases|
      ensures '/' !in Numbered(bases[i], Times(bases[i], bases[..i + 1]))
    {
      assert attachments[i] in attachments;
      BaseHasNoSlash(attachments[i]);
      NumberedHasNoSlash(bases[i], Times(bases[i], bases[..i + 1]));
    }
  }

  lemma BaseHasNoSlash(a: Attachment)
    requires '/' !in a.id
    ensures '/' !in Base(a)
  {
  }

  lemma NumberedHasNoSlash(base: string, n: nat)
    requires '/' !in base
    ensures '/' !in Numbered(base, n)
  {
    PrintIsDigits(n);
    hide Print, StemLength;
  }
}

/** The order of the digest's timestamps: comparing `_ts_key` compares the instants. */
module Stamps {
  import opened Decimal
  import opened Calendar

  // ----- The key -----

  function TrimZ(s: string): string {
    if s != "" && s[|s| - 1] == 'Z' then TrimZ(s[..|s| - 1]) else s
  }

  /** Where the first dot stands, or the length. */
  function Dot(s: string): (n: nat)
    ensures n <= |s|
  {
    if s == "" || s[0] == '.' then 0 else 1 + Dot(s[1..])
  }

  function PadEnd(s: string, width: nat): string {
    if |s| < width then s + Zeros(width - |s|) else s
  }

  datatype Key = Key(base: string, fraction: string)

  /** `_ts_key`. */
  function TsKey(timestamp: string): Key {
    var s := TrimZ(timestamp);
    var n := Dot(s);
    if n < |s| then Key(s[..n], PadEnd(s[n + 1..], 9)) else Key(s, Zeros(9))
  }

  /** The order of pairs of strings. */
  predicate Before(a: string, b: string) {
    var x, y := TsKey(a), TsKey(b);
    Less(x.base, y.base) || (x.base == y.base && Less(x.fraction, y.fraction))
  }

  // ----- Strings -----

  lemma LessTransitive(s: string, t: string, u: string)
    requires Less(s, t) && Less(t, u)
    ensures Less(s, u)
  {
    var k :| 0 <= k <= |s| && k <= |t| && DiffersAt(s, t, k);
    var j :| 0 <= j <= |t| && j <= |u| && DiffersAt(t, u, j);
    var i := if k < j then k else j;
    assert s[..i] == s[..k][..i] && t[..i] == t[..k][..i] && t[..i] == t[..j][..i] && u[..i] == u[..j][..i];
    assert k < j ==> t[k] == t[..j][k] && u[k] == u[..j][k];
    assert j < k ==> s[j] == s[..k][j] && t[j] == t[..k][j];
    assert DiffersAt(s, u, i);
  }

  lemma LessIrreflexive(s: string)
    ensures !Less(s, s)
  {
    if Less(s, s) { LessAsymmetric(s, s); }
  }

  lemma BeforeTransitive(a: string, b: string, c: string)
    requires Before(a, b) && Before(b, c)
    ensures Before(a, c)
  {
    var x, y, z := TsKey(a), TsKey(b), TsKey(c);
    hide Less, TsKey;
    if Less(x.base, y.base) && Less(y.base, z.base) {
      LessTransitive(x.base, y.base, z.base);
    }
    if Less(x.fraction, y.fraction) && Less(y.fraction, z.fraction) {
      LessTransitive(x.fraction, y.fraction, z.fraction);
    }
  }

  lemma BeforeIrreflexive(a: string)
    ensures !Before(a, a)
  {
    var x := TsKey(a);
    LessIrreflexive(x.base);
    LessIrreflexive(x.fraction);
  }

  lemma LessInHead(s: string, t: string, s': string, t': string)
    requires |s| == |s'| && (Less(s, s') || (s == s' && Less(t, t')))
    ensures Less(s + t, s' + t')
  {
    if Less(s, s') {
      var k :| 0 <= k <= |s| && k <= |s'| && DiffersAt(s, s', k);
      assert (s + t)[..k] == s[..k] && (s' + t')[..k] == s'[..k];
      assert DiffersAt(s + t, s' + t', k);
    } else {
      var k :| 0 <= k <= |t| && k <= |t'| && DiffersAt(t, t', k);
      assert (s + t)[..|s| + k] == s + t[..k] && (s' + t')[..|s| + k] == s' + t'[..k];
      assert DiffersAt(s + t, s' + t', |s| + k);
    }
  }

  /** The order of a concatenation whose heads have one length. */
  lemma LessConcat(s: string, t: string, s': string, t': string)
    requires |s| == |s'|
    ensures Less(s + t, s' + t') <==> Less(s, s') || (s == s' && Less(t, t'))
  {
    if Less(s + t, s' + t') {
      var k :| 0 <= k <= |s + t| && k <= |s' + t'| && DiffersAt(s + t, s' + t', k);
      if k < |s| {
        assert s[..k] == (s + t)[..k] && s'[..k] == (s' + t')[..k];
        assert DiffersAt(s, s', k);
      } else {
        assert s == (s + t)[..k][..|s|] && s' == (s' + t')[..k][..|s|];
        assert t[..k - |s|] == (s + t)[..k][|s|..] && t'[..k - |s|] == (s' + t')[..k][|s|..];
        assert DiffersAt(t, t', k - |s|);
      }
    } else if Less(s, s') || (s == s' && Less(t, t')) {
      LessInHead(s, t, s', t');
    }
  }

  // ----- Digits -----

  function Digit(c: char): (d: nat)
    requires '0' <= c <= '9'
    ensures d < 10
  {
    c as int - '0' as int
  }

  function Value(s: string): nat
    requires AllDigits(s)
  {
    if s == "" then 0 else 10 * Value(s[..|s| - 1]) + Digit(s[|s| - 1])
  }

  lemma {:induction false} FixedOfValue(s: string)
    requires AllDigits(s)
    ensures Value(s) < Pow10(|s|) && Fixed(Value(s), |s|) == s
  {
    if s != "" {
      var front := s[..|s| - 1];
      FixedOfValue(front);
      assert Value(s) / 10 == Value(front) && Value(s) % 10 == Digit(s[|s| - 1]);
      assert s == front + [DigitChar(Value(s) % 10)];
    }
  }

  /** Fixed-width digits compare as numbers. */
  lemma FixedLess(a: nat, b: nat, width: nat)
    requires a < Pow10(width) && b < Pow10(width)
    ensures Less(Fixed(a, width), Fixed(b, width)) <==> a < b
    ensures Fixed(a, width) == Fixed(b, width) <==> a == b
    ensures |Fixed(a, width)| == width == |Fixed(b, width)|
  {
    hide Fixed, Less;
    FixedLength(a, width);
    FixedLength(b, width);
    LessIrreflexive(Fixed(a, width));
    if a < b {
      FixedOrder(a, b, width);
      LessAsymmetric(Fixed(a, width), Fixed(b, width));
    } else if b < a {
      FixedOrder(b, a, width);
      LessAsymmetric(Fixed(b, width), Fixed(a, width));
    }
  }

  lemma {:induction false} ValueOfPadded(s: string, k: nat)
    requires AllDigits(s)
    ensures AllDigits(s + Zeros(k)) && Value(s + Zeros(k)) == Value(s) * Pow10(k)
  {
    if k == 0 {
      assert s + Zeros(0) == s;
    } else {
      ValueOfPadded(s, k - 1);
      ZeroAppended(s, k);
      TenTimes(Value(s), Pow10(k - 1));
    }
  }

  lemma TenTimes(v: nat, p: nat)
    ensures 10 * (v * p) == v * (10 * p)
  {
  }

  lemma ZeroAppended(s: string, k: nat)
    requires AllDigits(s) && k > 0
    ensures AllDigits(s + Zeros(k)) && Value(s + Zeros(k)) == 10 * Value(s + Zeros(k - 1))
  {
    var t := s + Zeros(k);
    assert t[..|t| - 1] == s + Zeros(k - 1) && t[|t| - 1] == '0';
  }

  // ----- Fields of fixed width -----

  datatype Field = Field(width: nat, separator: string)

  function Show(values: seq<nat>, format: seq<Field>): string
    requires |values| == |format|
  {
    if values == [] then ""
    else (Fixed(values[0], format[0].width) + format[0].separator) + Show(values[1..], format[1..])
  }

  predicate Lex(a: seq<nat>, b: seq<nat>)
    requires |a| == |b|
  {
    a != [] && (a[0] < b[0] || (a[0] == b[0] && Lex(a[1..], b[1..])))
  }

  ghost predicate FitsFormat(values: seq<nat>, format: seq<Field>) {
    |values| == |format| && forall i | 0 <= i < |values| :: values[i] < Pow10(format[i].width)
  }

  lemma {:induction false} ShowOrder(a: seq<nat>, b: seq<nat>, format: seq<Field>)
    requires FitsFormat(a, format) && FitsFormat(b, format)
    ensures Less(Show(a, format), Show(b, format)) <==> Lex(a, b)
    ensures Show(a, format) == Show(b, format) <==> a == b
    ensures |Show(a, format)| == |Show(b, format)|
  {
    hide Fixed, Less, Pow10;
    if a == [] {
      LessIrreflexive("");
    } else {
      var f := format[0];
      ShowOrder(a[1..], b[1..], format[1..]);
      FixedLess(a[0], b[0], f.width);
      var x, y := Fixed(a[0], f.width), Fixed(b[0], f.width);
      LessConcat(x, f.separator, y, f.separator);
      LessIrreflexive(f.separator);
      LessConcat(x + f.separator, Show(a[1..], format[1..]), y + f.separator, Show(b[1..], format[1..]));
      assert x + f.separator == y + f.separator ==> x == y by { SameHead(x, y, f.separator, f.separator); }
      SameHead(x + f.separator, y + f.separator, Show(a[1..], format[1..]), Show(b[1..], format[1..]));
      assert a == [a[0]] + a[1..] && b == [b[0]] + b[1..];
    }
  }

  lemma SameHead(x: string, y: string, s: string, t: string)
    requires |x| == |y|
    ensures x + s == y + t <==> x == y && s == t
  {
    if x + s == y + t {
      assert x == (x + s)[..|x|] && y == (y + t)[..|x|];
      assert s == (x + s)[|x|..] && t == (y + t)[|x|..];
    }
  }

  // ----- Instants -----

  /** The nanoseconds of up to nine fraction digits. */
  function Worth(fraction: string): nat
    requires AllDigits(fraction) && |fraction| <= 9
  {
    Value(fraction) * Pow10(9 - |fraction|)
  }

  /** An instant as App Insights prints it: a UTC day, a second of it, and up to nine fraction digits. */
  datatype Stamp = Stamp(day: int, second: nat, fraction: string) {
    ghost predicate Valid() {
      YearStart(0) <= day < YearStart(10000) && second < 86_400 && |fraction| <= 9 && AllDigits(fraction)
    }

    /** Nanoseconds since the start of 1970. */
    ghost function Time(): int
      requires Valid()
    {
      (day * 86_400 + second) * 1_000_000_000 + Worth(fraction)
    }
  }

  function Parts(x: Stamp): seq<int> {
    var month := MonthOf(x.day);
    [month / 12, month % 12 + 1, x.day - MonthStart(month) + 1,
     x.second / 3600, x.second / 60 % 60, x.second % 60]
  }

  function Format(): seq<Field> {
    [Field(4, "-"), Field(2, "-"), Field(2, "T"), Field(2, ":"), Field(2, ":"), Field(2, "")]
  }

  lemma FieldsFit(x: Stamp)
    requires x.Valid()
    ensures forall i | 0 <= i < 6 :: Parts(x)[i] >= 0
    ensures FitsFormat(Parts(x), Format())
  {
    MonthOfIs(x.day);
    var y := YearOf(x.day);
    MonthLength(MonthOf(x.day));
    hide MonthOf, MonthStart, YearOf;
    YearsInOrder(x.day);
    assert Pow10(2) == 100 && Pow10(4) == 10_000 by { assert Pow10(1) == 10; assert Pow10(3) == 1000; }
  }

  lemma YearsInOrder(day: int)
    requires YearStart(0) <= day < YearStart(10000)
    ensures 0 <= YearOf(day) < 10000
  {
    var y := YearOf(day);
    if y < 0 { YearsApart(y + 1, 0); }
    if y >= 10000 { YearsApart(10000, y); }
  }

  function Fields(x: Stamp): seq<nat>
    requires x.Valid()
  {
    FieldsFit(x);
    Parts(x)
  }

  lemma FieldsAre(x: Stamp)
    requires x.Valid()
    ensures FitsFormat(Fields(x), Format()) && Fields(x) == Parts(x)
  {
    FieldsFit(x);
    hide Format, MonthOf, MonthStart, FitsFormat;
  }

  /** `YYYY-MM-DDTHH:MM:SS`. */
  function Base(x: Stamp): string
    requires x.Valid()
  {
    FieldsAre(x);
    Show(Fields(x), Format())
  }

  /** The base, a fraction if there is one, and `Z`. */
  function Text(x: Stamp): string
    requires x.Valid()
  {
    Base(x) + (if x.fraction == "" then "" else "." + x.fraction) + "Z"
  }

  // ----- The key of a printed instant -----

  lemma {:induction false} DotAt(s: string, t: string)
    requires '.' !in s && (t == "" || t[0] == '.')
    ensures Dot(s + t) == |s|
  {
    if s == "" {
      assert s + t == t;
    } else {
      assert (s + t)[1..] == s[1..] + t;
      DotAt(s[1..], t);
    }
  }

  lemma {:induction false} ShownPlain(values: seq<nat>, format: seq<Field>)
    requires FitsFormat(values, format)
    requires forall f | f in format :: '.' !in f.separator && 'Z' !in f.separator
    ensures '.' !in Show(values, format) && 'Z' !in Show(values, format)
  {
    if values != [] {
      ShownPlain(values[1..], format[1..]);
      FixedIsDigits(values[0], format[0].width);
      assert format[0] in format;
    }
  }

  lemma {:induction false} FixedIsDigits(n: nat, width: nat)
    ensures AllDigits(Fixed(n, width))
  {
    if width > 0 { FixedIsDigits(n / 10, width - 1); }
  }

  lemma TrimOne(s: string)
    requires 'Z' !in s
    ensures TrimZ(s + "Z") == s
  {
    assert (s + "Z")[..|s + "Z"| - 1] == s;
  }

  lemma BaseIsPlain(x: Stamp)
    requires x.Valid()
    ensures '.' !in Base(x) && 'Z' !in Base(x)
  {
    FieldsAre(x);
    hide Show, Format, Fields, Parts, FitsFormat, YearStart;
    ShownPlain(Fields(x), Format());
  }

  function Nanos(fraction: string): string {
    PadEnd(fraction, 9)
  }

  lemma KeyOfText(x: Stamp)
    requires x.Valid()
    ensures TsKey(Text(x)) == Key(Base(x), Nanos(x.fraction))
  {
    BaseIsPlain(x);
    assert 'Z' !in x.fraction;
    hide Base, TsKey, Nanos, YearStart;
    KeyOf(Base(x), x.fraction);
  }

  lemma KeyOf(base: string, fraction: string)
    requires '.' !in base && 'Z' !in base && 'Z' !in fraction && |fraction| <= 9
    ensures TsKey(base + (if fraction == "" then "" else "." + fraction) + "Z") == Key(base, Nanos(fraction))
  {
    var tail := if fraction == "" then "" else "." + fraction;
    hide TrimZ, Dot;
    TrimOne(base + tail);
    DotAt(base, tail);
    if fraction == "" {
      assert base + tail == base;
      assert PadEnd("", 9) == Zeros(9);
    } else {
      assert (base + tail)[..|base|] == base;
      assert (base + tail)[|base| + 1..] == fraction;
    }
  }

  // ----- The order of instants -----

  /** The padded fraction compares as the fraction's value. */
  lemma NanosLess(f: string, g: string)
    requires AllDigits(f) && AllDigits(g) && |f| <= 9 && |g| <= 9
    ensures Less(Nanos(f), Nanos(g)) <==> Worth(f) < Worth(g)
    ensures Worth(f) < Pow10(9)
  {
    PaddedFraction(f);
    PaddedFraction(g);
    hide Less, Fixed, Value;
    FixedLess(Value(Nanos(f)), Value(Nanos(g)), 9);
  }

  lemma PaddedFraction(f: string)
    requires AllDigits(f) && |f| <= 9
    ensures AllDigits(Nanos(f)) && |Nanos(f)| == 9 && Fixed(Value(Nanos(f)), 9) == Nanos(f)
    ensures Value(Nanos(f)) == Worth(f) < Pow10(9)
  {
    ValueOfPadded(f, 9 - |f|);
    assert Nanos(f) == f + Zeros(9 - |f|);
    hide Fixed, Value, Pow10;
    FixedOfValue(Nanos(f));
  }

  lemma DaysInOrder(d: int, e: int)
    ensures d < e ==> MonthOf(d) < MonthOf(e) || (MonthOf(d) == MonthOf(e) && d - MonthStart(MonthOf(d)) < e - MonthStart(MonthOf(e)))
  {
    MonthOfIs(d);
    MonthOfIs(e);
    hide MonthOf, MonthStart;
    if d < e && MonthOf(d) > MonthOf(e) {
      MonthsApart(MonthOf(e) + 1, MonthOf(d));
    }
  }

  /** The printed base compares as the seconds it stands for. */
  lemma BaseOrder(x: Stamp, y: Stamp)
    requires x.Valid() && y.Valid()
    ensures Less(Base(x), Base(y)) <==> x.day * 86_400 + x.second < y.day * 86_400 + y.second
    ensures Base(x) == Base(y) <==> x.day == y.day && x.second == y.second
  {
    FieldsAre(x);
    FieldsAre(y);
    ByDay(x, y);
    FieldsInOrder(x, y);
    hide Fields, Parts, Format, FitsFormat, Lex, Show, Less, YearStart;
    ShowOrder(Fields(x), Fields(y), Format());
  }

  lemma FieldsInOrder(x: Stamp, y: Stamp)
    requires x.Valid() && y.Valid()
    ensures Lex(Fields(x), Fields(y)) <==> x.day < y.day || (x.day == y.day && x.second < y.second)
    ensures Fields(x) == Fields(y) <==> x.day == y.day && x.second == y.second
  {
    FieldsAre(x);
    FieldsAre(y);
    DaysInOrder(x.day, y.day);
    DaysInOrder(y.day, x.day);
    SecondParts(x.second, y.second);
    PartsAre(x);
    PartsAre(y);
    hide *;
    LexSix(Fields(x), Fields(y));
  }

  lemma PartsAre(x: Stamp)
    ensures |Parts(x)| == 6
    ensures Parts(x)[0] == MonthOf(x.day) / 12 && Parts(x)[1] == MonthOf(x.day) % 12 + 1
    ensures Parts(x)[2] == x.day - MonthStart(MonthOf(x.day)) + 1
    ensures Parts(x)[3] == x.second / 3600 && Parts(x)[4] == x.second / 60 % 60 && Parts(x)[5] == x.second % 60
  {
    hide MonthOf, MonthStart;
  }

  lemma ByDay(x: Stamp, y: Stamp)
    requires x.Valid() && y.Valid()
    ensures x.day * 86_400 + x.second < y.day * 86_400 + y.second
            <==> x.day < y.day || (x.day == y.day && x.second < y.second)
  {
  }

  lemma LexAt(a: seq<nat>, b: seq<nat>, k: nat)
    requires |a| == |b| && k < |a|
    ensures Lex(a[k..], b[k..]) <==> a[k] < b[k] || (a[k] == b[k] && Lex(a[k + 1..], b[k + 1..]))
  {
    assert a[k..][1..] == a[k + 1..] && b[k..][1..] == b[k + 1..];
  }

  lemma LexSix(a: seq<nat>, b: seq<nat>)
    requires |a| == |b| == 6
    ensures Lex(a, b) <==> (
      || a[0] < b[0] || (a[0] == b[0] && (a[1] < b[1] || (a[1] == b[1] && (a[2] < b[2] || (a[2] == b[2]
         && (a[3] < b[3] || (a[3] == b[3] && (a[4] < b[4] || (a[4] == b[4] && a[5] < b[5]))))))))))
    ensures a == b <==> a[0] == b[0] && a[1] == b[1] && a[2] == b[2] && a[3] == b[3] && a[4] == b[4] && a[5] == b[5]
  {
    assert !Lex(a[6..], b[6..]);
    hide Lex;
    LexAt(a, b, 5);
    LexAt(a, b, 4);
    LexAt(a, b, 3);
    LexAt(a, b, 2);
    LexAt(a, b, 1);
    LexAt(a, b, 0);
    assert a[0..] == a && b[0..] == b;
  }

  lemma SecondParts(s: nat, t: nat)
    ensures s < t <==> (
      || s / 3600 < t / 3600
      || (s / 3600 == t / 3600 && s / 60 % 60 < t / 60 % 60)
      || (s / 3600 == t / 3600 && s / 60 % 60 == t / 60 % 60 && s % 60 < t % 60))
    ensures s == t <==> s / 3600 == t / 3600 && s / 60 % 60 == t / 60 % 60 && s % 60 == t % 60
  {
    assert s == s / 3600 * 3600 + s / 60 % 60 * 60 + s % 60 by { ClockParts(s); }
    assert t == t / 3600 * 3600 + t / 60 % 60 * 60 + t % 60 by { ClockParts(t); }
  }

  lemma ClockParts(s: nat)
    ensures s == s / 3600 * 3600 + s / 60 % 60 * 60 + s % 60
  {
    assert s / 60 / 60 == s / 3600;
  }

  /** `_ts_key` orders printed instants as time does, however many fraction digits each one carries. */
  lemma KeyOrderIsTime(x: Stamp, y: Stamp)
    requires x.Valid() && y.Valid()
    ensures Before(Text(x), Text(y)) <==> x.Time() < y.Time()
  {
    KeyOfText(x);
    KeyOfText(y);
    BaseOrder(x, y);
    assert AllDigits(x.fraction) && AllDigits(y.fraction);
    NanosLess(x.fraction, y.fraction);
    NanosLess(y.fraction, x.fraction);
    PowNine();
    hide Less, Nanos, Text, TsKey, Worth, Pow10, Base, YearStart, AllDigits;
    ByDay(x, y);
    ByDay(y, x);
  }

  lemma PowNine()
    ensures Pow10(9) == 1_000_000_000
  {
    assert Pow10(3) == 1000;
    assert Pow10(6) == 1000 * Pow10(3);
    assert Pow10(9) == 1000 * Pow10(6);
  }
}

/** Grouping the failure rows of a day, and the digest made of the groups. */
module DigestGroups {
  import opened Options
  import opened Collections
  import Stamps
  import opened DigestBody
  import Fences

  datatype Row = Row(itemType: Option<string>, severity: Option<int>, message: string,
                     timestamp: string, details: string)

  datatype Key = Key(itemType: Option<string>, severity: int, message: string)

  // ----- Message keys -----

  /** White space as Python's `str.split` sees it. */
  predicate Space(c: char) {
    var n := c as int;
    || 9 <= n <= 13 || 28 <= n <= 32 || n == 133 || n == 160 || n == 5760 || 8192 <= n <= 8202
    || n == 8232 || n == 8233 || n == 8239 || n == 8287 || n == 12288
  }

  function WordLength(s: string): (n: nat)
    ensures n <= |s|
    ensures s != "" && !Space(s[0]) ==> n > 0
  {
    if s == "" || Space(s[0]) then 0 else 1 + WordLength(s[1..])
  }

  function Words(s: string): seq<string>
    decreases |s|
  {
    if s == "" then []
    else if Space(s[0]) then Words(s[1..])
    else [s[..WordLength(s)]] + Words(s[WordLength(s)..])
  }

  function Unwords(words: seq<string>): string {
    if words == [] then "" else if |words| == 1 then words[0] else words[0] + " " + Unwords(words[1..])
  }

  predicate Word(w: string) {
    w != "" && forall i | 0 <= i < |w| :: !Space(w[i])
  }

  lemma {:induction false} WordIs(s: string)
    ensures var n := WordLength(s);
      (forall i | 0 <= i < n :: !Space(s[i])) && (n < |s| ==> Space(s[n]))
  {
    if s != "" && !Space(s[0]) { WordIs(s[1..]); }
  }

  lemma {:induction false} WordsAreWords(s: string)
    ensures forall w | w in Words(s) :: Word(w)
    decreases |s|
  {
    if s != "" {
      if Space(s[0]) {
        WordsAreWords(s[1..]);
      } else {
        WordIs(s);
        WordsAreWords(s[WordLength(s)..]);
      }
    }
  }

  lemma {:induction false} UnwordsOneLine(words: seq<string>)
    requires forall w | w in words :: Word(w)
    ensures Fences.OneLine(Unwords(words))
  {
    if words != [] {
      assert words[0] in words;
      UnwordsOneLine(words[1..]);
      if |words| > 1 {
        assert Fences.OneLine(" ");
        Fences.OneLineJoins(words[0], " ");
        Fences.OneLineJoins(words[0] + " ", Unwords(words[1..]));
      }
    }
  }

  /** `normalize_message`; `scrub` stands for its substitutions. */
  function Normalize(message: string, scrub: string -> string): string {
    Unwords(Words(scrub(message)))
  }

  /** Words part at white space and nowhere else. */
  lemma {:induction false} WordsPart(a: string, c: char, b: string)
    requires Space(c)
    ensures Words(a + [c] + b) == Words(a) + Words(b)
    decreases |a|
  {
    var s := a + [c] + b;
    if a == "" {
      assert s[1..] == b;
    } else if Space(a[0]) {
      assert s[1..] == a[1..] + [c] + b;
      WordsPart(a[1..], c, b);
    } else {
      WordWithin(a, [c] + b);
      var n := WordLength(a);
      assert s == a + ([c] + b) && s[..n] == a[..n] && s[n..] == a[n..] + [c] + b;
      WordsPart(a[n..], c, b);
    }
  }

  lemma {:induction false} WordWithin(a: string, rest: string)
    requires rest != "" && Space(rest[0])
    ensures WordLength(a + rest) == WordLength(a)
  {
    if a == "" {
      assert a + rest == rest;
    } else {
      assert (a + rest)[1..] == a[1..] + rest;
      if !Space(a[0]) { WordWithin(a[1..], rest); }
    }
  }

  lemma {:induction false} WordAlone(w: string)
    requires Word(w)
    ensures WordLength(w) == |w| && Words(w) == [w]
  {
    if |w| > 1 {
      WordAlone(w[1..]);
    } else {
      assert w[1..] == "";
    }
    assert w[..|w|] == w && w[|w|..] == "" && Words("") == [];
  }

  lemma {:induction false} WordsOfUnwords(words: seq<string>)
    requires forall w | w in words :: Word(w)
    ensures Words(Unwords(words)) == words
  {
    if words != [] {
      assert words[0] in words;
      WordAlone(words[0]);
      if |words| > 1 {
        WordsOfUnwords(words[1..]);
        assert Unwords(words) == words[0] + [' '] + Unwords(words[1..]);
        WordsPart(words[0], ' ', Unwords(words[1..]));
      }
    }
  }

  /** The key keeps the words of the scrubbed message and nothing of the space between them: two
      messages have one key exactly when they have the same words. */
  lemma NormalizeKeepsWords(a: string, b: string, scrub: string -> string)
    ensures Words(Normalize(a, scrub)) == Words(scrub(a))
    ensures Normalize(a, scrub) == Normalize(b, scrub) <==> Words(scrub(a)) == Words(scrub(b))
  {
    WordsAreWords(scrub(a));
    WordsAreWords(scrub(b));
    WordsOfUnwords(Words(scrub(a)));
    WordsOfUnwords(Words(scrub(b)));
  }

  // ----- Grouping, row by row -----

  /** An exception without a severity ranks as an error. */
  function Severity(row: Row): int {
    if row.severity == None then 3 else row.severity.value
  }

  function Label(row: Row): string {
    if row.itemType == Some("exception") then "EXCEPTION"
    else match row.severity
      case Some(4) => "CRITICAL"
      case Some(3) => "ERROR"
      case Some(2) => "WARNING"
      case Some(1) => "INFO"
      case Some(0) => "DEBUG"
      case _ => "ERROR"
  }

  function KeyOf(row: Row, scrub: string -> string): Key {
    Key(row.itemType, Severity(row), Normalize(row.message, scrub))
  }

  /** The order of the digest: the worst first, then the most frequent. */
  predicate Ranked(a: Group, b: Group) {
    a.severity > b.severity || (a.severity == b.severity && a.count >= b.count)
  }

  /** A group before its first row is counted. */
  function Fresh(key: Key, row: Row): Group {
    Group(Label(row), key.severity, key.message, 0, row.timestamp, row.timestamp, row.details)
  }

  /** `_group`. */
  method GroupRows(rows: seq<Row>, scrub: string -> string) returns (groups: seq<Group>)
    ensures groups == Grouped(rows, scrub)
  {
    hide *;
    var order: seq<Key> := [];
    var entries: map<Key, Group> := map[];
    NothingTallied(scrub);
    for i := 0 to |rows|
      invariant Tallied(entries, order, rows[..i], scrub)
    {
      var row := rows[i];
      var key := KeyOf(row, scrub);
      ghost var entries0, order0 := entries, order;
      if key !in entries {
        order := order + [key];
        entries := entries[key := Fresh(key, row)];
      }
      var group := entries[key];
      var first := if Stamps.Before(row.timestamp, group.first) then row.timestamp else group.first;
      var last := if Stamps.Before(group.last, row.timestamp) then row.timestamp else group.last;
      var details := if |row.details| > |group.details| then row.details else group.details;
      entries := entries[key := group.(count := group.count + 1, first := first, last := last, details := details)];
      TallyStep(entries0, order0, rows[..i], row, scrub);
      assert entries[key] == Absorb(group, row) by { AbsorbIs(group, row); }
      assert rows[..i + 1] == rows[..i] + [row];
    }
    assert rows[..|rows|] == rows;
    TallyEnds(entries, order, rows, scrub);
    groups := StableSort(seq(|order|, i requires 0 <= i < |order| && order[i] in entries => entries[order[i]]), Ranked);
  }

  /** The dictionary holds the summary of each key's rows. */
  ghost predicate Tallied(entries: map<Key, Group>, order: seq<Key>, rows: seq<Row>, scrub: string -> string) {
    && order == Keys(rows, scrub)
    && (forall key :: key in entries <==> key in order)
    && forall key | key in entries ::
         Members(rows, key, scrub) != [] && entries[key] == Summary(key, Members(rows, key, scrub))
  }

  /** What a row does to its group. */
  function Absorb(g: Group, row: Row): Group {
    g.(count := g.count + 1,
       first := if Stamps.Before(row.timestamp, g.first) then row.timestamp else g.first,
       last := if Stamps.Before(g.last, row.timestamp) then row.timestamp else g.last,
       details := if |row.details| > |g.details| then row.details else g.details)
  }

  lemma AbsorbIs(g: Group, row: Row)
    ensures Absorb(g, row) == g.(
      count := g.count + 1,
      first := if Stamps.Before(row.timestamp, g.first) then row.timestamp else g.first,
      last := if Stamps.Before(g.last, row.timestamp) then row.timestamp else g.last,
      details := if |row.details| > |g.details| then row.details else g.details)
  {
  }

  lemma NothingTallied(scrub: string -> string)
    ensures Tallied(map[], [], [], scrub)
  {
  }

  lemma TallyStep(entries: map<Key, Group>, order: seq<Key>, rows: seq<Row>, row: Row, scrub: string -> string)
    requires Tallied(entries, order, rows, scrub)
    ensures var key := KeyOf(row, scrub);
      && (key in entries ==>
            Tallied(entries[key := Absorb(entries[key], row)], order, rows + [row], scrub))
      && (key !in entries ==>
            Tallied(entries[key := Fresh(key, row)][key := Absorb(Fresh(key, row), row)], order + [key], rows + [row], scrub))
  {
    var key := KeyOf(row, scrub);
    hide KeyOf, Keys, Members, Summary, Absorb, Fresh;
    KeysSnoc(rows, row, scrub);
    forall k: Key
      ensures Members(rows + [row], k, scrub)
              == if k == key then Members(rows, k, scrub) + [row] else Members(rows, k, scrub)
    {
      MembersSnoc(rows, row, k, scrub);
      assert Members(rows, k, scrub) + [] == Members(rows, k, scrub);
    }
    if key !in entries {
      NoMembers(rows, key, scrub);
    }
    SummarySnoc(key, Members(rows, key, scrub), row);
  }

  lemma NoMembers(rows: seq<Row>, key: Key, scrub: string -> string)
    requires key !in Keys(rows, scrub)
    ensures Members(rows, key, scrub) == []
  {
    KeysCover(rows, scrub);
    hide KeyOf, Keys;
    FilterNone(rows, (row: Row) => KeyOf(row, scrub) == key);
  }

  lemma TallyEnds(entries: map<Key, Group>, order: seq<Key>, rows: seq<Row>, scrub: string -> string)
    requires Tallied(entries, order, rows, scrub)
    ensures forall key | key in order :: key in entries
    ensures StableSort(seq(|order|, i requires 0 <= i < |order| && order[i] in entries => entries[order[i]]), Ranked)
            == Grouped(rows, scrub)
  {
    KeysCover(rows, scrub);
    hide KeyOf, Keys, Members, Summary, StableSort;
    assert seq(|order|, i requires 0 <= i < |order| && order[i] in entries => entries[order[i]])
           == Summaries(order, rows, scrub);
  }

  // ----- Grouping, key by key -----

  /** The keys in the order in which they first occur. */
  function Keys(rows: seq<Row>, scrub: string -> string): seq<Key> {
    if rows == [] then []
    else
      var keys, key := Keys(rows[..|rows| - 1], scrub), KeyOf(rows[|rows| - 1], scrub);
      if key in keys then keys else keys + [key]
  }

  function Members(rows: seq<Row>, key: Key, scrub: string -> string): seq<Row> {
    Filter(rows, (row: Row) => KeyOf(row, scrub) == key)
  }

  function Earliest(rows: seq<Row>): string
    requires rows != []
  {
    var last := rows[|rows| - 1].timestamp;
    if |rows| == 1 then last
    else
      var e := Earliest(rows[..|rows| - 1]);
      if Stamps.Before(last, e) then last else e
  }

  function Latest(rows: seq<Row>): string
    requires rows != []
  {
    var last := rows[|rows| - 1].timestamp;
    if |rows| == 1 then last
    else
      var e := Latest(rows[..|rows| - 1]);
      if Stamps.Before(e, last) then last else e
  }

  function Longest(rows: seq<Row>): string
    requires rows != []
  {
    var last := rows[|rows| - 1].details;
    if |rows| == 1 then last
    else
      var e := Longest(rows[..|rows| - 1]);
      if |last| > |e| then last else e
  }

  function Summary(key: Key, rows: seq<Row>): Group
    requires rows != []
  {
    Group(Label(rows[0]), key.severity, key.message, |rows|, Earliest(rows), Latest(rows), Longest(rows))
  }

  function Summaries(keys: seq<Key>, rows: seq<Row>, scrub: string -> string): seq<Group>
    requires forall key | key in keys :: Members(rows, key, scrub) != []
  {
    seq(|keys|, i requires 0 <= i < |keys| && keys[i] in keys => Summary(keys[i], Members(rows, keys[i], scrub)))
  }

  function Grouped(rows: seq<Row>, scrub: string -> string): seq<Group> {
    KeysCover(rows, scrub);
    StableSort(Summaries(Keys(rows, scrub), rows, scrub), Ranked)
  }

  lemma {:induction false} KeysCover(rows: seq<Row>, scrub: string -> string)
    ensures Distinct(Keys(rows, scrub))
    ensures forall row | row in rows :: KeyOf(row, scrub) in Keys(rows, scrub)
    ensures forall key | key in Keys(rows, scrub) :: Members(rows, key, scrub) != []
  {
    hide KeyOf, Filter;
    if rows != [] {
      var front, last := rows[..|rows| - 1], rows[|rows| - 1];
      KeysCover(front, scrub);
      assert rows == front + [last];
      forall key: Key
        ensures Members(rows, key, scrub) == Members(front, key, scrub) + if key == KeyOf(last, scrub) then [last] else []
      {
        MembersSnoc(front, last, key, scrub);
      }
    }
  }

  lemma KeysSnoc(rows: seq<Row>, row: Row, scrub: string -> string)
    ensures Keys(rows + [row], scrub)
            == if KeyOf(row, scrub) in Keys(rows, scrub) then Keys(rows, scrub) else Keys(rows, scrub) + [KeyOf(row, scrub)]
  {
    assert (rows + [row])[..|rows|] == rows;
  }

  lemma MembersSnoc(rows: seq<Row>, row: Row, key: Key, scrub: string -> string)
    ensures Members(rows + [row], key, scrub)
            == Members(rows, key, scrub) + if KeyOf(row, scrub) == key then [row] else []
  {
    FilterAppend(rows, [row], (row: Row) => KeyOf(row, scrub) == key);
    hide KeyOf;
    assert [row][1..] == [];
  }

  lemma SummarySnoc(key: Key, rows: seq<Row>, row: Row)
    ensures Summary(key, rows + [row]) == Absorb(if rows == [] then Fresh(key, row) else Summary(key, rows), row)
  {
    hide Stamps.Before, Label;
    if rows == [] {
      assert rows + [row] == [row];
    } else {
      assert (rows + [row])[..|rows|] == rows;
    }
  }

  // ----- What the groups say -----

  /** A group's times are the chronological bounds of its rows, and its trace is a longest one. */
  lemma {:induction false} SummaryBounds(rows: seq<Row>)
    requires rows != []
    ensures exists row | row in rows :: row.timestamp == Earliest(rows)
    ensures exists row | row in rows :: row.timestamp == Latest(rows)
    ensures exists row | row in rows :: row.details == Longest(rows)
    ensures forall row | row in rows ::
      && !Stamps.Before(row.timestamp, Earliest(rows))
      && !Stamps.Before(Latest(rows), row.timestamp)
      && |row.details| <= |Longest(rows)|
  {
    hide Stamps.Before;
    var front, last := rows[..|rows| - 1], rows[|rows| - 1];
    assert rows == front + [last];
    Stamps.BeforeIrreflexive(last.timestamp);
    if |rows| > 1 {
      SummaryBounds(front);
      var e, l := Earliest(front), Latest(front);
      forall row | row in front
        ensures !Stamps.Before(row.timestamp, Earliest(rows)) && !Stamps.Before(Latest(rows), row.timestamp)
      {
        if Stamps.Before(last.timestamp, e) && Stamps.Before(row.timestamp, last.timestamp) {
          Stamps.BeforeTransitive(row.timestamp, last.timestamp, e);
        }
        if Stamps.Before(l, last.timestamp) && Stamps.Before(last.timestamp, row.timestamp) {
          Stamps.BeforeTransitive(l, last.timestamp, row.timestamp);
        }
      }
    }
  }

  function Counted(groups: seq<Group>): nat {
    if groups == [] then 0 else groups[0].count + Counted(groups[1..])
  }

  lemma {:induction false} CountedInsert(g: Group, groups: seq<Group>)
    ensures Counted(Insert(g, groups, Ranked)) == g.count + Counted(groups)
  {
    if groups != [] && !Ranked(g, groups[0]) {
      CountedInsert(g, groups[1..]);
    }
  }

  lemma {:induction false} CountedSort(groups: seq<Group>)
    ensures Counted(StableSort(groups, Ranked)) == Counted(groups)
  {
    if groups != [] {
      CountedSort(groups[1..]);
      CountedInsert(groups[0], StableSort(groups[1..], Ranked));
    }
  }

  /** The number of rows under any of the keys. */
  function Covered(keys: seq<Key>, rows: seq<Row>, scrub: string -> string): nat {
    if keys == [] then 0 else |Members(rows, keys[0], scrub)| + Covered(keys[1..], rows, scrub)
  }

  lemma {:induction false} CountedIsCovered(keys: seq<Key>, rows: seq<Row>, scrub: string -> string)
    requires forall key | key in keys :: Members(rows, key, scrub) != []
    ensures Counted(Summaries(keys, rows, scrub)) == Covered(keys, rows, scrub)
  {
    hide Members;
    if keys != [] {
      assert Summaries(keys, rows, scrub)[1..] == Summaries(keys[1..], rows, scrub);
      CountedIsCovered(keys[1..], rows, scrub);
    }
  }

  lemma {:induction false} CoveredSnoc(keys: seq<Key>, rows: seq<Row>, row: Row, scrub: string -> string)
    requires Distinct(keys)
    ensures Covered(keys, rows + [row], scrub)
            == Covered(keys, rows, scrub) + if KeyOf(row, scrub) in keys then 1 else 0
  {
    hide Members, KeyOf;
    if keys != [] {
      assert keys == [keys[0]] + keys[1..];
      MembersSnoc(rows, row, keys[0], scrub);
      CoveredSnoc(keys[1..], rows, row, scrub);
    }
  }

  lemma {:induction false} CoveredNone(keys: seq<Key>, scrub: string -> string)
    ensures Covered(keys, [], scrub) == 0
  {
    if keys != [] { CoveredNone(keys[1..], scrub); }
  }

  /** Distinct keys that include every row's key cover every row once. */
  lemma {:induction false} CoversAll(keys: seq<Key>, rows: seq<Row>, scrub: string -> string)
    requires Distinct(keys) && forall row | row in rows :: KeyOf(row, scrub) in keys
    ensures Covered(keys, rows, scrub) == |rows|
  {
    hide KeyOf, Covered;
    if rows == [] {
      CoveredNone(keys, scrub);
    } else {
      var front, last := rows[..|rows| - 1], rows[|rows| - 1];
      assert rows == front + [last];
      CoversAll(keys, front, scrub);
      CoveredSnoc(keys, front, last, scrub);
    }
  }

  /** The names of the severities, and the rank of a row without one: above a warning. */
  lemma LabelsMean(row: Row)
    ensures row.itemType == Some("exception") ==> Label(row) == "EXCEPTION"
    ensures row.itemType != Some("exception") ==>
              && (Label(row) == "CRITICAL" <==> row.severity == Some(4))
              && (Label(row) == "WARNING" <==> row.severity == Some(2))
              && (Label(row) == "INFO" <==> row.severity == Some(1))
              && (Label(row) == "DEBUG" <==> row.severity == Some(0))
              && (Label(row) == "ERROR" <==> row.severity.None? || row.severity.value == 3 || !(0 <= row.severity.value <= 4))
    ensures Severity(row) == row.severity.UnwrapOr(3)
  {
    assert "CRITICAL"[0] == 'C' && "ERROR"[0] == 'E' && "WARNING"[0] == 'W' && "INFO"[0] == 'I' && "DEBUG"[0] == 'D';
  }

  /** Rows that share a key share a label, although the label is not part of the key. */
  lemma KeyDecidesLabel(x: Row, y: Row, scrub: string -> string)
    requires KeyOf(x, scrub) == KeyOf(y, scrub)
    ensures Label(x) == Label(y) && |Label(x)| <= 9 && Fences.OneLine(Label(x))
  {
    hide Normalize;
  }

  lemma StableRank(all: seq<Group>, groups: seq<Group>)
    requires StablyOrdered(all, groups, Ranked)
    ensures forall i, j | 0 <= i < j < |groups| ::
      || groups[i].severity > groups[j].severity
      || (groups[i].severity == groups[j].severity && groups[i].count > groups[j].count)
      || (groups[i].severity == groups[j].severity && groups[i].count == groups[j].count && Before(all, groups[i], groups[j]))
  {
  }

  /** Grouping partitions the rows: one group for each key, each row counted once, and the groups
      ranked by severity, then by count, and then as their keys first occur. */
  lemma GroupingPartitions(rows: seq<Row>, scrub: string -> string)
    ensures var groups, keys := Grouped(rows, scrub), Keys(rows, scrub);
      && Distinct(keys)
      && (forall key :: key in keys <==> exists row | row in rows :: KeyOf(row, scrub) == key)
      && (forall key | key in keys :: Members(rows, key, scrub) != [])
      && multiset(groups) == multiset(Summaries(keys, rows, scrub))
      && Counted(groups) == |rows|
      && (forall i, j | 0 <= i < j < |groups| ::
            || groups[i].severity > groups[j].severity
            || (groups[i].severity == groups[j].severity && groups[i].count > groups[j].count)
            || (groups[i].severity == groups[j].severity && groups[i].count == groups[j].count
                && Before(Summaries(keys, rows, scrub), groups[i], groups[j])))
  {
    KeysCover(rows, scrub);
    var keys := Keys(rows, scrub);
    forall key | key in keys
      ensures exists row | row in rows :: KeyOf(row, scrub) == key
    {
      var p := (row: Row) => KeyOf(row, scrub) == key;
      FilterIn(rows, p);
      assert Members(rows, key, scrub)[0] in Filter(rows, p);
    }
    hide KeyOf, Members, Summaries, Ranked, StableSort, Keys;
    SortPermutes(Summaries(keys, rows, scrub), Ranked);
    SortStable(Summaries(keys, rows, scrub), Ranked);
    StableRank(Summaries(keys, rows, scrub), Grouped(rows, scrub));
    CountedSort(Summaries(keys, rows, scrub));
    CountedIsCovered(keys, rows, scrub);
    CoversAll(keys, rows, scrub);
  }

  // ----- From rows to the body -----

  /** Every group is the summary of the rows of one key. */
  lemma GroupIsSummary(rows: seq<Row>, scrub: string -> string, g: Group) returns (key: Key)
    requires g in Grouped(rows, scrub)
    ensures key in Keys(rows, scrub) && Members(rows, key, scrub) != []
    ensures g == Summary(key, Members(rows, key, scrub))
  {
    KeysCover(rows, scrub);
    hide Keys, Members, Summary, StableSort;
    var summaries := Summaries(Keys(rows, scrub), rows, scrub);
    SortPermutes(summaries, Ranked);
    var i :| 0 <= i < |summaries| && summaries[i] == g;
    key := Keys(rows, scrub)[i];
  }

  /** What a group says of its rows, the rows of one item type, rank and message: these two and the label,
      how many they are, their first and last time, and one of their longest traces. */
  lemma GroupSays(rows: seq<Row>, scrub: string -> string, g: Group) returns (key: Key)
    requires g in Grouped(rows, scrub)
    ensures var members := Filter(rows, (row: Row) =>
                row.itemType == key.itemType && Severity(row) == g.severity && Normalize(row.message, scrub) == g.message);
      && members != [] && g.count == |members|
      && (forall row | row in members ::
            && g.kind == Label(row) && |row.details| <= |g.details|
            && !Stamps.Before(row.timestamp, g.first) && !Stamps.Before(g.last, row.timestamp))
      && (exists row | row in members :: row.timestamp == g.first)
      && (exists row | row in members :: row.timestamp == g.last)
      && (exists row | row in members :: row.details == g.details)
  {
    key := GroupIsSummary(rows, scrub, g);
    var members := Members(rows, key, scrub);
    var p := (row: Row) => row.itemType == key.itemType && Severity(row) == g.severity && Normalize(row.message, scrub) == g.message;
    var q := (row: Row) => KeyOf(row, scrub) == key;
    SameFilter(rows, p, q);
    FilterIn(rows, q);
    SummaryBounds(members);
    forall row | row in members
      ensures g.kind == Label(row)
    {
      assert members[0] in members;
      KeyDecidesLabel(members[0], row, scrub);
    }
    hide Stamps.Before, Label, Normalize, Severity, Keys, Filter, Earliest, Latest, Longest;
  }

  lemma {:induction false} SameFilter(rows: seq<Row>, p: Row -> bool, q: Row -> bool)
    requires forall row :: p(row) == q(row)
    ensures Filter(rows, p) == Filter(rows, q)
  {
    if rows != [] { SameFilter(rows[1..], p, q); }
  }

  /** Timestamps without line breaks, and at most 64 characters long. */
  ghost predicate PlainTimes(rows: seq<Row>) {
    forall row | row in rows :: Fences.OneLine(row.timestamp) && |row.timestamp| <= 64
  }

  lemma GroupsArePlain(rows: seq<Row>, scrub: string -> string, g: Group)
    requires |rows| < 10_000_000_000_000_000_000 && PlainTimes(rows)
    requires g in Grouped(rows, scrub)
    ensures Modest(g) && Fences.TidyGroup(g)
  {
    var key := GroupIsSummary(rows, scrub, g);
    var members := Members(rows, key, scrub);
    FilterIn(rows, (row: Row) => KeyOf(row, scrub) == key);
    var row := members[0];
    assert row in members && KeyOf(row, scrub) == key;
    SummaryBounds(members);
    hide Filter, Earliest, Latest, Longest, Grouped, Label;
    KeyDecidesLabel(row, row, scrub);
    WordsAreWords(scrub(row.message));
    UnwordsOneLine(Words(scrub(row.message)));
  }

  lemma GroupsAtMost(rows: seq<Row>, scrub: string -> string)
    ensures |Grouped(rows, scrub)| <= |rows|
  {
    KeysAtMost(rows, scrub);
    KeysCover(rows, scrub);
    hide Keys, StableSort, Members;
    SortPermutes(Summaries(Keys(rows, scrub), rows, scrub), Ranked);
  }

  lemma {:induction false} KeysAtMost(rows: seq<Row>, scrub: string -> string)
    ensures |Keys(rows, scrub)| <= |rows|
  {
    hide KeyOf;
    if rows != [] { KeysAtMost(rows[..|rows| - 1], scrub); }
  }

  /** The digest of any day fits into an issue, shows each of the first twenty groups, and reads back
      as exactly their traces, each whole or cut at one cap. */
  lemma DigestReadsBack(rows: seq<Row>, scrub: string -> string, missing: bool) returns (cap: Option<nat>)
    requires |rows| < 10_000_000_000_000_000_000 && PlainTimes(rows)
    ensures var groups := Grouped(rows, scrub);
      var body := Join(RenderParts(groups, missing));
      && RenderParts(groups, missing) == Pass(groups, missing, cap)
      && |body| <= 65536
      && Fences.Read(body, Fences.Outside) == Fences.Details(groups[..if |groups| <= 20 then |groups| else 20], cap)
  {
    hide Grouped, Modest, Fences.TidyGroup, RenderParts, Pass, Join, Shown, Fences.Read, Fences.Details;
    var groups := Grouped(rows, scrub);
    forall g | g in groups
      ensures Modest(g) && Fences.TidyGroup(g)
    {
      GroupsArePlain(rows, scrub, g);
    }
    GroupsAtMost(rows, scrub);
    NothingDropped(groups, missing);
    cap :| RenderParts(groups, missing) == Pass(groups, missing, cap);
    Fences.PassReads(groups, missing, cap);
    BodyFits(groups, missing);
    PassShows(groups, missing, cap);
  }
}

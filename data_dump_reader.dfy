/** The ranking snapshot (Services/DataDumpReader.cs): a CSV file whose
    lines are cut into fields by a quote-aware comma splitter, whose rows
    of at least seven fields become basic records, and of which the first
    `count` records are kept.

    The zip archive and the stream reader are not modelled: the file is
    the sequence of its lines. The record's id is the integer the first
    field holds. */
module DataDumpReader {
  import opened Wrappers
  import opened Numerals
  import Text
  import opened Models

  // ---------------------------------------------------------------------
  // Splitting a line into fields

  /** The variables of ParseCsvFields's loop: the fields completed, the
      field being built, and whether the scan is inside quotes. */
  datatype Scan = Scan(fields: seq<string>, current: string, inQuotes: bool)

  const Begin: Scan := Scan([], "", false)

  /** The loop body for one character: a quote toggles `inQuotes` and is
      kept, a comma outside quotes ends the field, anything else is kept. */
  function Consume(st: Scan, c: char): Scan {
    if c == '"' then Scan(st.fields, st.current + [c], !st.inQuotes)
    else if c == ',' && !st.inQuotes then Scan(st.fields + [st.current], "", st.inQuotes)
    else Scan(st.fields, st.current + [c], st.inQuotes)
  }

  /** The loop run over `s` from state `st`. */
  function Feed(st: Scan, s: string): Scan
    decreases |s|
  {
    if s == [] then st else Consume(Feed(st, s[..|s| - 1]), s[|s| - 1])
  }

  /** ParseCsvFields on values: the completed fields and the last one. */
  function CsvFields(line: string): (r: seq<string>)
    ensures |r| >= 1
    ensures line == [] ==> r == [""]
  {
    var st := Feed(Begin, line);
    st.fields + [st.current]
  }

  /** ParseCsvFields: the `for` loop over the characters of the line. */
  method ParseCsvFields(line: string) returns (fields: seq<string>)
    ensures fields == CsvFields(line)
  {
    fields := [];
    var currentField := "";
    var inQuotes := false;
    for i := 0 to |line|
      invariant Feed(Begin, line[..i]) == Scan(fields, currentField, inQuotes)
    {
      var c := line[i];
      assert line[..i + 1][..i] == line[..i];
      if c == '"' {
        inQuotes := !inQuotes;
        currentField := currentField + [c];
      } else if c == ',' && !inQuotes {
        fields := fields + [currentField];
        currentField := "";
      } else {
        currentField := currentField + [c];
      }
    }
    assert line[..|line|] == line;
    fields := fields + [currentField];
  }

  lemma {:induction false} FeedAppend(st: Scan, a: string, b: string)
    ensures Feed(st, a + b) == Feed(Feed(st, a), b)
    decreases |b|
  {
    if b == [] {
      assert a + b == a;
    } else {
      assert (a + b)[..|a + b| - 1] == a + b[..|b| - 1];
      assert (a + b)[|a + b| - 1] == b[|b| - 1];
      FeedAppend(st, a, b[..|b| - 1]);
    }
  }

  /** The number of quote characters in `s`. */
  function Quotes(s: string): nat
    decreases |s|
  {
    if s == [] then 0 else Quotes(s[..|s| - 1]) + (if s[|s| - 1] == '"' then 1 else 0)
  }

  /** The number of commas in `s` preceded by an even number of quotes. */
  function Separators(s: string): nat
    decreases |s|
  {
    if s == [] then 0
    else
      var init := s[..|s| - 1];
      Separators(init) + (if s[|s| - 1] == ',' && Quotes(init) % 2 == 0 then 1 else 0)
  }

  /** The scan is inside quotes exactly after an odd number of quotes, and
      it has completed one field per comma seen outside quotes. */
  lemma {:induction false} ScanCounts(s: string)
    ensures Feed(Begin, s).inQuotes <==> Quotes(s) % 2 == 1
    ensures |Feed(Begin, s).fields| == Separators(s)
    decreases |s|
  {
    if s != [] {
      ScanCounts(s[..|s| - 1]);
    }
  }

  /** A line has one field more than it has commas outside quotes. */
  lemma {:induction false} FieldCount(line: string)
    ensures |CsvFields(line)| == 1 + Separators(line)
  {
    ScanCounts(line);
  }

  /** The text a scan state stands for: its fields joined with commas. */
  function Joined(st: Scan): string {
    Text.Join(st.fields + [st.current], ",")
  }

  lemma JoinSingle(x: string)
    ensures Text.Join([x], ",") == x
  {
  }

  /** Each character the scan consumes is kept in what it stands for. */
  lemma {:induction false} ConsumeJoined(st: Scan, c: char)
    ensures Joined(Consume(st, c)) == Joined(st) + [c]
  {
    var parts := st.fields + [st.current];
    if c == ',' && !st.inQuotes {
      assert Consume(st, c).fields + [Consume(st, c).current] == parts + [""];
      Text.JoinSnoc(parts, "", ",");
    } else {
      var next := st.current + [c];
      assert Consume(st, c).fields + [Consume(st, c).current] == st.fields + [next];
      if st.fields == [] {
        JoinSingle(next);
        JoinSingle(st.current);
        assert parts == [st.current];
        assert st.fields + [next] == [next];
      } else {
        Text.JoinSnoc(st.fields, st.current, ",");
        Text.JoinSnoc(st.fields, next, ",");
      }
    }
  }

  lemma {:induction false} JoinScan(s: string)
    ensures Joined(Feed(Begin, s)) == s
    decreases |s|
  {
    if s == [] {
      JoinSingle("");
      assert Begin.fields + [Begin.current] == [""];
    } else {
      var init := s[..|s| - 1];
      JoinScan(init);
      ConsumeJoined(Feed(Begin, init), s[|s| - 1]);
      assert s == init + [s[|s| - 1]];
    }
  }

  /** Joined again with commas, the fields are the line: nothing is lost,
      quotes included. */
  lemma {:induction false} JoinFields(line: string)
    ensures Text.Join(CsvFields(line), ",") == line
  {
    JoinScan(line);
  }

  /** A field the splitter reads back whole: an even number of quotes, and
      every comma inside quotes. */
  predicate IsField(p: string) {
    Quotes(p) % 2 == 0 && Separators(p) == 0
  }

  lemma {:induction false} FeedOneField(fields: seq<string>, p: string)
    requires Separators(p) == 0
    ensures Feed(Scan(fields, "", false), p) == Scan(fields, p, Quotes(p) % 2 == 1)
    decreases |p|
  {
    if p != [] {
      var init := p[..|p| - 1];
      var c := p[|p| - 1];
      assert Separators(init) == 0;
      FeedOneField(fields, init);
      var st := Feed(Scan(fields, "", false), init);
      assert st == Scan(fields, init, Quotes(init) % 2 == 1);
      assert Feed(Scan(fields, "", false), p) == Consume(st, c);
      assert init + [c] == p;
      if c == '"' {
        assert Quotes(p) == Quotes(init) + 1;
      } else {
        assert Quotes(p) == Quotes(init);
        assert c == ',' ==> st.inQuotes;
      }
    }
  }

  lemma {:induction false} FeedComma(st: Scan)
    requires !st.inQuotes
    ensures Feed(st, ",") == Scan(st.fields + [st.current], "", false)
  {
    assert ","[..0] == [];
  }

  /** The scan over fields joined with commas ends outside quotes, with the
      last field open and the others completed. */
  lemma {:induction false} FeedOfJoin(parts: seq<string>)
    requires |parts| >= 1
    requires forall k :: 0 <= k < |parts| ==> IsField(parts[k])
    ensures Feed(Begin, Text.Join(parts, ",")) == Scan(parts[..|parts| - 1], parts[|parts| - 1], false)
    decreases |parts|
  {
    var n := |parts|;
    if n == 1 {
      FeedOneField([], parts[0]);
      assert parts[..0] == [];
    } else {
      var init := parts[..n - 1];
      var last := parts[n - 1];
      FeedOfJoin(init);
      Text.JoinSnoc(init, last, ",");
      assert parts == init + [last];
      var j := Text.Join(init, ",");
      var st := Feed(Begin, j);
      assert st == Scan(init[..n - 2], init[n - 2], false);
      assert init[..n - 2] + [init[n - 2]] == init;
      FeedComma(st);
      FeedAppend(Begin, j, ",");
      assert Feed(Begin, j + ",") == Scan(init, "", false);
      FeedOneField(init, last);
      FeedAppend(Begin, j + ",", last);
    }
  }

  /** Splitting fields joined with commas gives the fields back. */
  lemma {:induction false} FieldsOfJoin(parts: seq<string>)
    requires |parts| >= 1
    requires forall k :: 0 <= k < |parts| ==> IsField(parts[k])
    ensures CsvFields(Text.Join(parts, ",")) == parts
  {
    var j := Text.Join(parts, ",");
    FeedOfJoin(parts);
    var st := Feed(Begin, j);
    assert CsvFields(j) == st.fields + [st.current];
    assert st.fields + [st.current] == parts[..|parts| - 1] + [parts[|parts| - 1]];
    assert parts[..|parts| - 1] + [parts[|parts| - 1]] == parts;
  }

  // ---------------------------------------------------------------------
  // Reading one row

  predicate IsQuote(c: char) {
    c == '"'
  }

  /** An optional integer field: empty means absent, anything else must
      parse (`None` here stands for the exception). */
  function OptionalInt(s: string): Option<Option<int>> {
    if s == [] then Some(None)
    else
      match ParseInt(s)
      case None => None
      case Some(v) => Some(Some(v))
  }

  /** An optional double field, the same way. */
  function OptionalDouble(s: string): Option<Option<Double>> {
    if s == [] then Some(None)
    else
      match ParseDouble(s)
      case None => None
      case Some(v) => Some(Some(v))
  }

  /** The `try` block of ParseCsvLine: the record the first five fields
      describe, or `None` where a conversion throws. */
  function FromFields(fields: seq<string>): Option<BoardGameBasic>
    requires |fields| >= 7
  {
    var id :- ParseInt(Text.Trim(fields[0], Text.IsWhiteSpace));
    var year :- ParseInt(fields[2]);
    var rank :- OptionalInt(fields[3]);
    var bayes :- OptionalDouble(fields[4]);
    Some(BoardGameBasic(id, Text.Trim(fields[1], IsQuote), year, rank, bayes))
  }

  /** ParseCsvLine: `None` for a row of fewer than seven fields and for a
      row whose conversions throw. */
  function ParseCsvLine(line: string): Option<BoardGameBasic> {
    var fields := CsvFields(line);
    if |fields| < 7 then None else FromFields(fields)
  }

  /** A line with fewer than six commas outside quotes has fewer than seven
      fields and is no row; any other line is read from its fields. */
  lemma ParseCsvLineNeedsSevenFields(line: string)
    ensures Separators(line) < 6 ==> ParseCsvLine(line).None?
    ensures Separators(line) >= 6 ==> |CsvFields(line)| >= 7 && ParseCsvLine(line) == FromFields(CsvFields(line))
  {
    FieldCount(line);
  }

  /** A row is read exactly when its id and year parse and its rank and
      Bayes average are empty or parse. */
  lemma {:induction false} FromFieldsSucceeds(fields: seq<string>)
    requires |fields| >= 7
    ensures FromFields(fields).Some? <==>
      ParseInt(Text.Trim(fields[0], Text.IsWhiteSpace)).Some? && ParseInt(fields[2]).Some? &&
      (fields[3] == [] || ParseInt(fields[3]).Some?) && (fields[4] == [] || ParseDouble(fields[4]).Some?)
  {
  }

  /** What a record read from a row is made of: the trimmed first field's
      value as id, the name stripped of its quotes, the year, a rank and a
      Bayes average that are absent exactly when their fields are empty. */
  lemma {:induction false} FromFieldsValues(fields: seq<string>)
    requires |fields| >= 7 && FromFields(fields).Some?
    ensures var g := FromFields(fields).value;
      Some(g.id) == ParseInt(Text.Trim(fields[0], Text.IsWhiteSpace)) &&
      g.name == Text.Trim(fields[1], IsQuote) &&
      (g.name != [] ==> g.name[0] != '"' && g.name[|g.name| - 1] != '"') &&
      Some(g.yearPublished) == ParseInt(fields[2]) &&
      (g.rank.None? <==> fields[3] == []) &&
      (g.rank.Some? ==> g.rank == ParseInt(fields[3])) &&
      (g.bayesAverage.None? <==> fields[4] == []) &&
      (g.bayesAverage.Some? ==> g.bayesAverage == ParseDouble(fields[4]))
  {
    var id := ParseInt(Text.Trim(fields[0], Text.IsWhiteSpace));
    var year := ParseInt(fields[2]);
    var rank := OptionalInt(fields[3]);
    var bayes := OptionalDouble(fields[4]);
    var name := Text.Trim(fields[1], IsQuote);
    assert id.Some? && year.Some? && rank.Some? && bayes.Some?;
    assert FromFields(fields) == Some(BoardGameBasic(id.value, name, year.value, rank.value, bayes.value));
    OptionalIntValue(fields[3]);
    OptionalDoubleValue(fields[4]);
    assert name != [] ==> !IsQuote(name[0]) && !IsQuote(name[|name| - 1]);
  }

  lemma OptionalIntValue(s: string)
    requires OptionalInt(s).Some?
    ensures OptionalInt(s).value.None? <==> s == []
    ensures OptionalInt(s).value.Some? ==> OptionalInt(s).value == ParseInt(s)
  {
  }

  lemma OptionalDoubleValue(s: string)
    requires OptionalDouble(s).Some?
    ensures OptionalDouble(s).value.None? <==> s == []
    ensures OptionalDouble(s).value.Some? ==> OptionalDouble(s).value == ParseDouble(s)
  {
  }

  /** A blank line never holds seven fields, so skipping blank lines
      changes nothing. */
  lemma {:induction false} BlankLineIsNoRow(line: string)
    requires Text.IsBlank(line)
    ensures ParseCsvLine(line).None?
  {
    assert forall k :: 0 <= k < |line| ==> line[k] != ',';
    NoCommaNoSeparator(line);
    FieldCount(line);
  }

  lemma {:induction false} NoCommaNoSeparator(s: string)
    requires forall k :: 0 <= k < |s| ==> s[k] != ','
    ensures Separators(s) == 0
    decreases |s|
  {
    if s != [] {
      NoCommaNoSeparator(s[..|s| - 1]);
    }
  }

  lemma {:induction false} NoQuoteNoQuotes(s: string)
    requires forall k :: 0 <= k < |s| ==> s[k] != '"'
    ensures Quotes(s) == 0
    decreases |s|
  {
    if s != [] {
      NoQuoteNoQuotes(s[..|s| - 1]);
    }
  }

  /** Text without quotes or commas is a field. */
  lemma {:induction false} PlainField(s: string)
    requires forall k :: 0 <= k < |s| ==> s[k] != '"' && s[k] != ','
    ensures IsField(s)
  {
    NoCommaNoSeparator(s);
    NoQuoteNoQuotes(s);
  }

  lemma {:induction false} QuotedPrefix(name: string, i: nat)
    requires forall k :: 0 <= k < |name| ==> name[k] != '"'
    requires i <= |name|
    ensures Quotes("\"" + name[..i]) == 1 && Separators("\"" + name[..i]) == 0
    decreases i
  {
    var s := "\"" + name[..i];
    if i == 0 {
      assert s == "\"" && s[..0] == [];
    } else {
      QuotedPrefix(name, i - 1);
      assert s[..|s| - 1] == "\"" + name[..i - 1];
    }
  }

  /** A quoted name without quotes is one field, commas and all. */
  lemma {:induction false} QuotedField(name: string)
    requires forall k :: 0 <= k < |name| ==> name[k] != '"'
    ensures IsField("\"" + name + "\"")
  {
    QuotedPrefix(name, |name|);
    var s := "\"" + name + "\"";
    assert s[..|s| - 1] == "\"" + name[..|name|];
  }

  /** The text of an optional integer field. */
  function IntText(x: Option<int>): string {
    if x.None? then "" else IntToString(x.value)
  }

  /** The text of an optional double field. */
  function DoubleText(x: Option<Double>): string {
    if x.None? then "" else x.value.literal
  }

  /** The row the ranking snapshot holds for a record: id, quoted name,
      year, rank, Bayes average, then further columns. */
  function CsvRow(g: BoardGameBasic, more: seq<string>): string {
    Text.Join(RowParts(g, more), ",")
  }

  /** A numeral holds neither quotes, commas nor white space at its ends. */
  lemma {:induction false} NumeralText(x: int)
    ensures forall k :: 0 <= k < |IntToString(x)| ==> IntToString(x)[k] != '"' && IntToString(x)[k] != ','
    ensures !Text.IsWhiteSpace(IntToString(x)[0]) && !Text.IsWhiteSpace(IntToString(x)[|IntToString(x)| - 1])
  {
    var s := IntToString(x);
    if x < 0 {
      forall k | 1 <= k < |s|
        ensures IsDigit(s[k])
      {
        assert s[1..][k - 1] == s[k];
      }
    }
  }

  /** The fields of a snapshot row. */
  function RowParts(g: BoardGameBasic, more: seq<string>): seq<string> {
    [IntToString(g.id), "\"" + g.name + "\"", IntToString(g.yearPublished),
     IntText(g.rank), DoubleText(g.bayesAverage)] + more
  }

  /** The first five fields of a row are fields the splitter keeps whole. */
  lemma {:induction false} RowPartsAreFields(g: BoardGameBasic, more: seq<string>)
    requires g.bayesAverage.Some? ==> AllDigits(g.bayesAverage.value.literal)
    requires forall k :: 0 <= k < |g.name| ==> g.name[k] != '"'
    requires forall k :: 0 <= k < |more| ==> IsField(more[k])
    ensures forall k :: 0 <= k < |RowParts(g, more)| ==> IsField(RowParts(g, more)[k])
  {
    var parts := RowParts(g, more);
    NumeralText(g.id);
    PlainField(IntToString(g.id));
    QuotedField(g.name);
    NumeralText(g.yearPublished);
    PlainField(IntToString(g.yearPublished));
    if g.rank.Some? {
      NumeralText(g.rank.value);
    }
    PlainField(IntText(g.rank));
    var d := DoubleText(g.bayesAverage);
    assert forall k :: 0 <= k < |d| ==> d[k] != '"' && d[k] != ',' by {
      if g.bayesAverage.Some? {
        assert forall k :: 0 <= k < |d| ==> IsDigit(d[k]);
      }
    }
    PlainField(d);
    forall k | 0 <= k < |parts|
      ensures IsField(parts[k])
    {
      if k >= 5 {
        assert parts[k] == more[k - 5];
      }
    }
  }

  /** The converse of FromFieldsValues: fields that convert to the parts
      of a record give that record. */
  lemma {:induction false} FromFieldsOf(fields: seq<string>, g: BoardGameBasic)
    requires |fields| >= 7
    requires ParseInt(Text.Trim(fields[0], Text.IsWhiteSpace)) == Some(g.id)
    requires Text.Trim(fields[1], IsQuote) == g.name
    requires ParseInt(fields[2]) == Some(g.yearPublished)
    requires OptionalInt(fields[3]) == Some(g.rank)
    requires OptionalDouble(fields[4]) == Some(g.bayesAverage)
    ensures FromFields(fields) == Some(g)
  {
  }

  lemma {:induction false} IdText(x: int)
    requires IsInt32(x)
    ensures ParseInt(Text.Trim(IntToString(x), Text.IsWhiteSpace)) == Some(x)
  {
    NumeralText(x);
    Text.TrimKeeps(IntToString(x), Text.IsWhiteSpace);
    ParseIntOfIntToString(x);
  }

  lemma {:induction false} NameText(name: string)
    requires forall k :: 0 <= k < |name| ==> name[k] != '"'
    ensures Text.Trim("\"" + name + "\"", IsQuote) == name
  {
    if name != [] {
      assert name[0] != '"' && name[|name| - 1] != '"';
    }
    Text.TrimWrapped(name, '"', IsQuote);
    assert "\"" + name + "\"" == ['"'] + name + ['"'];
  }

  lemma {:induction false} RankText(x: Option<int>)
    requires x.Some? ==> IsInt32(x.value)
    ensures OptionalInt(IntText(x)) == Some(x)
  {
    if x.Some? {
      ParseIntOfIntToString(x.value);
    }
  }

  lemma {:induction false} AverageText(x: Option<Double>)
    requires x.Some? ==> x.value.literal != [] && AllDigits(x.value.literal)
    ensures OptionalDouble(DoubleText(x)) == Some(x)
  {
    if x.Some? {
      ParseDoubleOfDigits(x.value.literal);
    }
  }

  /** The first five fields of a row convert back to the record. */
  lemma {:induction false} FromRowParts(g: BoardGameBasic, more: seq<string>)
    requires IsInt32(g.id) && IsInt32(g.yearPublished)
    requires g.rank.Some? ==> IsInt32(g.rank.value)
    requires g.bayesAverage.Some? ==> g.bayesAverage.value.literal != [] && AllDigits(g.bayesAverage.value.literal)
    requires forall k :: 0 <= k < |g.name| ==> g.name[k] != '"'
    requires |more| >= 2
    ensures FromFields(RowParts(g, more)) == Some(g)
  {
    var parts := RowParts(g, more);
    assert parts[0] == IntToString(g.id) && parts[1] == "\"" + g.name + "\"";
    assert parts[2] == IntToString(g.yearPublished) && parts[3] == IntText(g.rank);
    assert parts[4] == DoubleText(g.bayesAverage) && |parts| >= 7;
    IdText(g.id);
    NameText(g.name);
    ParseIntOfIntToString(g.yearPublished);
    RankText(g.rank);
    AverageText(g.bayesAverage);
    FromFieldsOf(parts, g);
  }

  /** Every record a snapshot row can describe is read back from it: ids,
      years and ranks within 32 bits, a name without quotes, a Bayes average
      written as digits, and at least two more columns that are fields. */
  lemma {:induction false} ParseCsvLineOfRow(g: BoardGameBasic, more: seq<string>)
    requires IsInt32(g.id) && IsInt32(g.yearPublished)
    requires g.rank.Some? ==> IsInt32(g.rank.value)
    requires g.bayesAverage.Some? ==> g.bayesAverage.value.literal != [] && AllDigits(g.bayesAverage.value.literal)
    requires forall k :: 0 <= k < |g.name| ==> g.name[k] != '"'
    requires |more| >= 2 && forall k :: 0 <= k < |more| ==> IsField(more[k])
    ensures ParseCsvLine(CsvRow(g, more)) == Some(g)
  {
    RowPartsAreFields(g, more);
    FieldsOfJoin(RowParts(g, more));
    FromRowParts(g, more);
  }

  // ---------------------------------------------------------------------
  // Selecting the rows

  /** What the loop body keeps of one line: nothing for a blank line or a
      line that does not parse, otherwise its record. */
  function Row(line: string): (r: seq<BoardGameBasic>)
    ensures |r| <= 1
    ensures r != [] ==> ParseCsvLine(line) == Some(r[0])
  {
    if Text.IsBlank(line) then []
    else match ParseCsvLine(line) case None => [] case Some(g) => [g]
  }

  /** What a loop that appends `keep(line)` for each line has collected
      after `lines`. */
  function Kept<T>(keep: string -> seq<T>, lines: seq<string>): seq<T>
    decreases |lines|
  {
    if lines == [] then [] else Kept(keep, lines[..|lines| - 1]) + keep(lines[|lines| - 1])
  }

  /** The records of the non-blank lines that parse, in file order. */
  function Rows(lines: seq<string>): seq<BoardGameBasic> {
    Kept(Row, lines)
  }

  /** Skipping blank lines is redundant: a line is kept exactly when it
      parses. */
  lemma {:induction false} RowIsParse(line: string)
    ensures Row(line) == match ParseCsvLine(line) case None => [] case Some(g) => [g]
  {
    if Text.IsBlank(line) {
      BlankLineIsNoRow(line);
    }
  }

  lemma {:induction false} KeptAppend<T>(keep: string -> seq<T>, a: seq<string>, b: seq<string>)
    ensures Kept(keep, a + b) == Kept(keep, a) + Kept(keep, b)
    decreases |b|
  {
    if b == [] {
      assert a + b == a;
    } else {
      assert (a + b)[..|a + b| - 1] == a + b[..|b| - 1];
      assert (a + b)[|a + b| - 1] == b[|b| - 1];
      KeptAppend(keep, a, b[..|b| - 1]);
    }
  }

  /** When each line gives at most one element, every element collected
      is all that one of the lines gave. */
  lemma {:induction false} KeptFrom<T>(keep: string -> seq<T>, lines: seq<string>, x: T)
    requires forall line :: |keep(line)| <= 1
    requires x in Kept(keep, lines)
    ensures exists k :: 0 <= k < |lines| && keep(lines[k]) == [x]
    decreases |lines|
  {
    var n := |lines| - 1;
    assert Kept(keep, lines) == Kept(keep, lines[..n]) + keep(lines[n]);
    if x in Kept(keep, lines[..n]) {
      KeptFrom(keep, lines[..n], x);
      var k :| 0 <= k < n && keep(lines[..n][k]) == [x];
      assert lines[..n][k] == lines[k];
    } else {
      assert |keep(lines[n])| == 1 && keep(lines[n])[0] == x;
    }
  }

  /** Every record read is the parse of one of the lines. */
  lemma {:induction false} RowsFromLines(lines: seq<string>)
    ensures forall g :: g in Rows(lines) ==> exists k :: 0 <= k < |lines| && ParseCsvLine(lines[k]) == Some(g)
  {
    forall g | g in Rows(lines)
      ensures exists k :: 0 <= k < |lines| && ParseCsvLine(lines[k]) == Some(g)
    {
      KeptFrom(Row, lines, g);
      var k :| 0 <= k < |lines| && Row(lines[k]) == [g];
      assert Row(lines[k]) != [];
    }
  }

  /** The lines after the header. */
  function Body(lines: seq<string>): seq<string> {
    if lines == [] then [] else lines[1..]
  }

  /** The first `count` elements of `s`, all of them when there are fewer,
      none when `count` is not positive. */
  function Take<T>(s: seq<T>, count: int): (r: seq<T>)
    ensures |r| <= if count > 0 then count else 0
    ensures r <= s
    ensures 0 <= count <= |s| ==> |r| == count
    ensures count >= |s| ==> r == s
  {
    if count <= 0 then [] else if count >= |s| then s else s[..count]
  }

  /** A prefix no longer than `count` that is all of `s` or `count` long is
      the first `count` elements. */
  lemma TakeOfPrefix<T>(s: seq<T>, p: seq<T>, count: int)
    requires p <= s
    requires |p| <= if count > 0 then count else 0
    requires p == s || |p| >= count
    ensures p == Take(s, count)
  {
  }

  /** ReadFromDataDump on the lines of the CSV file: the first `count`
      records of the rows after the header. */
  function ReadGames(lines: seq<string>, count: int): seq<BoardGameBasic> {
    Take(Rows(Body(lines)), count)
  }

  lemma {:induction false} KeptStep<T>(keep: string -> seq<T>, lines: seq<string>, i: nat)
    requires i < |lines|
    ensures Kept(keep, lines[..i + 1]) == Kept(keep, lines[..i]) + keep(lines[i])
  {
    assert lines[..i + 1][..i] == lines[..i];
  }

  /** Where the loop may stop: at the end of the lines, or once `count`
      elements are collected. */
  lemma {:induction false} KeptUntil<T>(keep: string -> seq<T>, lines: seq<string>, count: int, i: nat)
    requires i <= |lines|
    requires |Kept(keep, lines[..i])| <= if count > 0 then count else 0
    requires i == |lines| || |Kept(keep, lines[..i])| >= count
    ensures Kept(keep, lines[..i]) == Take(Kept(keep, lines), count)
  {
    KeptAppend(keep, lines[..i], lines[i..]);
    assert lines[..i] + lines[i..] == lines;
    if i == |lines| {
      assert lines[..i] == lines;
    }
    TakeOfPrefix(Kept(keep, lines), Kept(keep, lines[..i]), count);
  }

  /** ReadFromDataDump: the `while` loop over the lines after the header,
      until the file ends or `count` records are read. */
  method ReadFromDataDump(lines: seq<string>, count: int) returns (games: seq<BoardGameBasic>)
    ensures games == ReadGames(lines, count)
  {
    var body := Body(lines);
    games := [];
    var i := 0;
    while i < |body| && |games| < count
      invariant 0 <= i <= |body|
      invariant games == Kept(Row, body[..i])
      invariant |games| <= if count > 0 then count else 0
    {
      var line := body[i];
      KeptStep(Row, body, i);
      i := i + 1;
      if !Text.IsBlank(line) {
        var game := ParseCsvLine(line);
        if game.Some? {
          games := games + [game.value];
        }
      }
    }
    KeptUntil(Row, body, count, i);
  }
}

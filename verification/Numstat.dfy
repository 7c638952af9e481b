/**
 The summary of `git diff --numstat` output that a finished batch branch gets:
 one row per changed file, line counts added up, binary files counted with no
 lines. Counters are u64 and wrap, as in a release build.
 */
module Numstat {
  import opened Common
  import opened Text

  const U64: nat := 0x1_0000_0000_0000_0000

  datatype Summary = Summary(filesChanged: nat, additions: nat, deletions: nat)

  // ---- Lines and fields --------------------------------------------------

  function FindChar(s: string, c: char): (k: Option<nat>)
    ensures k.Some? ==> k.value < |s| && s[k.value] == c && c !in s[..k.value]
    ensures k.None? <==> c !in s
  {
    if s == "" then None
    else if s[0] == c then Some(0)
    else
      var rest := FindChar(s[1..], c);
      if rest.None? then None
      else
        assert s[..rest.value + 1] == [s[0]] + s[1..][..rest.value];
        Some(rest.value + 1)
  }

  function StripCr(line: string): string {
    if line != "" && line[|line| - 1] == '\r' then line[..|line| - 1] else line
  }

  /** `str::lines`: split after each newline, dropping `\n` or `\r\n`; a last line without one is kept as it is. */
  function Lines(t: string): seq<string> {
    if t == "" then []
    else
      var k := FindChar(t, '\n');
      if k.None? then [t] else [StripCr(t[..k.value])] + Lines(t[k.value + 1..])
  }

  /** `parse::<u64>`: an optional plus sign, then decimal digits, and the value must fit. */
  function ParseU64(s: string): (r: Option<nat>)
    ensures r.Some? ==> r.value < U64
  {
    var digits := if s != "" && s[0] == '+' then s[1..] else s;
    if digits == "" || !AllDigits(digits) || DigitsValue(digits) >= U64 then None
    else Some(DigitsValue(digits))
  }

  function CountOf(field: Option<string>): (n: nat)
    ensures n < U64
  {
    if field.None? || ParseU64(field.value).None? then 0 else ParseU64(field.value).value
  }

  /** `splitn(3, '\t')`, first and second piece. */
  function FirstField(line: string): string {
    var k := FindChar(line, '\t');
    if k.None? then line else line[..k.value]
  }

  function SecondField(line: string): Option<string> {
    var k := FindChar(line, '\t');
    if k.None? then None else Some(FirstField(line[k.value + 1..]))
  }

  function Added(line: string): nat {
    CountOf(Some(FirstField(line)))
  }

  function Deleted(line: string): nat {
    CountOf(SecondField(line))
  }

  // ---- The summary -------------------------------------------------------

  const NOTHING := Summary(0, 0, 0)

  function Sum(a: Summary, b: Summary): Summary {
    Summary(a.filesChanged + b.filesChanged, a.additions + b.additions, a.deletions + b.deletions)
  }

  /** What one line adds: nothing if blank, else one file and its two counts. */
  function LineCounts(line: string): (r: Summary)
    ensures r.filesChanged < U64 && r.additions < U64 && r.deletions < U64
  {
    if IsBlank(line) then NOTHING else Summary(1, Added(line), Deleted(line))
  }

  /** The true totals, without wrap-around. */
  function Total(counts: seq<Summary>): Summary {
    if counts == [] then NOTHING else Sum(counts[0], Total(counts[1..]))
  }

  function CountsOf(lines: seq<string>): (r: seq<Summary>)
    ensures |r| == |lines|
    ensures forall i :: 0 <= i < |r| ==> r[i] == LineCounts(lines[i])
  {
    seq(|lines|, i requires 0 <= i < |lines| => LineCounts(lines[i]))
  }

  lemma CountsConcat(a: seq<string>, b: seq<string>)
    ensures CountsOf(a + b) == CountsOf(a) + CountsOf(b)
  {
  }

  /** What a u64 counter holds for a true total: the total modulo 2^64 (`WrapIsMod`). */
  function Wrap(x: nat): nat {
    if x < U64 then x else Wrap(x - U64)
  }

  lemma {:induction false} WrapIsMod(x: nat)
    ensures Wrap(x) == x % U64
  {
    if x >= U64 { WrapIsMod(x - U64); }
  }

  lemma {:induction false} WrapAdds(x: nat, y: nat)
    ensures Wrap(Wrap(x) + Wrap(y)) == Wrap(x + y)
    decreases x + y
  {
    if x >= U64 {
      WrapAdds(x - U64, y);
    } else if y >= U64 {
      WrapAdds(x, y - U64);
    }
  }

  function Wrapped(totals: Summary): Summary {
    Summary(Wrap(totals.filesChanged), Wrap(totals.additions), Wrap(totals.deletions))
  }

  /** Wrapping sums of wrapped totals are the wrapped totals. */
  lemma WrappedSum(a: Summary, b: Summary)
    ensures Wrapped(Sum(Wrapped(a), Wrapped(b))) == Wrapped(Sum(a, b))
  {
    WrapAdds(a.filesChanged, b.filesChanged);
    WrapAdds(a.additions, b.additions);
    WrapAdds(a.deletions, b.deletions);
  }

  lemma {:induction false} TotalConcat(a: seq<Summary>, b: seq<Summary>)
    ensures Total(a + b) == Sum(Total(a), Total(b))
  {
    if a == [] {
      assert a + b == b;
    } else {
      assert (a + b)[0] == a[0] && (a + b)[1..] == a[1..] + b;
      TotalConcat(a[1..], b);
      SumAssociative(a[0], Total(a[1..]), Total(b));
    }
  }

  lemma SumAssociative(a: Summary, b: Summary, c: Summary)
    ensures Sum(a, Sum(b, c)) == Sum(Sum(a, b), c)
  {
  }

  lemma SumNothing(a: Summary)
    ensures Sum(a, NOTHING) == a
  {
  }

  lemma TotalAppend(counts: seq<Summary>, one: Summary)
    ensures Total(counts + [one]) == Sum(Total(counts), one)
  {
    TotalConcat(counts, [one]);
    assert Total([]) == NOTHING && [one][1..] == [];
    SumNothing(one);
  }

  /** One more line, on wrapped counters. */
  lemma WrappedStep(counts: seq<Summary>, one: Summary)
    requires Wrapped(one) == one
    ensures Wrapped(Total(counts + [one])) == Wrapped(Sum(Wrapped(Total(counts)), one))
    ensures one == NOTHING ==> Wrapped(Total(counts + [one])) == Wrapped(Total(counts))
  {
    TotalAppend(counts, one);
    SumNothing(Total(counts));
    WrappedSum(Total(counts), one);
  }

  lemma LineFits(line: string)
    ensures Wrapped(LineCounts(line)) == LineCounts(line)
    ensures IsBlank(line) ==> LineCounts(line) == NOTHING
    ensures !IsBlank(line) ==> LineCounts(line) == Summary(1, CountOf(Some(FirstField(line))), CountOf(SecondField(line)))
  {
  }

  /** The three counter updates of one row. */
  method CountRow(before: Summary, added: nat, deleted: nat) returns (summary: Summary)
    ensures summary == Wrapped(Sum(before, Summary(1, added, deleted)))
  {
    summary := before;
    summary := summary.(filesChanged := Wrap(summary.filesChanged + 1));
    summary := summary.(additions := Wrap(summary.additions + added));
    summary := summary.(deletions := Wrap(summary.deletions + deleted));
  }

  /** `summarize_numstat`. */
  method SummarizeNumstat(output: string) returns (summary: Summary)
    ensures summary == Wrapped(Total(CountsOf(Lines(output))))
  {
    summary := NOTHING;
    var lines := Lines(output);
    ghost var counts := CountsOf(lines);
    var i := 0;
    while i < |lines|
      invariant 0 <= i <= |lines|
      invariant summary == Wrapped(Total(counts[..i]))
    {
      LineFits(lines[i]);
      WrappedStep(counts[..i], counts[i]);
      assert counts[..i + 1] == counts[..i] + [counts[i]];
      if !IsBlank(lines[i]) {
        summary := CountRow(summary, CountOf(Some(FirstField(lines[i]))), CountOf(SecondField(lines[i])));
      }
      i := i + 1;
    }
    assert counts[..i] == counts;
  }

  // ---- Printed rows ------------------------------------------------------

  /** A row as git prints it: counts, or dashes for a binary file, and a path. */
  datatype Row = Counted(added: nat, deleted: nat, path: string) | Binary(path: string)

  predicate PrintableRow(row: Row) {
    && '\n' !in row.path
    && (row.Counted? ==> row.added < U64 && row.deleted < U64)
  }

  function RowLine(row: Row): string {
    match row
    case Counted(added, deleted, path) => Decimal(added) + "\t" + Decimal(deleted) + "\t" + path
    case Binary(path) => "-\t-\t" + path
  }

  function Printed(rows: seq<Row>): string {
    if rows == [] then "" else RowLine(rows[0]) + "\n" + Printed(rows[1..])
  }

  function RowCounts(row: Row): Summary {
    match row
    case Counted(added, deleted, _) => Summary(1, added, deleted)
    case Binary(_) => Summary(1, 0, 0)
  }

  function RowsCounts(rows: seq<Row>): (r: seq<Summary>)
    ensures |r| == |rows|
    ensures forall i :: 0 <= i < |r| ==> r[i] == RowCounts(rows[i])
  {
    seq(|rows|, i requires 0 <= i < |rows| => RowCounts(rows[i]))
  }

  lemma {:induction false} TotalCountsFiles(counts: seq<Summary>)
    requires forall i :: 0 <= i < |counts| ==> counts[i].filesChanged == 1
    ensures Total(counts).filesChanged == |counts|
  {
    if counts != [] { TotalCountsFiles(counts[1..]); }
  }

  lemma {:induction false} FindAfterPrefix(prefix: string, c: char, rest: string)
    requires c !in prefix
    ensures FindChar(prefix + [c] + rest, c) == Some(|prefix|)
  {
    var s := prefix + [c] + rest;
    if prefix != "" {
      assert s[1..] == prefix[1..] + [c] + rest;
      FindAfterPrefix(prefix[1..], c, rest);
    }
  }

  lemma DecimalParses(n: nat)
    requires n < U64
    ensures ParseU64(Decimal(n)) == Some(n)
    ensures '\t' !in Decimal(n) && '\n' !in Decimal(n) && '+' !in Decimal(n)
  {
    DecimalValue(n);
    assert forall i :: 0 <= i < |Decimal(n)| ==> IsDigit(Decimal(n)[i]);
  }

  /** The first two fields of `a \t b \t path`, whatever the path holds. */
  lemma FieldsOfRow(a: string, b: string, path: string)
    requires '\t' !in a && '\t' !in b
    ensures FirstField(a + "\t" + b + "\t" + path) == a
    ensures SecondField(a + "\t" + b + "\t" + path) == Some(b)
  {
    var rest := b + "\t" + path;
    var line := a + "\t" + b + "\t" + path;
    assert line == a + ['\t'] + rest;
    FindAfterPrefix(a, '\t', rest);
    assert line[..|a|] == a && line[|a| + 1..] == rest;
    assert rest == b + ['\t'] + path;
    FindAfterPrefix(b, '\t', path);
    assert rest[..|b|] == b;
  }

  function AddedField(row: Row): string {
    if row.Counted? then Decimal(row.added) else "-"
  }

  function DeletedField(row: Row): string {
    if row.Counted? then Decimal(row.deleted) else "-"
  }

  lemma StripCrOfConcat(prefix: string, path: string)
    requires prefix != "" && prefix[|prefix| - 1] != '\r'
    ensures StripCr(prefix + path) == prefix + StripCr(path)
  {
    var line := prefix + path;
    if path == "" {
      assert line == prefix;
    } else {
      assert line[|line| - 1] == path[|path| - 1];
      assert line[..|line| - 1] == prefix + path[..|path| - 1];
    }
  }

  lemma FieldCounts(row: Row, n: nat)
    requires row.Counted? ==> n < U64
    ensures
      var field := if row.Counted? then Decimal(n) else "-";
      && '\t' !in field && '\n' !in field && field != "" && !IsSpace(field[0])
      && CountOf(Some(field)) == if row.Counted? then n else 0
  {
    if row.Counted? {
      DecimalParses(n);
      assert IsDigit(Decimal(n)[0]);
    } else {
      assert !IsDigit("-"[0]);
    }
  }

  lemma RowShape(row: Row)
    requires PrintableRow(row)
    ensures RowLine(row) == AddedField(row) + "\t" + DeletedField(row) + "\t" + row.path
    ensures '\n' !in RowLine(row)
    ensures StripCr(RowLine(row)) == AddedField(row) + "\t" + DeletedField(row) + "\t" + StripCr(row.path)
  {
    FieldsCount(row);
    var prefix := AddedField(row) + "\t" + DeletedField(row) + "\t";
    hide AddedField, DeletedField;
    assert prefix[|prefix| - 1] == '\t';
    StripCrOfConcat(prefix, row.path);
  }

  lemma FieldsCount(row: Row)
    requires PrintableRow(row)
    ensures '\t' !in AddedField(row) && '\t' !in DeletedField(row) && AddedField(row) != "" && !IsSpace(AddedField(row)[0])
    ensures '\n' !in AddedField(row) && '\n' !in DeletedField(row)
    ensures CountOf(Some(AddedField(row))) == if row.Counted? then row.added else 0
    ensures CountOf(Some(DeletedField(row))) == if row.Counted? then row.deleted else 0
    ensures RowLine(row) == AddedField(row) + "\t" + DeletedField(row) + "\t" + row.path
  {
    FieldCounts(row, if row.Counted? then row.added else 0);
    FieldCounts(row, if row.Counted? then row.deleted else 0);
    hide Decimal, CountOf, IsSpace;
  }

  /** What `lines` does: it splits at newlines, and takes one carriage return before a newline with it. */
  lemma LinesMean(head: string, rest: string)
    requires '\n' !in head
    ensures Lines(head + "\n" + rest) == [StripCr(head)] + Lines(rest)
    ensures head == "" || head[|head| - 1] != '\r' ==>
              Lines(head + "\n" + rest) == [head] + Lines(rest) && Lines(head + "\r\n" + rest) == [head] + Lines(rest)
    ensures Lines(head) == if head == "" then [] else [head]
  {
    LinesHead(head, rest);
    LinesHead(head + "\r", rest);
    assert head + "\r\n" + rest == head + "\r" + "\n" + rest;
    assert StripCr(head + "\r") == head by {
      assert (head + "\r")[..|head|] == head;
    }
    hide StripCr;
    if head != "" { assert FindChar(head, '\n').None?; }
  }

  /** A printed number reads back, with or without a plus sign, iff it fits; nothing but digits and one leading plus is a number. */
  lemma NumbersMean(n: nat, s: string)
    ensures ParseU64(Decimal(n)) == (if n < 0x1_0000_0000_0000_0000 then Some(n) else None)
    ensures ParseU64("+" + Decimal(n)) == (if n < 0x1_0000_0000_0000_0000 then Some(n) else None)
    ensures ParseU64(s).Some? ==> s != "" && s != "+" && forall i :: 0 <= i < |s| ==> '0' <= s[i] <= '9' || (i == 0 && s[0] == '+')
  {
    DecimalValue(n);
    assert ("+" + Decimal(n))[1..] == Decimal(n);
    assert IsDigit(Decimal(n)[0]);
    if s != "" && s[0] == '+' {
      assert forall i :: 1 <= i < |s| ==> s[i] == s[1..][i - 1];
    }
  }

  /** What any line adds: one file if it is not blank, the number before the first tab, and the one before the next; what is no number counts as 0. */
  lemma LineMeans(added: string, deleted: string, path: string)
    requires '\t' !in added && '\t' !in deleted
    ensures
      var line := added + "\t" + deleted + "\t" + path;
      var a, d := ParseU64(added), ParseU64(deleted);
      LineCounts(line) ==
        if IsBlank(line) then Summary(0, 0, 0)
        else Summary(1, if a.Some? then a.value else 0, if d.Some? then d.value else 0)
    ensures !IsBlank(added) ==>
              LineCounts(added) == Summary(1, if ParseU64(added).Some? then ParseU64(added).value else 0, 0)
  {
    FieldsOfRow(added, deleted, path);
    hide ParseU64, IsBlank;
    assert FindChar(added, '\t').None?;
  }

  /** A printed row is one line that reads back as its own counts, also when the reader strips a trailing `\r` of the path. */
  lemma RowReadsBack(row: Row)
    requires PrintableRow(row)
    ensures '\n' !in RowLine(row) && LineCounts(StripCr(RowLine(row))) == RowCounts(row)
  {
    RowShape(row);
    FieldsCount(row);
    FieldsOfRow(AddedField(row), DeletedField(row), StripCr(row.path));
    assert StripCr(RowLine(row))[0] == AddedField(row)[0];
  }

  /** The first line of a text. */
  lemma LinesHead(head: string, rest: string)
    requires '\n' !in head
    ensures Lines(head + "\n" + rest) == [StripCr(head)] + Lines(rest)
  {
    var t := head + "\n" + rest;
    assert t == head + ['\n'] + rest;
    FindAfterPrefix(head, '\n', rest);
    assert t[..|head|] == head && t[|head| + 1..] == rest;
  }

  lemma {:induction false} PrintedReadsBack(rows: seq<Row>)
    requires forall i :: 0 <= i < |rows| ==> PrintableRow(rows[i])
    ensures CountsOf(Lines(Printed(rows))) == RowsCounts(rows)
  {
    if rows != [] {
      assert forall i :: 0 <= i < |rows[1..]| ==> rows[1..][i] == rows[i + 1];
      PrintedReadsBack(rows[1..]);
      RowReadsBack(rows[0]);
      LinesHead(RowLine(rows[0]), Printed(rows[1..]));
      CountsHead(StripCr(RowLine(rows[0])), Lines(Printed(rows[1..])));
      RowsCountsHead(rows);
    }
  }

  lemma CountsHead(line: string, lines: seq<string>)
    ensures CountsOf([line] + lines) == [LineCounts(line)] + CountsOf(lines)
  {
    CountsConcat([line], lines);
    assert CountsOf([line]) == [LineCounts(line)];
  }

  lemma RowsCountsHead(rows: seq<Row>)
    requires rows != []
    ensures RowsCounts(rows) == [RowCounts(rows[0])] + RowsCounts(rows[1..])
  {
  }

  /**
   Round trip: summarizing printed rows gives the row count and the sums modulo
   2^64, hence the exact sums whenever they fit; binary rows add no lines.
   */
  lemma NumstatRoundTrip(rows: seq<Row>)
    requires forall i :: 0 <= i < |rows| ==> PrintableRow(rows[i])
    ensures
      var summary, totals := Wrapped(Total(CountsOf(Lines(Printed(rows))))), Total(RowsCounts(rows));
      && summary.filesChanged == |rows| % U64
      && summary.additions == totals.additions % U64
      && summary.deletions == totals.deletions % U64
      && (|rows| < U64 && totals.additions < U64 && totals.deletions < U64 ==> summary == totals)
  {
    PrintedReadsBack(rows);
    TotalCountsFiles(RowsCounts(rows));
    WrapIsMod(|rows|);
    WrapIsMod(Total(RowsCounts(rows)).additions);
    WrapIsMod(Total(RowsCounts(rows)).deletions);
  }

  // ---- Concatenated outputs ----------------------------------------------

  lemma {:induction false} LinesConcat(a: string, b: string)
    requires a == "" || a[|a| - 1] == '\n'
    ensures Lines(a + b) == Lines(a) + Lines(b)
    decreases |a|
  {
    if a == "" {
      assert a + b == b;
    } else {
      var k := FindChar(a, '\n').value;
      var head, rest := a[..k], a[k + 1..];
      assert a == head + "\n" + rest;
      assert a + b == head + "\n" + (rest + b);
      LinesHead(head, rest);
      LinesHead(head, rest + b);
      assert rest == "" || rest[|rest| - 1] == a[|a| - 1];
      LinesConcat(rest, b);
      Associative([StripCr(head)], Lines(rest), Lines(b));
    }
  }

  lemma Associative<T>(x: seq<T>, y: seq<T>, z: seq<T>)
    ensures x + (y + z) == (x + y) + z
  {
  }

  /** Summaries of whole-line outputs add up (as u64) over concatenation, for any text whatever. */
  lemma SummariesAdd(a: string, b: string)
    requires a == "" || a[|a| - 1] == '\n'
    ensures
      var left, right := Wrapped(Total(CountsOf(Lines(a)))), Wrapped(Total(CountsOf(Lines(b))));
      Wrapped(Total(CountsOf(Lines(a + b)))) == Wrapped(Sum(left, right))
  {
    var x, y := CountsOf(Lines(a)), CountsOf(Lines(b));
    LinesConcat(a, b);
    CountsConcat(Lines(a), Lines(b));
    TotalConcat(x, y);
    WrappedSum(Total(x), Total(y));
  }
}

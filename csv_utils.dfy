/**
 * `CSVUtils.readCSV`: the lines of a flight file become an ordered list of
 * column-name -> value maps. The file is given as its sequence of lines; the empty
 * sequence is a file whose first `readLine()` already returns `null`.
 */
module CsvUtils {
  import opened Outcomes
  import opened JavaText

  /** One `HashMap<String, String>` row: trimmed header -> trimmed value. */
  type Record = map<string, string>

  /** The message of the `IOException` thrown when there is no header line. */
  const EmptyFileMessage: string := "CSV file is empty!"

  /** How many columns a row fills: `i < headers.length && i < values.length`. */
  function ZipCount(headers: seq<string>, values: seq<string>): nat {
    if |headers| <= |values| then |headers| else |values|
  }

  /** The row after the first `n` calls `row.put(headers[i].trim(), values[i].trim())`. */
  function ZipPrefix(headers: seq<string>, values: seq<string>, n: nat): Record
    requires n <= |headers| && n <= |values|
  {
    if n == 0 then map[]
    else ZipPrefix(headers, values, n - 1)[Trim(headers[n - 1]) := Trim(values[n - 1])]
  }

  /** The row a data line yields once all its columns are put. */
  function Zip(headers: seq<string>, values: seq<string>): Record {
    ZipPrefix(headers, values, ZipCount(headers, values))
  }

  /** The keys are exactly the trimmed headers of the filled columns. */
  lemma {:induction false} ZipPrefixKeys(headers: seq<string>, values: seq<string>, n: nat)
    requires n <= |headers| && n <= |values|
    ensures forall key :: key in ZipPrefix(headers, values, n) <==> exists i :: 0 <= i < n && Trim(headers[i]) == key
  {
    if n > 0 {
      ZipPrefixKeys(headers, values, n - 1);
      forall key
        ensures key in ZipPrefix(headers, values, n) <==> exists i :: 0 <= i < n && Trim(headers[i]) == key
      {
        if exists i :: 0 <= i < n && Trim(headers[i]) == key {
          var i :| 0 <= i < n && Trim(headers[i]) == key;
          if i < n - 1 {
            assert key in ZipPrefix(headers, values, n - 1);
          }
        }
      }
    }
  }

  /**
   * The value under a header is the trimmed value of the LAST column whose header
   * trims to it: a later duplicate header overwrites an earlier one.
   */
  lemma {:induction false} ZipPrefixLastWins(headers: seq<string>, values: seq<string>, n: nat, i: nat)
    requires n <= |headers| && n <= |values| && i < n
    requires forall j :: i < j < n ==> Trim(headers[j]) != Trim(headers[i])
    ensures Trim(headers[i]) in ZipPrefix(headers, values, n)
    ensures ZipPrefix(headers, values, n)[Trim(headers[i])] == Trim(values[i])
  {
    if i < n - 1 {
      ZipPrefixLastWins(headers, values, n - 1, i);
    }
  }

  /** A row depends only on the values of the columns it fills. */
  lemma {:induction false} ZipPrefixUsesPrefix(headers: seq<string>, values: seq<string>, others: seq<string>, n: nat)
    requires n <= |headers| && n <= |values| && n <= |others|
    requires values[..n] == others[..n]
    ensures ZipPrefix(headers, values, n) == ZipPrefix(headers, others, n)
  {
    if n > 0 {
      assert values[..n - 1] == others[..n - 1] by {
        assert values[..n - 1] == values[..n][..n - 1];
        assert others[..n - 1] == others[..n][..n - 1];
      }
      assert values[n - 1] == values[..n][n - 1];
      assert others[n - 1] == others[..n][n - 1];
      ZipPrefixUsesPrefix(headers, values, others, n - 1);
    }
  }

  /** Keys of a whole row: a short row leaves the remaining headers absent. */
  lemma ZipKeys(headers: seq<string>, values: seq<string>)
    ensures forall key :: key in Zip(headers, values) <==>
              exists i :: 0 <= i < ZipCount(headers, values) && Trim(headers[i]) == key
  {
    ZipPrefixKeys(headers, values, ZipCount(headers, values));
  }

  /** Values beyond the last header are ignored. */
  lemma ZipIgnoresExtraValues(headers: seq<string>, values: seq<string>)
    requires |values| > |headers|
    ensures Zip(headers, values) == Zip(headers, values[..|headers|])
  {
    var n := |headers|;
    assert values[..|headers|][..n] == values[..n];
    ZipPrefixUsesPrefix(headers, values, values[..|headers|], n);
  }

  /** The data lines the loop does not skip (`line.trim().isEmpty()` skips), in file order. */
  function NonBlankLines(lines: seq<string>): (r: seq<string>)
    ensures |r| <= |lines|
    ensures forall k :: 0 <= k < |r| ==> Trim(r[k]) != []
  {
    if lines == [] then []
    else
      var last := lines[|lines| - 1];
      var before := NonBlankLines(lines[..|lines| - 1]);
      if Trim(last) == [] then before else before + [last]
  }

  /** Skipping blank lines keeps order: it distributes over concatenation. */
  lemma {:induction false} NonBlankLinesAppend(a: seq<string>, b: seq<string>)
    ensures NonBlankLines(a + b) == NonBlankLines(a) + NonBlankLines(b)
    decreases |b|
  {
    if b != [] {
      var b' := b[..|b| - 1];
      assert (a + b)[..|a + b| - 1] == a + b';
      NonBlankLinesAppend(a, b');
    } else {
      assert a + b == a;
    }
  }

  /** The number of lines whose `trim()` is not empty, counted front to back. */
  function CountNonBlank(lines: seq<string>): nat {
    if lines == [] then 0
    else (if Trim(lines[0]) == [] then 0 else 1) + CountNonBlank(lines[1..])
  }

  lemma {:induction false} NonBlankLinesCount(lines: seq<string>)
    ensures |NonBlankLines(lines)| == CountNonBlank(lines)
  {
    if lines != [] {
      assert lines == [lines[0]] + lines[1..];
      NonBlankLinesAppend([lines[0]], lines[1..]);
      assert [lines[0]][..0] == [];
      NonBlankLinesCount(lines[1..]);
    }
  }

  /** One row per kept line, in the same order. */
  function RowsOf(headers: seq<string>, lines: seq<string>): (rows: seq<Record>)
    ensures |rows| == |lines|
    ensures forall k :: 0 <= k < |lines| ==> rows[k] == Zip(headers, SplitComma(lines[k]))
  {
    if lines == [] then []
    else RowsOf(headers, lines[..|lines| - 1]) + [Zip(headers, SplitComma(lines[|lines| - 1]))]
  }

  /** One more line: a blank one changes nothing, any other appends its row. */
  lemma AppendLine(headers: seq<string>, lines: seq<string>, line: string)
    ensures RowsOf(headers, NonBlankLines(lines + [line]))
         == RowsOf(headers, NonBlankLines(lines)) + if Trim(line) == [] then [] else [Zip(headers, SplitComma(line))]
  {
    assert (lines + [line])[..|lines|] == lines;
    var kept := NonBlankLines(lines);
    assert (kept + [line])[..|kept|] == kept;
  }

  /** The loop step of `readCSV`: reading line `i` after lines `1..i`. */
  lemma ReadOneMoreLine(headers: seq<string>, lines: seq<string>, i: nat)
    requires 1 <= i < |lines|
    ensures RowsOf(headers, NonBlankLines(lines[1..i + 1]))
         == RowsOf(headers, NonBlankLines(lines[1..i])) + if Trim(lines[i]) == [] then [] else [Zip(headers, SplitComma(lines[i]))]
  {
    assert lines[1..i + 1] == lines[1..i] + [lines[i]];
    AppendLine(headers, lines[1..i], lines[i]);
  }

  /**
   * What `readCSV` returns: the error of an empty file, or one row per non-blank data
   * line, zipped with the header line's fields. The header line itself is never a row.
   */
  function ParseCsv(lines: seq<string>): (r: Result<seq<Record>, string>)
    ensures r.Err? <==> lines == []
    ensures r.Err? ==> r.error == EmptyFileMessage
    ensures r.Ok? ==> |r.value| == |NonBlankLines(lines[1..])| == CountNonBlank(lines[1..])
    ensures r.Ok? ==> forall k :: 0 <= k < |r.value| ==>
              r.value[k] == Zip(SplitComma(lines[0]), SplitComma(NonBlankLines(lines[1..])[k]))
  {
    if lines == [] then Err(EmptyFileMessage)
    else
      NonBlankLinesCount(lines[1..]);
      Ok(RowsOf(SplitComma(lines[0]), NonBlankLines(lines[1..])))
  }

  /** The loop of `readCSV` that fills one row's `HashMap` column by column. */
  method PutColumns(headers: seq<string>, values: seq<string>) returns (row: Record)
    ensures row == Zip(headers, values)
  {
    row := map[];
    var i := 0;
    while i < |headers| && i < |values|
      invariant i <= |headers| && i <= |values|
      invariant row == ZipPrefix(headers, values, i)
    {
      row := row[Trim(headers[i]) := Trim(values[i])];
      i := i + 1;
    }
  }

  /** `readCSV`: the loop over the lines after the header. */
  method ReadCsv(lines: seq<string>) returns (r: Result<seq<Record>, string>)
    ensures r == ParseCsv(lines)
  {
    if |lines| == 0 {
      return Err(EmptyFileMessage);
    }
    var headers := SplitComma(lines[0]);
    var flights: seq<Record> := [];
    var i := 1;
    while i < |lines|
      invariant 1 <= i <= |lines|
      invariant flights == RowsOf(headers, NonBlankLines(lines[1..i]))
    {
      var line := lines[i];
      ReadOneMoreLine(headers, lines, i);
      i := i + 1;
      if Trim(line) == [] {
        continue;
      }
      var values := SplitComma(line);
      var row := PutColumns(headers, values);
      flights := flights + [row];
    }
    assert lines[1..i] == lines[1..];
    return Ok(flights);
  }
}

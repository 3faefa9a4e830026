/**
 * CSV line splitting and column assembly (Parser.java).
 *
 * split cuts a line at every comma, with no quoting or escaping. parse reads
 * the file line by line, splits each line and appends its i-th field to the
 * i-th column, creating that column the first time a row reaches it.
 * Reading the file and Double.parseDouble are not modelled: the lines come
 * in as a sequence and the columns hold the fields as text.
 */
module Parser {
  import opened JavaList

  // ---------------------------------------------------------------------
  // Specification of split

  /** String.indexOf(c): the first position of c in s, or -1 if there is none. */
  function IndexOf(s: string, c: char): (r: int)
    ensures -1 <= r < |s|
    ensures 0 <= r ==> s[r] == c
  {
    if s == [] then -1
    else if s[0] == c then 0
    else
      var k := IndexOf(s[1..], c);
      if k == -1 then -1 else k + 1
  }

  /** The fields of a line: the text between consecutive commas. */
  function Fields(line: string): seq<string>
    decreases |line|
  {
    var k := IndexOf(line, ',');
    if k == -1 then [line] else [line[..k]] + Fields(line[k + 1..])
  }

  /** The fields written back out with a comma between each two. */
  function Join(fields: seq<string>): string
    requires |fields| > 0
  {
    if |fields| == 1 then fields[0] else fields[0] + "," + Join(fields[1..])
  }

  /** The number of commas in s. */
  function Commas(s: string): nat
  {
    multiset(s)[',']
  }

  // ---------------------------------------------------------------------
  // Properties of split

  /** IndexOf finds the first occurrence, and -1 exactly when there is none. */
  lemma {:induction false} IndexOfFirst(s: string, c: char)
    ensures IndexOf(s, c) == -1 <==> c !in s
    ensures 0 <= IndexOf(s, c) ==> c !in s[..IndexOf(s, c)]
  {
    if s != [] && s[0] != c {
      IndexOfFirst(s[1..], c);
      assert s == [s[0]] + s[1..];
      var k := IndexOf(s[1..], c);
      if k != -1 {
        assert s[..k + 1] == [s[0]] + s[1..][..k];
      }
    }
  }

  /** The first occurrence is determined by its defining properties. */
  lemma {:induction false} IndexOfAt(s: string, c: char, k: int)
    requires 0 <= k < |s| && s[k] == c && c !in s[..k]
    ensures IndexOf(s, c) == k
  {
    if k > 0 {
      assert s[0] == s[..k][0];
      assert s[1..][..k - 1] == s[..k][1..];
      IndexOfAt(s[1..], c, k - 1);
    }
  }

  /** Fields unfolded once at the first comma. */
  lemma FieldsAtComma(line: string)
    requires IndexOf(line, ',') != -1
    ensures Fields(line) == [line[..IndexOf(line, ',')]] + Fields(line[IndexOf(line, ',') + 1..])
  {
  }

  /** Fields of a line without a comma. */
  lemma FieldsNoComma(line: string)
    requires IndexOf(line, ',') == -1
    ensures Fields(line) == [line]
  {
  }

  /** A line with n commas has n + 1 fields, so there is always at least one. */
  lemma {:induction false} FieldsCount(line: string)
    ensures |Fields(line)| == Commas(line) + 1
    decreases |line|
  {
    var k := IndexOf(line, ',');
    IndexOfFirst(line, ',');
    if k == -1 {
      FieldsNoComma(line);
    } else {
      FieldsAtComma(line);
      var head, tail := line[..k], line[k + 1..];
      assert line == head + [','] + tail;
      assert multiset(line) == multiset(head) + multiset{','} + multiset(tail);
      FieldsCount(tail);
    }
  }

  /** No field contains a comma. */
  lemma {:induction false} FieldsHaveNoComma(line: string)
    ensures forall i :: 0 <= i < |Fields(line)| ==> ',' !in Fields(line)[i]
    decreases |line|
  {
    var k := IndexOf(line, ',');
    IndexOfFirst(line, ',');
    if k == -1 {
      FieldsNoComma(line);
    } else {
      FieldsAtComma(line);
      FieldsHaveNoComma(line[k + 1..]);
    }
  }

  /** Joining the fields with commas gives back the line. */
  lemma {:induction false} JoinFields(line: string)
    ensures Join(Fields(line)) == line
    decreases |line|
  {
    var k := IndexOf(line, ',');
    if k == -1 {
      FieldsNoComma(line);
    } else {
      var head, tail := line[..k], line[k + 1..];
      var rest := Fields(tail);
      assert Fields(line) == [head] + rest by { FieldsAtComma(line); }
      assert |rest| > 0 by { FieldsCount(tail); }
      assert Join(rest) == tail by { JoinFields(tail); }
      JoinCons(head, rest);
      CutAt(line, k);
    }
  }

  /** A line is the text before position k, the character there and the text after it. */
  lemma CutAt(line: string, k: int)
    requires 0 <= k < |line|
    ensures line == line[..k] + [line[k]] + line[k + 1..]
  {
  }

  /** Join unfolded once at the first field. */
  lemma JoinCons(head: string, rest: seq<string>)
    requires |rest| > 0
    ensures Join([head] + rest) == head + "," + Join(rest)
  {
    assert ([head] + rest)[1..] == rest;
  }

  /** Splitting comma-free fields joined with commas gives back the fields. */
  lemma {:induction false} FieldsOfJoin(fields: seq<string>)
    requires |fields| > 0
    requires forall i :: 0 <= i < |fields| ==> ',' !in fields[i]
    ensures Fields(Join(fields)) == fields
  {
    var head := fields[0];
    if |fields| == 1 {
      IndexOfFirst(head, ',');
      FieldsNoComma(head);
    } else {
      var rest := fields[1..];
      var line, tail := Join(fields), Join(rest);
      JoinCons(head, rest);
      assert fields == [head] + rest;
      assert line == head + "," + tail;
      assert line[..|head|] == head;
      IndexOfAt(line, ',', |head|);
      FieldsAtComma(line);
      assert line[|head| + 1..] == tail;
      FieldsOfJoin(rest);
    }
  }

  /**
   * The first comma of s + "," + t is at k, the first comma of s or the
   * one added after it, so that is where the fields of s + "," + t unfold.
   */
  lemma FieldsOfAppendAt(s: string, t: string, k: int)
    requires 0 <= k <= |s| && (k == |s| || s[k] == ',') && ',' !in s[..k]
    ensures Fields(s + "," + t) == [s[..k]] + Fields((s + "," + t)[k + 1..])
  {
    var line := s + "," + t;
    assert line[..k] == s[..k];
    IndexOfAt(line, ',', k);
    FieldsAtComma(line);
  }

  /** Splitting at a comma splits the fields there: Fields(s + "," + t) == Fields(s) + Fields(t). */
  lemma {:induction false} FieldsAppend(s: string, t: string)
    ensures Fields(s + "," + t) == Fields(s) + Fields(t)
    decreases |s|
  {
    var line := s + "," + t;
    var k := IndexOf(s, ',');
    IndexOfFirst(s, ',');
    if k == -1 {
      assert Fields(s) == [s] by { FieldsNoComma(s); }
      assert s[..|s|] == s;
      assert Fields(line) == [s] + Fields(line[|s| + 1..]) by { FieldsOfAppendAt(s, t, |s|); }
      assert line[|s| + 1..] == t;
    } else {
      var head, rest := s[..k], s[k + 1..];
      assert Fields(s) == [head] + Fields(rest) by { FieldsAtComma(s); }
      assert line[k + 1..] == rest + "," + t;
      assert Fields(line) == [head] + Fields(rest + "," + t) by { FieldsOfAppendAt(s, t, k); }
      assert Fields(rest + "," + t) == Fields(rest) + Fields(t) by { FieldsAppend(rest, t); }
      Assoc([head], Fields(rest), Fields(t));
    }
  }

  /** Concatenation is associative. */
  lemma Assoc<T>(a: seq<T>, b: seq<T>, c: seq<T>)
    ensures a + (b + c) == (a + b) + c
  {
  }

  /**
   * The edge cases: the empty line is one empty field, a line without a
   * comma is one field, and a trailing comma adds an empty last field.
   */
  lemma FieldsEdgeCases(line: string)
    ensures Fields("") == [""]
    ensures ',' !in line ==> Fields(line) == [line]
    ensures Fields(line + ",") == Fields(line) + [""]
  {
    FieldsAppend(line, "");
    assert line + "," + "" == line + ",";
  }

  // ---------------------------------------------------------------------
  // split

  /**
   * split: while the rest of the line has a comma, take the text before it
   * as a field and continue after it; the remainder is the last field.
   */
  method Split(line: string) returns (splitted: seq<string>)
    ensures splitted == Fields(line)
  {
    splitted := [];
    var rest := line;
    var ind := IndexOf(rest, ',');
    ghost var fields := Fields(line);
    while ind != -1
      invariant ind == IndexOf(rest, ',')
      invariant splitted + Fields(rest) == fields
      decreases |rest|
    {
      var field, next := rest[..ind], rest[ind + 1..];
      assert splitted + Fields(rest) == (splitted + [field]) + Fields(next) by {
        FieldsAtComma(rest);
        Assoc(splitted, [field], Fields(next));
      }
      splitted := splitted + [field];
      rest := next;
      ind := IndexOf(rest, ',');
    }
    FieldsNoComma(rest);
    splitted := splitted + [rest];
  }

  // ---------------------------------------------------------------------
  // Specification of the column assembly

  function Max(a: nat, b: nat): nat
  {
    if a < b then b else a
  }

  /** The number of fields of the widest row, 0 when there are no rows. */
  function MaxWidth(rows: seq<seq<string>>): (w: nat)
    ensures forall r :: 0 <= r < |rows| ==> |rows[r]| <= w
    ensures rows == [] ==> w == 0
  {
    if rows == [] then 0
    else
      var init := rows[..|rows| - 1];
      var w := MaxWidth(init);
      assert forall r :: 0 <= r < |init| ==> rows[r] == init[r];
      Max(w, |rows[|rows| - 1]|)
  }

  /** Column j: the j-th field of every row that has one, in row order. */
  function Column(rows: seq<seq<string>>, j: nat): seq<string>
  {
    if rows == [] then []
    else
      var last := rows[|rows| - 1];
      Column(rows[..|rows| - 1], j) + (if j < |last| then [last[j]] else [])
  }

  /** The rows of the file: each line split at its commas. */
  function Rows(lines: seq<string>): (rows: seq<seq<string>>)
    ensures |rows| == |lines|
    ensures forall r :: 0 <= r < |lines| ==> rows[r] == Fields(lines[r])
  {
    seq(|lines|, r requires 0 <= r < |lines| => Fields(lines[r]))
  }

  // ---------------------------------------------------------------------
  // Properties of the column assembly

  /** Some row is as wide as the table. */
  lemma {:induction false} MaxWidthAttained(rows: seq<seq<string>>)
    requires rows != []
    ensures exists r :: 0 <= r < |rows| && |rows[r]| == MaxWidth(rows)
  {
    var init, last := rows[..|rows| - 1], rows[|rows| - 1];
    if init != [] && MaxWidth(init) > |last| {
      MaxWidthAttained(init);
      var r :| 0 <= r < |init| && |init[r]| == MaxWidth(init);
      assert rows[r] == init[r];
    }
  }

  /** Every column up to the widest row holds at least one field. */
  lemma {:induction false} ColumnNonEmpty(rows: seq<seq<string>>, j: nat)
    requires j < MaxWidth(rows)
    ensures |Column(rows, j)| > 0
  {
    var init, last := rows[..|rows| - 1], rows[|rows| - 1];
    if j >= |last| {
      ColumnNonEmpty(init, j);
    }
  }

  /** No row has a field beyond the widest row, so no field is left out of the columns. */
  lemma {:induction false} ColumnBeyondWidth(rows: seq<seq<string>>, j: nat)
    requires j >= MaxWidth(rows)
    ensures Column(rows, j) == []
  {
    if rows != [] {
      ColumnBeyondWidth(rows[..|rows| - 1], j);
    }
  }

  /** When every row has the same width, column j is the transpose: its r-th entry is row r's j-th field. */
  lemma {:induction false} ColumnOfRectangle(rows: seq<seq<string>>, width: nat, j: nat)
    requires forall r :: 0 <= r < |rows| ==> |rows[r]| == width
    requires j < width
    ensures |Column(rows, j)| == |rows|
    ensures forall r :: 0 <= r < |rows| ==> Column(rows, j)[r] == rows[r][j]
  {
    if rows != [] {
      var init := rows[..|rows| - 1];
      ColumnOfRectangle(init, width, j);
    }
  }

  /** All the columns of the table, one per field of the widest row. */
  function Columns(rows: seq<seq<string>>): (cols: seq<seq<string>>)
    ensures |cols| == MaxWidth(rows)
    ensures forall j :: 0 <= j < |cols| ==> cols[j] == Column(rows, j)
  {
    seq(MaxWidth(rows), j requires 0 <= j < MaxWidth(rows) => Column(rows, j))
  }

  /**
   * One row added to the columns: its j-th field goes to the end of column
   * j, and the fields past the last column start new columns.
   */
  function WithRow(cols: seq<seq<string>>, row: seq<string>): (r: seq<seq<string>>)
    ensures |r| == Max(|cols|, |row|)
    ensures forall j :: 0 <= j < |r| ==>
      r[j] == (if j < |cols| then cols[j] else []) + (if j < |row| then [row[j]] else [])
  {
    seq(Max(|cols|, |row|), j requires 0 <= j < Max(|cols|, |row|) =>
      (if j < |cols| then cols[j] else []) + (if j < |row| then [row[j]] else []))
  }

  /** Adding a row adds its j-th field, if it has one, to column j. */
  lemma ColumnSnoc(rows: seq<seq<string>>, row: seq<string>, j: nat)
    ensures Column(rows + [row], j) == Column(rows, j) + (if j < |row| then [row[j]] else [])
  {
    assert (rows + [row])[..|rows|] == rows;
  }

  /** Adding a row widens the table to that row's width, if it is wider. */
  lemma MaxWidthSnoc(rows: seq<seq<string>>, row: seq<string>)
    ensures MaxWidth(rows + [row]) == Max(MaxWidth(rows), |row|)
  {
    assert (rows + [row])[..|rows|] == rows;
  }

  /** Building the columns row by row gives the columns of the whole table. */
  lemma ColumnsSnoc(rows: seq<seq<string>>, row: seq<string>)
    ensures Columns(rows + [row]) == WithRow(Columns(rows), row)
  {
    var before, after, expected := Columns(rows), Columns(rows + [row]), WithRow(Columns(rows), row);
    MaxWidthSnoc(rows, row);
    forall j | 0 <= j < |after|
      ensures after[j] == expected[j]
    {
      ColumnSnoc(rows, row, j);
      if j >= |before| {
        ColumnBeyondWidth(rows, j);
      }
    }
  }

  // ---------------------------------------------------------------------
  // The column assembly loop of parse

  /**
   * The inner loop of parse for one row: field i is appended to column i,
   * and a new column is created when the row reaches past the last one.
   */
  method AppendRow(data: seq<ArrayList<string>>, splitted: seq<string>, ghost cols: seq<seq<string>>)
    returns (result: seq<ArrayList<string>>)
    requires |cols| == |data|
    requires forall j :: 0 <= j < |data| ==> data[j].items == cols[j]
    requires forall j, k :: 0 <= j < k < |data| ==> data[j] != data[k]
    modifies set j | 0 <= j < |data| :: data[j]
    ensures |result| == |WithRow(cols, splitted)|
    ensures result[..|data|] == data
    ensures forall j :: |data| <= j < |result| ==> fresh(result[j])
    ensures forall j :: 0 <= j < |result| ==> result[j].items == WithRow(cols, splitted)[j]
    ensures forall j, k :: 0 <= j < k < |result| ==> result[j] != result[k]
  {
    result := data;
    for i := 0 to |splitted|
      invariant |result| == Max(|data|, i)
      invariant result[..|data|] == data
      invariant forall j :: |data| <= j < |result| ==> fresh(result[j])
      invariant forall j :: 0 <= j < i && j < |data| ==> result[j].items == cols[j] + [splitted[j]]
      invariant forall j :: |data| <= j < i ==> result[j].items == [splitted[j]]
      invariant forall j :: i <= j < |data| ==> result[j].items == cols[j]
      invariant forall j, k :: 0 <= j < k < |result| ==> result[j] != result[k]
    {
      var column: ArrayList<string>;
      if |result| <= i {
        column := new ArrayList();
        result := result + [column];
      } else {
        column := result[i];
      }
      column.Add(splitted[i]);
    }
  }

  /**
   * The loop of parse over the lines of the file: each line is split and its
   * fields appended to the columns.
   */
  method Assemble(lines: seq<string>) returns (data: seq<ArrayList<string>>)
    ensures |data| == MaxWidth(Rows(lines))
    ensures forall j :: 0 <= j < |data| ==> fresh(data[j]) && data[j].items == Column(Rows(lines), j)
    ensures forall j, k :: 0 <= j < k < |data| ==> data[j] != data[k]
  {
    ghost var rows := Rows(lines);
    ghost var cols: seq<seq<string>> := [];
    data := [];
    for n := 0 to |lines|
      invariant cols == Columns(rows[..n])
      invariant |data| == |cols|
      invariant forall j :: 0 <= j < |data| ==> fresh(data[j]) && data[j].items == cols[j]
      invariant forall j, k :: 0 <= j < k < |data| ==> data[j] != data[k]
    {
      var splitted := Split(lines[n]);
      data := AppendRow(data, splitted, cols);
      assert Columns(rows[..n + 1]) == WithRow(cols, splitted) by {
        assert rows[..n + 1] == rows[..n] + [splitted];
        ColumnsSnoc(rows[..n], splitted);
      }
      cols := WithRow(cols, splitted);
    }
    assert rows[..|lines|] == rows;
  }
}

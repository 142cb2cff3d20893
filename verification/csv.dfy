/**
 `parseCSV` of the document processor (supabase/functions/analyze-document/documentProcessor.ts):
 naive comma splitting of newline-separated lines, the first line naming the
 fields of every later line. No quoting or escaping is recognised.
 */
module Csv {
  import opened Strings

  /** One parsed row: a JavaScript object from trimmed header cell to trimmed value. */
  type Record = map<string, string>

  /** The lines of the document text (`text.split('\n')`). */
  function Lines(text: string): (r: seq<string>)
    ensures |r| >= 1
  {
    Split(text, '\n')
  }

  /** The comma-separated cells of one line (`line.split(',')`). */
  function Cells(line: string): (r: seq<string>)
    ensures |r| >= 1
  {
    Split(line, ',')
  }

  /** The header cells: the cells of the first line. */
  function Headers(text: string): seq<string>
  {
    Cells(Lines(text)[0])
  }

  /** `row[i]?.trim() || ''`: the trimmed cell, or the empty string past the end of the row. */
  function Cell(cells: seq<string>, i: nat): string
  {
    if i < |cells| then Trim(cells[i]) else ""
  }

  /** The trimmed header cells, in order: the keys the row object is assigned. */
  function Keys(headers: seq<string>): (keys: seq<string>)
    ensures |keys| == |headers| && forall j | 0 <= j < |headers| :: keys[j] == Trim(headers[j])
  {
    seq(|headers|, j requires 0 <= j < |headers| => Trim(headers[j]))
  }

  /** The values assigned under those keys: the cell at the same position, or `''`. */
  function Values(headers: seq<string>, cells: seq<string>): (values: seq<string>)
    ensures |values| == |headers| && forall j | 0 <= j < |headers| :: values[j] == Cell(cells, j)
  {
    seq(|headers|, j requires 0 <= j < |headers| => Cell(cells, j))
  }

  /** The keys every parsed row has: the trimmed header cells. */
  function HeaderKeys(headers: seq<string>): (r: set<string>)
    ensures forall j | 0 <= j < |headers| :: Trim(headers[j]) in r
    ensures forall key | key in r :: exists j | 0 <= j < |headers| :: Trim(headers[j]) == key
  {
    set j | 0 <= j < |headers| :: Trim(headers[j])
  }

  /** No later header cell trims to the same key as the one at `j`. */
  predicate IsLastHeader(headers: seq<string>, j: nat)
    requires j < |headers|
  {
    forall k | j < k < |headers| :: Trim(headers[k]) != Trim(headers[j])
  }

  /** The `forEach` of assignments `obj[keys[i]] = values[i]`, in order, starting from `{}`. */
  function Assign(keys: seq<string>, values: seq<string>): map<string, string>
    requires |keys| == |values|
    decreases |keys|
  {
    if |keys| == 0 then map[]
    else
      var n := |keys| - 1;
      Assign(keys[..n], values[..n])[keys[n] := values[n]]
  }

  /** The assignments leave exactly the assigned keys. */
  lemma {:induction false} AssignKeys(keys: seq<string>, values: seq<string>)
    requires |keys| == |values|
    ensures forall key :: key in Assign(keys, values) <==> key in keys
    decreases |keys|
  {
    if |keys| > 0 {
      var n := |keys| - 1;
      AssignKeys(keys[..n], values[..n]);
      assert keys == keys[..n] + [keys[n]];
    }
  }

  /** A key assigned for the last time at `j` keeps the value assigned there. */
  lemma {:induction false} AssignLastWins(keys: seq<string>, values: seq<string>, j: nat)
    requires |keys| == |values| && j < |keys|
    requires forall k | j < k < |keys| :: keys[k] != keys[j]
    ensures keys[j] in Assign(keys, values) && Assign(keys, values)[keys[j]] == values[j]
    decreases |keys|
  {
    var n := |keys| - 1;
    if j < n {
      AssignLastWins(keys[..n], values[..n], j);
    }
  }

  /** When every assigned value is `v`, every key of the result holds `v`. */
  lemma {:induction false} AssignConstant(keys: seq<string>, values: seq<string>, v: string)
    requires |keys| == |values| && forall j | 0 <= j < |values| :: values[j] == v
    ensures forall key | key in Assign(keys, values) :: Assign(keys, values)[key] == v
    decreases |keys|
  {
    if |keys| > 0 {
      var n := |keys| - 1;
      AssignConstant(keys[..n], values[..n], v);
    }
  }

  /**
   The object built for one row: each trimmed header assigned, in header order,
   the cell at the same position, so that when two headers trim alike the later
   assignment wins (`RowObjectValues`).
   */
  function RowObject(headers: seq<string>, cells: seq<string>): Record
  {
    Assign(Keys(headers), Values(headers, cells))
  }

  /** Every row object has exactly the trimmed headers as keys. */
  lemma RowObjectKeys(headers: seq<string>, cells: seq<string>)
    ensures RowObject(headers, cells).Keys == HeaderKeys(headers)
  {
    var keys := Keys(headers);
    AssignKeys(keys, Values(headers, cells));
    forall key | key in keys ensures key in HeaderKeys(headers) {
      var j :| 0 <= j < |keys| && keys[j] == key;
    }
  }

  /** The value under a header's key is the cell at the last header with that key. */
  lemma RowObjectValues(headers: seq<string>, cells: seq<string>, j: nat)
    requires j < |headers| && IsLastHeader(headers, j)
    ensures Trim(headers[j]) in RowObject(headers, cells)
    ensures RowObject(headers, cells)[Trim(headers[j])] == Cell(cells, j)
  {
    AssignLastWins(Keys(headers), Values(headers, cells), j);
  }

  /** One row object per line, all keyed by the same headers. */
  function RowObjects(headers: seq<string>, lines: seq<string>): (rows: seq<Record>)
    ensures |rows| == |lines|
    ensures forall k | 0 <= k < |rows| :: rows[k] == RowObject(headers, Cells(lines[k]))
  {
    if |lines| == 0 then [] else [RowObject(headers, Cells(lines[0]))] + RowObjects(headers, lines[1..])
  }

  /** `parseCSV(text)`: one object per line after the first, keyed by the header line. */
  function ParseCsv(text: string): (rows: seq<Record>)
    ensures |rows| == |Lines(text)| - 1
    ensures forall k | 0 <= k < |rows| :: rows[k].Keys == HeaderKeys(Headers(text))
    ensures forall k, j | 0 <= k < |rows| && 0 <= j < |Headers(text)| && IsLastHeader(Headers(text), j) ::
              Trim(Headers(text)[j]) in rows[k] && rows[k][Trim(Headers(text)[j])] == Cell(Cells(Lines(text)[k + 1]), j)
  {
    var lines := Lines(text);
    var rows := RowObjects(Headers(text), lines[1..]);
    forall k | 0 <= k < |rows| ensures rows[k].Keys == HeaderKeys(Headers(text)) {
      RowObjectKeys(Headers(text), Cells(lines[1..][k]));
    }
    forall k, j | 0 <= k < |rows| && 0 <= j < |Headers(text)| && IsLastHeader(Headers(text), j)
      ensures Trim(Headers(text)[j]) in rows[k] && rows[k][Trim(Headers(text)[j])] == Cell(Cells(lines[k + 1]), j)
    {
      RowObjectValues(Headers(text), Cells(lines[1..][k]), j);
    }
    rows
  }

  /** Cells beyond the header count never reach the row object. */
  lemma ExtraCellsIgnored(headers: seq<string>, cells: seq<string>)
    requires |headers| <= |cells|
    ensures RowObject(headers, cells) == RowObject(headers, cells[..|headers|])
  {
    assert Values(headers, cells) == Values(headers, cells[..|headers|]);
  }

  /** A row shorter than the header line gets the empty string for every missing cell. */
  lemma MissingCellsEmpty(headers: seq<string>, cells: seq<string>, j: nat)
    requires |cells| <= j < |headers| && IsLastHeader(headers, j)
    ensures Trim(headers[j]) in RowObject(headers, cells)
    ensures RowObject(headers, cells)[Trim(headers[j])] == ""
  {
    RowObjectValues(headers, cells, j);
  }
}

/**
 * The part of a pandas DataFrame of strings that the reshaping step uses:
 * building a frame from records re-indexed to a column list, `fillna` from
 * another column, dropping a column, and column assignment (all rows, or the
 * rows selected by a `str.startswith` mask). A cell is a string or unset.
 */
module Frame {
  import opened Wrappers
  import Strings

  type Row = map<string, Option<string>>

  /** A finished table: the column labels in order, and one row per record. */
  datatype Table = Table(header: seq<string>, rows: seq<Row>)

  /** The value a row holds under `k`; a missing key reads as unset. */
  function Cell(r: Row, k: string): Option<string> {
    if k in r then r[k] else None
  }

  /** `s` with every occurrence of `x` left out, the rest in order. */
  function Without(s: seq<string>, x: string): (r: seq<string>)
    ensures forall y :: y in r <==> y in s && y != x
    ensures x !in s ==> r == s
  {
    if s == [] then []
    else if s[0] == x then Without(s[1..], x)
    else [s[0]] + Without(s[1..], x)
  }

  lemma {:induction false} WithoutAppend(a: seq<string>, b: seq<string>, x: string)
    ensures Without(a + b, x) == Without(a, x) + Without(b, x)
  {
    if a == [] {
      assert a + b == b;
    } else {
      assert (a + b)[1..] == a[1..] + b;
      WithoutAppend(a[1..], b, x);
    }
  }

  /** A record re-indexed to `columns`: exactly those keys, missing ones unset, the others dropped. */
  function Reindexed(r: Row, columns: seq<string>): (row: Row)
    ensures row.Keys == set k | k in columns
  {
    map k | k in columns :: Cell(r, k)
  }

  /** True when the row's `key` cell is a string starting with `prefix`. */
  predicate CellStartsWith(r: Row, key: string, prefix: string) {
    match Cell(r, key)
    case Some(s) => Strings.StartsWith(s, prefix)
    case None => false
  }

  class DataFrame {
    var header: seq<string>
    var rows: seq<Row>

    /** Every row has exactly the frame's columns. */
    ghost predicate Valid()
      reads this
    {
      forall i :: 0 <= i < |rows| ==> rows[i].Keys == set k | k in header
    }

    /** `pd.DataFrame(records).reindex(columns, axis=1)`. */
    constructor FromRecords(records: seq<Row>, columns: seq<string>)
      ensures Valid()
      ensures header == columns
      ensures |rows| == |records|
      ensures forall i :: 0 <= i < |records| ==> rows[i] == Reindexed(records[i], columns)
    {
      header := columns;
      var built: seq<Row> := [];
      for i := 0 to |records|
        invariant |built| == i
        invariant forall j :: 0 <= j < i ==> built[j] == Reindexed(records[j], columns)
      {
        built := built + [Reindexed(records[i], columns)];
      }
      rows := built;
    }

    /** `df[target] = df[target].fillna(df[fallback])`: an unset target cell takes the fallback cell of its row. */
    method FillNa(target: string, fallback: string)
      requires Valid() && target in header && fallback in header
      modifies this`rows
      ensures Valid()
      ensures |rows| == |old(rows)|
      ensures forall i :: 0 <= i < |rows| ==>
        rows[i] == if old(rows)[i][target].None? then old(rows)[i][target := old(rows)[i][fallback]] else old(rows)[i]
    {
      var i := 0;
      while i < |rows|
        invariant 0 <= i <= |rows| == |old(rows)|
        invariant Valid()
        invariant forall j :: 0 <= j < i ==>
          rows[j] == if old(rows)[j][target].None? then old(rows)[j][target := old(rows)[j][fallback]] else old(rows)[j]
        invariant forall j :: i <= j < |rows| ==> rows[j] == old(rows)[j]
      {
        var row := rows[i];
        if row[target].None? {
          rows := rows[i := row[target := row[fallback]]];
        }
        i := i + 1;
      }
    }

    /** `df.drop(col, axis=1, inplace=True)`. */
    method Drop(col: string)
      requires Valid() && col in header
      modifies this
      ensures Valid()
      ensures header == Without(old(header), col)
      ensures |rows| == |old(rows)|
      ensures forall i :: 0 <= i < |rows| ==> rows[i] == old(rows)[i] - {col}
    {
      header := Without(header, col);
      var i := 0;
      while i < |rows|
        invariant 0 <= i <= |rows| == |old(rows)|
        invariant header == Without(old(header), col)
        invariant forall j :: 0 <= j < i ==> rows[j] == old(rows)[j] - {col}
        invariant forall j :: i <= j < |rows| ==> rows[j] == old(rows)[j]
      {
        rows := rows[i := rows[i] - {col}];
        i := i + 1;
      }
      assert (set k | k in header) == (set k | k in old(header)) - {col};
    }

    /** `df[col] = v` for an existing column: every row's cell becomes `v`. */
    method AssignAll(col: string, v: string)
      requires Valid() && col in header
      modifies this`rows
      ensures Valid()
      ensures |rows| == |old(rows)|
      ensures forall i :: 0 <= i < |rows| ==> rows[i] == old(rows)[i][col := Some(v)]
    {
      var i := 0;
      while i < |rows|
        invariant 0 <= i <= |rows| == |old(rows)|
        invariant Valid()
        invariant forall j :: 0 <= j < i ==> rows[j] == old(rows)[j][col := Some(v)]
        invariant forall j :: i <= j < |rows| ==> rows[j] == old(rows)[j]
      {
        rows := rows[i := rows[i][col := Some(v)]];
        i := i + 1;
      }
    }

    /**
     * `df.loc[df[key].str.startswith(prefix), col] = v`. The mask is only
     * defined when every `key` cell is a string.
     */
    method AssignWhereStartsWith(col: string, v: string, key: string, prefix: string)
      requires Valid() && col in header && key in header
      requires forall i :: 0 <= i < |rows| ==> rows[i][key].Some?
      modifies this`rows
      ensures Valid()
      ensures |rows| == |old(rows)|
      ensures forall i :: 0 <= i < |rows| ==>
        rows[i] == if CellStartsWith(old(rows)[i], key, prefix) then old(rows)[i][col := Some(v)] else old(rows)[i]
    {
      var i := 0;
      while i < |rows|
        invariant 0 <= i <= |rows| == |old(rows)|
        invariant Valid()
        invariant forall j :: 0 <= j < i ==>
          rows[j] == if CellStartsWith(old(rows)[j], key, prefix) then old(rows)[j][col := Some(v)] else old(rows)[j]
        invariant forall j :: i <= j < |rows| ==> rows[j] == old(rows)[j]
      {
        var row := rows[i];
        if Strings.StartsWith(row[key].value, prefix) {
          rows := rows[i := row[col := Some(v)]];
        }
        i := i + 1;
      }
    }
  }
}

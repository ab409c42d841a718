/** The one-row pandas DataFrame the encoder works on, with the three
    operations the encoder uses: construction from a dict, copy, and
    overwriting a column with its `map(dict)` image. */
module Frames {
  import opened Cells

  /** `Series.map(table)` on one cell: a key of the table becomes its code,
      anything else (an unknown string, a number) becomes NaN. */
  function MapCell(table: map<string, int>, v: Value): (w: Value)
    ensures w.Int? <==> v.Text? && v.s in table
    ensures w.Int? ==> w.i == table[v.s]
    ensures !w.Int? ==> w == NaN
  {
    if v.Text? && v.s in table then Int(table[v.s]) else NaN
  }

  /** The row after `df[name] = df[name].map(table)`: the cells of the column
      `name` are replaced by their codes and every other cell is kept. */
  function Overwritten(columns: seq<Column>, row: seq<Value>, name: Column, table: map<string, int>): (after: seq<Value>)
    requires |columns| == |row|
    ensures |after| == |row|
    ensures forall i :: 0 <= i < |row| && columns[i] != name ==> after[i] == row[i]
    ensures forall i :: 0 <= i < |row| && columns[i] == name ==> after[i] == MapCell(table, row[i])
  {
    seq(|row|, i requires 0 <= i < |row| =>
      if columns[i] == name then MapCell(table, row[i]) else row[i])
  }

  /** The keys of a list of (key, value) pairs. */
  function Keys(d: seq<(Column, Value)>): seq<Column>
  {
    seq(|d|, i requires 0 <= i < |d| => d[i].0)
  }

  /** The values of a list of (key, value) pairs. */
  function Values(d: seq<(Column, Value)>): seq<Value>
  {
    seq(|d|, i requires 0 <= i < |d| => d[i].1)
  }

  class Frame {
    /** The column labels, fixed when the frame is built: assigning a column
        that already exists keeps them. */
    const columns: seq<Column>
    /** The one row of values, updated in place. */
    var row: seq<Value>

    /** One value per column. */
    ghost predicate Valid()
      reads this
    {
      |columns| == |row|
    }

    /** `pd.DataFrame(data, index=[0])`: one column per key, in the dict's order. */
    constructor (data: seq<(Column, Value)>)
      ensures Valid()
      ensures columns == Keys(data) && row == Values(data)
    {
      columns := Keys(data);
      row := Values(data);
    }

    /** `DataFrame.copy()`: a new frame with the same columns and values. */
    method Copy() returns (c: Frame)
      requires Valid()
      ensures fresh(c) && c.Valid()
      ensures c.columns == columns && c.row == row
    {
      c := new Frame(Zip(columns, row));
    }

    /** `df[name] = df[name].map(table)`: the column `name` is overwritten with
        the codes of its values; every other column and the column order stay
        as they were. */
    method MapColumn(name: Column, table: map<string, int>)
      requires Valid() && name in columns
      modifies this
      ensures Valid()
      ensures row == Overwritten(columns, old(row), name, table)
    {
      row := Overwritten(columns, row, name, table);
    }
  }

  /** Pairs up column names with the values of a row. */
  function Zip(columns: seq<Column>, row: seq<Value>): (d: seq<(Column, Value)>)
    requires |columns| == |row|
    ensures Keys(d) == columns && Values(d) == row
  {
    seq(|columns|, i requires 0 <= i < |columns| => (columns[i], row[i]))
  }
}

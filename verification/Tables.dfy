/** Record batches, columns and three-valued masks as the query engine sees them. */
module Tables {
  import opened Wrappers
  import opened Bytes

  type FieldName = string

  /** The tables the compilers name, and every other name. */
  datatype TableName =
    | Blocks | Transactions | Logs | Traces
    | Instructions | Balances | TokenBalances | Rewards
    | OtherTable(name: string)

  /** Opaque stands for the column types the engine never looks into. */
  datatype DataType = Integer(bits: nat, signed: bool) | Binary | Utf8 | Boolean | Opaque(id: nat, sortable: bool)

  datatype Value = Int(n: int) | Bytes(b: seq<byte>) | Bool(v: bool) | Blob(id: nat)

  /** A slot keeps the value in the data buffer even when the validity bit is off:
      the filters compute on raw values and mask with the validity bits afterwards. */
  datatype Cell = Cell(valid: bool, raw: Value)

  datatype Column = Column(name: FieldName, dtype: DataType, cells: seq<Cell>)

  datatype Table = Table(rows: nat, columns: seq<Column>)

  type Data = map<TableName, Table>

  /** A boolean array: `None` is a null slot. */
  type Mask = seq<Option<bool>>

  predicate ValidTable(t: Table) {
    forall c | c in t.columns :: |c.cells| == t.rows
  }

  predicate ValidData(data: Data) {
    forall t | t in data :: ValidTable(data[t])
  }

  /** The first column of that name, as `column_by_name` and `field_with_name` find it. */
  function Find(columns: seq<Column>, name: FieldName): Option<Column> {
    if columns == [] then None
    else if columns[0].name == name then Some(columns[0])
    else Find(columns[1..], name)
  }

  lemma {:induction false} FindFinds(columns: seq<Column>, name: FieldName)
    ensures Find(columns, name).Some? ==> Find(columns, name).value in columns && Find(columns, name).value.name == name
    ensures Find(columns, name).None? ==> forall c | c in columns :: c.name != name
  {
    if columns != [] {
      FindFinds(columns[1..], name);
    }
  }

  /** A table of the data, empty when it is not there. */
  function TableOf(data: Data, t: TableName): Table {
    if t in data then data[t] else Table(0, [])
  }

  function CellIn(c: Option<Column>, row: nat): Cell {
    if c.Some? && row < |c.value.cells| then c.value.cells[row] else Cell(false, Blob(0))
  }

  /** The slot of a named column, with a null slot standing in where there is none. */
  function CellOf(t: Table, name: FieldName, row: nat): Cell {
    CellIn(Find(t.columns, name), row)
  }

  // Arrow's `and` and `or` propagate nulls from either side.

  function And1(a: Option<bool>, b: Option<bool>): Option<bool> {
    if a.Some? && b.Some? then Some(a.value && b.value) else None
  }

  function Or1(a: Option<bool>, b: Option<bool>): Option<bool> {
    if a.Some? && b.Some? then Some(a.value || b.value) else None
  }

  function And(a: Mask, b: Mask): Mask
    requires |a| == |b|
  {
    seq(|a|, i requires 0 <= i < |a| => And1(a[i], b[i]))
  }

  function Or(a: Mask, b: Mask): Mask
    requires |a| == |b|
  {
    seq(|a|, i requires 0 <= i < |a| => Or1(a[i], b[i]))
  }

  /** `compute::filter`: keeps the slots whose mask is true; a null mask slot drops the row. */
  function Keep<T>(xs: seq<T>, m: Mask): seq<T> {
    if xs == [] || m == [] then []
    else (if m[0] == Some(true) then [xs[0]] else []) + Keep(xs[1..], m[1..])
  }

  function CountTrue(m: Mask): nat {
    if m == [] then 0 else (if m[0] == Some(true) then 1 else 0) + CountTrue(m[1..])
  }

  /** `filter_record_batch` */
  function FilterTable(t: Table, m: Mask): Table {
    Table(CountTrue(m), FilterColumns(t.columns, m))
  }

  function FilterColumns(columns: seq<Column>, m: Mask): seq<Column> {
    seq(|columns|, k requires 0 <= k < |columns| => columns[k].(cells := Keep(columns[k].cells, m)))
  }

  /** The columns whose name is requested, in the order of the batch. */
  function PickColumns(columns: seq<Column>, names: seq<FieldName>): seq<Column> {
    if columns == [] then []
    else if columns[0].name in names then [columns[0]] + PickColumns(columns[1..], names)
    else PickColumns(columns[1..], names)
  }

  lemma {:induction false} PickedColumn(columns: seq<Column>, names: seq<FieldName>, c: Column)
    ensures c in PickColumns(columns, names) <==> c in columns && c.name in names
  {
    if columns != [] {
      PickedColumn(columns[1..], names, c);
    }
  }

  /** The requested columns keep their order: in front of one stand those requested before it. */
  lemma {:induction false} PickedInOrder(columns: seq<Column>, names: seq<FieldName>, k: nat)
    requires k < |columns|
    ensures var before := |PickColumns(columns[..k], names)|;
            && |PickColumns(columns[..k + 1], names)| == before + (if columns[k].name in names then 1 else 0)
            && (columns[k].name in names ==>
                  before < |PickColumns(columns, names)| && PickColumns(columns, names)[before] == columns[k])
  {
    if k > 0 {
      PickedInOrder(columns[1..], names, k - 1);
      assert columns[..k][1..] == columns[1..][..k - 1] && columns[..k + 1][1..] == columns[1..][..k];
    } else {
      assert columns[..1] == [columns[0]] && columns[..1][1..] == [];
    }
  }

  function Project(t: Table, names: seq<FieldName>): (r: Table)
    ensures r.rows == t.rows
    ensures ValidTable(t) ==> ValidTable(r)
  {
    assert forall c | c in PickColumns(t.columns, names) :: c in t.columns by {
      forall c | c in PickColumns(t.columns, names) ensures c in t.columns {
        PickedColumn(t.columns, names, c);
      }
    }
    Table(t.rows, PickColumns(t.columns, names))
  }
}

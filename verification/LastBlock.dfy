/** The highest block id of a chunk, which every stream item carries. */
module LastBlock {
  import opened Wrappers
  import opened Tables

  const U64: DataType := Integer(64, false)

  const BLOCK_ID_COLUMNS: seq<FieldName> := ["block_number", "number", "slot"]

  /** The non-null integers of a column. */
  ghost function IdsIn(cells: seq<Cell>): iset<int> {
    iset n | Cell(true, Int(n)) in cells
  }

  /** The block ids a table has under one name: those of its 64-bit column of that name. */
  ghost function IdsUnder(t: Table, name: FieldName): iset<int> {
    var c := Find(t.columns, name);
    if c.Some? && c.value.dtype == U64 then IdsIn(c.value.cells) else iset{}
  }

  ghost function IdsUnderAny(t: Table, names: seq<FieldName>): iset<int> {
    if names == [] then iset{} else IdsUnderAny(t, names[..|names| - 1]) + IdsUnder(t, names[|names| - 1])
  }

  ghost function TableIds(t: Table): iset<int> {
    IdsUnder(t, "block_number") + IdsUnder(t, "number") + IdsUnder(t, "slot")
  }

  ghost function IdsOf(data: Data, tables: set<TableName>): iset<int> {
    iset t, n | t in tables && t in data && n in TableIds(data[t]) :: n
  }

  /** All block ids of a chunk. */
  ghost function BlockIds(data: Data): iset<int> {
    IdsOf(data, data.Keys)
  }

  ghost predicate IsMax(ids: iset<int>, m: Option<int>) {
    && (m.None? ==> ids == iset{})
    && (m.Some? ==> m.value in ids && forall n | n in ids :: n <= m.value)
  }

  function Max(a: Option<int>, b: Option<int>): Option<int> {
    if a.None? then b else if b.None? then a else if a.value < b.value then b else a
  }

  lemma {:induction false} MaxOfBoth(a: iset<int>, b: iset<int>, m: Option<int>, k: Option<int>)
    requires IsMax(a, m) && IsMax(b, k)
    ensures IsMax(a + b, Max(m, k))
  {
  }

  /** `array_max`: nulls are skipped. */
  method ArrayMax(cells: seq<Cell>) returns (m: Option<int>)
    ensures IsMax(IdsIn(cells), m)
  {
    m := None;
    for i := 0 to |cells|
      invariant IsMax(IdsIn(cells[..i]), m)
    {
      var c := cells[i];
      var own := if c.valid && c.raw.Int? then Some(c.raw.n) else None;
      assert cells[..i + 1] == cells[..i] + [c];
      assert IdsIn(cells[..i + 1]) == IdsIn(cells[..i]) + IdsIn([c]);
      MaxOfBoth(IdsIn(cells[..i]), IdsIn([c]), m, own);
      m := Max(m, own);
    }
    assert cells[..|cells|] == cells;
  }

  /** The block ids of one table, name by name. */
  method TableLastBlock(t: Table) returns (m: Option<int>)
    ensures IsMax(TableIds(t), m)
  {
    m := None;
    ghost var names := BLOCK_ID_COLUMNS;
    for i := 0 to |BLOCK_ID_COLUMNS|
      invariant IsMax(IdsUnderAny(t, names[..i]), m)
    {
      var column := Find(t.columns, BLOCK_ID_COLUMNS[i]);
      var own: Option<int> := None;
      if column.Some? && column.value.dtype == U64 {
        own := ArrayMax(column.value.cells);
      }
      assert names[..i + 1][..i] == names[..i];
      MaxOfBoth(IdsUnderAny(t, names[..i]), IdsUnder(t, names[i]), m, own);
      m := Max(m, own);
    }
    AnyOfThree(t, names);
    assert names[..|names|] == names;
  }

  lemma {:induction false} AnyOfThree(t: Table, names: seq<FieldName>)
    requires |names| == 3
    ensures IdsUnderAny(t, names) == IdsUnder(t, names[0]) + IdsUnder(t, names[1]) + IdsUnder(t, names[2])
  {
    assert names[..2][..1] == names[..1] && names[..1][..0] == [];
    assert IdsUnderAny(t, names[..1]) == IdsUnder(t, names[0]);
    assert IdsUnderAny(t, names[..2]) == IdsUnder(t, names[0]) + IdsUnder(t, names[1]);
  }

  /** The item's last block: the largest block id in the chunk, none if it has no block id. */
  ghost predicate IsLastBlock(data: Data, m: Option<int>) {
    IsMax(BlockIds(data), m)
  }

  /** `extract_last_block` */
  method ExtractLastBlock(data: Data) returns (m: Option<int>)
    ensures IsLastBlock(data, m)
  {
    m := None;
    var rest := data.Keys;
    ghost var seen: set<TableName> := {};
    while rest != {}
      invariant seen + rest == data.Keys
      invariant IsMax(IdsOf(data, seen), m)
      decreases |rest|
    {
      var t :| t in rest;
      var own := TableLastBlock(data[t]);
      assert IdsOf(data, seen + {t}) == IdsOf(data, seen) + TableIds(data[t]);
      MaxOfBoth(IdsOf(data, seen), TableIds(data[t]), m, own);
      m := Max(m, own);
      rest, seen := rest - {t}, seen + {t};
    }
    assert seen == data.Keys;
  }

  /** A Solana chunk of instructions shows no block id: its slots are in `block_slot`, which is not one
      of the names looked for. */
  lemma {:induction false} SlotsOfInstructionsUnseen() returns (data: Data)
    ensures ValidData(data) && Instructions in data && data[Instructions].rows == 1
    ensures CellOf(data[Instructions], "block_slot", 0) == Cell(true, Int(7))
    ensures IsLastBlock(data, None)
  {
    var slots := Column("block_slot", U64, [Cell(true, Int(7))]);
    data := map[Instructions := Table(1, [slots])];
    assert Find([slots], "block_slot") == Some(slots);
    assert [slots][1..] == [] && Find([slots], "slot") == None;
    assert Find([slots], "number") == None && Find([slots], "block_number") == None;
    assert TableIds(data[Instructions]) == iset{};
    assert BlockIds(data) == iset{};
  }
}

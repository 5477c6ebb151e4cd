/** The `deals_snapshot` table (app/repositories/deals_repo.py).  A row maps the columns
    that are not null to their values; values are ids or stand for opaque data. */
module DealsRepo {
  import opened Common

  datatype Column = Pipeline | Stage | Owner | Other(name: string)

  type Row = map<Column, int>

  type Deals = map<int, Row>

  function Get(row: Row, c: Column): Option<int> {
    if c in row then Some(row[c]) else None
  }

  /** Column `c` of deal `id`; null when there is no such row. */
  function Value(deals: Deals, id: int, c: Column): Option<int> {
    if id in deals then Get(deals[id], c) else None
  }

  /** INSERT ... ON CONFLICT DO UPDATE: columns not in `data` keep their value. */
  function UpsertDeal(deals: Deals, id: int, data: Row): Deals {
    deals[id := (if id in deals then deals[id] else map[]) + data]
  }

  /** A row with the null columns left out. */
  function NonNull(c: Column, value: Option<int>): Row {
    if value.Some? then map[c := value.value] else map[]
  }

  lemma GetPlus(row: Row, column: Column, value: Option<int>, c: Column)
    ensures Get(row + NonNull(column, value), c) == if c == column && value.Some? then value else Get(row, c)
  {
  }

  function OtherColumns(values: map<string, int>): (row: Row)
    ensures forall c :: c in row <==> c.Other? && c.name in values
    ensures forall c :: c in row ==> row[c] == values[c.name]
  {
    map name | name in values :: Other(name) := values[name]
  }

  lemma UpsertColumn(deals: Deals, id: int, data: Row, other: int, c: Column)
    ensures Value(UpsertDeal(deals, id, data), other, c)
         == if other == id && c in data then Some(data[c]) else Value(deals, other, c)
    ensures other in UpsertDeal(deals, id, data) <==> other == id || other in deals
  {
  }
}

/**
  The records that flow through the ICU-stay pipeline
  (train_test_csv_creation.py), and the first stage, PrepareData,
  which projects a chart-event row onto a keyed measure.
*/
module Records {

  /** ICUSTAY_ID, an integer column. */
  type StayId = int

  /** ITEMID, an integer column. */
  type ItemId = int

  /** CHARTTIME, as whole seconds since a fixed epoch. */
  type Timestamp = int

  /** The columns of one chart-event row that the pipeline reads. VALUE and LOS
      are carried as the text they print as. */
  datatype Row = Row(icustayId: StayId, itemId: ItemId, value: string, chartTime: Timestamp, los: string)

  /** The tuple (ITEMID, VALUE, CHARTTIME, LOS) that PrepareData keys by stay. */
  datatype Measure = Measure(itemId: ItemId, value: string, chartTime: Timestamp, los: string)

  /** The (itemid, value) pair kept in a minute bucket. */
  datatype Entry = Entry(itemId: ItemId, value: string)

  /** The ways a stage raises in the source. */
  datatype StageError =
    | EmptyMeasureList  // measures[0] on an empty list
    | DictSliced        // slicing the bucket dict in PadSequences

  function EntryOf(m: Measure): Entry {
    Entry(m.itemId, m.value)
  }

  /** The measure PrepareData keeps of a row. */
  function MeasureOf(row: Row): Measure {
    Measure(row.itemId, row.value, row.chartTime, row.los)
  }

  /** Puts a projected pair back together as a row. */
  function RowOf(stay: StayId, m: Measure): Row {
    Row(stay, m.itemId, m.value, m.chartTime, m.los)
  }

  /** PrepareData.process: one keyed pair per row, losing none of the five
      columns the pipeline reads. */
  function PrepareData(row: Row): (r: seq<(StayId, Measure)>)
    ensures |r| == 1 && RowOf(r[0].0, r[0].1) == row
  {
    [(row.icustayId, MeasureOf(row))]
  }

  /** ParDo(PrepareData) over a stream of rows: the one-element results are
      flattened into one stream of pairs. */
  function ProjectRows(rows: seq<Row>): (pairs: seq<(StayId, Measure)>)
    ensures |pairs| == |rows|
    ensures forall i :: 0 <= i < |rows| ==> RowOf(pairs[i].0, pairs[i].1) == rows[i]
  {
    if rows == [] then [] else PrepareData(rows[0]) + ProjectRows(rows[1..])
  }
}

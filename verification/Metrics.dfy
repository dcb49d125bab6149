/** Measurement rows and envelopes, as they travel from a source to the sinks. */
module Metrics {

  const EPOCH_COLUMN := "epoch_ns"
  const TAG_PREFIX := "tag_"
  const INSTANCE_UP := "instance_up"

  /** The dynamic values a row cell can hold, by the cases the code tells apart. */
  datatype Value =
    | Int64(i: int)
    | Int(n: int)
    | Float(r: real)
    | Bool(b: bool)
    | Text(s: string)
    | Null
    | Other

  /** The epoch column holds an integer of the expected type. */
  predicate HasEpoch(cells: map<string, Value>) {
    EPOCH_COLUMN in cells && cells[EPOCH_COLUMN].Int64?
  }

  /** The cells with their epoch, the given time where there is none or an ill-typed one. */
  function Pin(cells: map<string, Value>, now: int): map<string, Value> {
    if HasEpoch(cells) then cells else cells[EPOCH_COLUMN := Int64(now)]
  }

  /** A row: a Go map, hence shared by reference. */
  class Measurement {
    var cells: map<string, Value>

    constructor (cells: map<string, Value>)
      ensures this.cells == cells
    {
      this.cells := cells;
    }

    predicate Pinned()
      reads this
    {
      HasEpoch(cells)
    }

    /** The row's epoch; a missing or ill-typed one is pinned to the current time. */
    method GetEpoch(now: int) returns (epoch: int)
      modifies this
      ensures Pinned() && cells[EPOCH_COLUMN].i == epoch
      ensures old(Pinned()) ==> cells == old(cells)
      ensures !old(Pinned()) ==> epoch == now && cells == old(cells)[EPOCH_COLUMN := Int64(now)]
    {
      if EPOCH_COLUMN in cells && cells[EPOCH_COLUMN].Int64? {
        epoch := cells[EPOCH_COLUMN].i;
      } else {
        epoch := now;
        cells := cells[EPOCH_COLUMN := Int64(now)];
      }
    }
  }

  datatype Envelope = Envelope(
    dbName: string,
    metricName: string,
    data: seq<Measurement>
  )
}

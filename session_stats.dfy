/**
 * The session ledger (`EduMoodSessionStats`): an append-only, insertion-ordered
 * list of emotion records, and its tabular view with a fixed eight-column
 * schema that holds even when the ledger is empty.
 */
module SessionStats {
  import opened Emotions

  /** One analysed moment: when it was recorded (an abstract clock reading in
      seconds) and how many faces showed each emotion. */
  datatype EmotionRecord = EmotionRecord(recordedAt: nat, counts: EmotionCounts)

  /** The table's column names, in order: the timestamp, then one per
      category in the record's key order. */
  const COLUMNS: seq<string> :=
    ["recorded_at", "happy", "sad", "angry", "surprise", "neutral", "disgusted", "fearful"]

  /** A table cell: the timestamp column holds a clock reading, the others a count. */
  datatype Cell = Stamp(at: nat) | Count(n: nat)

  datatype Table = Table(columns: seq<string>, rows: seq<seq<Cell>>)

  /** The row a record becomes: its cells in column order. */
  function Row(r: EmotionRecord): (row: seq<Cell>)
    ensures |row| == |COLUMNS|
    ensures row[0] == Stamp(r.recordedAt)
    ensures forall j :: 0 <= j < |ALL_EMOTIONS| ==>
              COLUMNS[j + 1] == Name(ALL_EMOTIONS[j]) && row[j + 1] == Count(Get(r.counts, ALL_EMOTIONS[j]))
  {
    var c := r.counts;
    [Stamp(r.recordedAt), Count(c.happy), Count(c.sad), Count(c.angry), Count(c.surprise),
     Count(c.neutral), Count(c.disgusted), Count(c.fearful)]
  }

  function Rows(records: seq<EmotionRecord>): (rows: seq<seq<Cell>>)
  {
    seq(|records|, i requires 0 <= i < |records| => Row(records[i]))
  }

  /** The schema is stable: eight distinct column names. */
  lemma ColumnsAreDistinct()
    ensures |COLUMNS| == 8
    ensures forall i, j :: 0 <= i < j < |COLUMNS| ==> COLUMNS[i] != COLUMNS[j]
  {
  }

  /** Appending a record adds its row at the end and leaves every earlier
      row as it was. */
  lemma RowsSnoc(records: seq<EmotionRecord>, r: EmotionRecord)
    ensures Rows(records + [r]) == Rows(records) + [Row(r)]
  {
  }

  class EduMoodSessionStats {
    var records: seq<EmotionRecord>

    constructor ()
      ensures records == []
    {
      records := [];
    }

    /** Appends one record at the end of the ledger. */
    method AddRecord(record: EmotionRecord)
      modifies this
      ensures records == old(records) + [record]
    {
      records := records + [record];
    }

    /** The ledger as a table: the fixed columns, and one row per record in
        insertion order (no rows at all for an empty ledger). */
    function ToDataframe(): (t: Table)
      reads this
      ensures t.columns == COLUMNS
      ensures |t.rows| == |records|
      ensures forall i :: 0 <= i < |records| ==> t.rows[i] == Row(records[i])
    {
      if records == [] then Table(COLUMNS, [])
      else Table(COLUMNS, Rows(records))
    }
  }
}

/** The tag table of `pkg/idgen/segment/storage.go`, one row per business tag; this module is one row.
    Each statement or transaction is one atomic step. */
module SegmentStore {
  import opened Options

  newtype int64 = x: int | -0x8000_0000_0000_0000 <= x < 0x8000_0000_0000_0000
  newtype int32 = x: int | -0x8000_0000 <= x < 0x8000_0000

  const MaxInt64: int64 := 0x7fff_ffff_ffff_ffff
  const DefaultStep: int32 := 1000

  datatype Segment = Segment(start: int64, end: int64, current: int64)

  datatype Error = BizTagNotFound | InvalidConfig | IDOverflow | Unavailable

  datatype Fetched = Got(segment: Segment) | Refused(error: Error)

  /** `origin` is the start ID stored when the row was created; the table itself keeps only the rest. */
  datatype Row = Row(origin: int64, maxID: int64, step: int32)

  // ---------------------------------------------------------------- what each statement does

  function Initialised(row: Option<Row>, startID: int64, step: int32): Option<Row> {
    match row
    case None => Some(Row(startID, startID, step))
    case Some(r) => Some(r.(step := step))
  }

  function Answer(row: Option<Row>): Fetched {
    match row
    case None => Refused(BizTagNotFound)
    case Some(r) =>
      if r.step <= 0 then Refused(InvalidConfig)
      else if r.maxID > MaxInt64 - r.step as int64 then Refused(IDOverflow)
      else Got(Segment(r.maxID + 1, r.maxID + r.step as int64, r.maxID + 1))
  }

  function Advanced(row: Option<Row>): Option<Row> {
    match Answer(row)
    case Refused(_) => row
    case Got(s) => Some(row.value.(maxID := s.end))
  }

  /** A range as the store hands it out. */
  ghost predicate Fresh(s: Segment) { s.start == s.current <= s.end && s.end as int - s.start as int < 0x7fff_ffff }

  /** A range starts right after everything handed out before and ends at the new `max_id`. */
  lemma AnswerIsNext(row: Option<Row>)
    ensures Answer(row).Got? ==>
              var s := Answer(row).segment;
              Fresh(s) && s.start as int == row.value.maxID as int + 1 && Advanced(row).Some? && Advanced(row).value.maxID == s.end
  {
  }

  /** A range is handed out exactly when there is a row with a positive step that still fits; then it has
      `step` IDs and `max_id` grows by as many.  Otherwise the row stays and the error names the reason. */
  lemma AnswerExactly(row: Option<Row>)
    ensures var fits := row.Some? && row.value.step > 0 && row.value.maxID as int + row.value.step as int <= MaxInt64 as int;
            (Answer(row).Got? <==> fits) &&
            (fits ==>
              var s, row' := Answer(row).segment, Advanced(row);
              s.end as int - s.start as int + 1 == row.value.step as int &&
              row'.Some? && row'.value.maxID as int - row.value.maxID as int == row.value.step as int &&
              row'.value.step == row.value.step && row'.value.origin == row.value.origin) &&
            (!fits ==>
              Advanced(row) == row &&
              Answer(row).error == if row.None? then BizTagNotFound else if row.value.step <= 0 then InvalidConfig else IDOverflow)
  {
  }

  // ---------------------------------------------------------------- a row through its life

  datatype Call = Init(startID: int64, step: int32) | Fetch

  ghost function RowAt(calls: seq<Call>, n: nat): Option<Row>
    requires n <= |calls|
  {
    if n == 0 then None
    else match calls[n - 1]
    case Init(startID, step) => Initialised(RowAt(calls, n - 1), startID, step)
    case Fetch => Advanced(RowAt(calls, n - 1))
  }

  /** The start of the first `Init` and the step of the last. */
  ghost function Tag(calls: seq<Call>, n: nat): Option<(int, int)>
    requires n <= |calls|
  {
    if n == 0 then None
    else match calls[n - 1]
    case Fetch => Tag(calls, n - 1)
    case Init(startID, step) => Some((if Tag(calls, n - 1).Some? then Tag(calls, n - 1).value.0 else startID as int, step as int))
  }

  /** Call `n` gets a range when it is a fetch after an `Init`, and the last step is positive and fits. */
  ghost predicate Served(calls: seq<Call>, n: nat)
    requires n < |calls|
    decreases n, 1
  {
    calls[n].Fetch? && Tag(calls, n).Some? &&
    var (start, step) := Tag(calls, n).value;
    step > 0 && start + HandedOut(calls, n) + step <= MaxInt64 as int
  }

  /** How many IDs the calls hand out together. */
  ghost function HandedOut(calls: seq<Call>, n: nat): int
    requires n <= |calls|
    decreases n, 0
  {
    if n == 0 then 0 else HandedOut(calls, n - 1) + if Served(calls, n - 1) then Tag(calls, n - 1).value.1 else 0
  }

  /** The row keeps the first start and the last step, and `max_id` is the start plus all IDs handed out. */
  lemma {:induction false} RowTells(calls: seq<Call>, n: nat)
    requires n <= |calls|
    ensures if Tag(calls, n).None? then RowAt(calls, n).None? && HandedOut(calls, n) == 0 else RowAt(calls, n).Some?
    ensures RowAt(calls, n).Some? ==>
              var r, (start, step) := RowAt(calls, n).value, Tag(calls, n).value;
              r.origin as int == start && r.maxID as int == start + HandedOut(calls, n) && r.step as int == step
  {
    if n > 0 {
      RowTells(calls, n - 1);
      AnswerExactly(RowAt(calls, n - 1));
    }
  }

  /** Whatever was called before: a fetch is served exactly when the tag exists and its last step is positive
      and fits, and it gets the `step` IDs that follow the start and all IDs handed out so far. */
  lemma FetchExactly(calls: seq<Call>, n: nat)
    requires n < |calls| && calls[n].Fetch?
    ensures Answer(RowAt(calls, n)).Got? <==> Served(calls, n)
    ensures Served(calls, n) ==>
              var s, (start, step) := Answer(RowAt(calls, n)).segment, Tag(calls, n).value;
              s.start as int == start + HandedOut(calls, n) + 1 && s.end as int == start + HandedOut(calls, n) + step == start + HandedOut(calls, n + 1)
  {
    RowTells(calls, n);
    RowTells(calls, n + 1);
    AnswerExactly(RowAt(calls, n));
    AnswerIsNext(RowAt(calls, n));
  }

  // ---------------------------------------------------------------- the two dialects

  /** Two's complement wrap-around of a 64-bit sum. */
  function Wrap64(x: int): int64 { ((x + 0x8000_0000_0000_0000) % 0x1_0000_0000_0000_0000 - 0x8000_0000_0000_0000) as int64 }

  /** The `step` IDs that end at `max_id`; only a `max_id` within `step` of the least int64 would wrap. */
  method MakeSegment(maxID: int64, step: int32) returns (r: Fetched)
    ensures r.Refused? <==> step <= 0
    ensures r.Refused? ==> r.error == InvalidConfig
    ensures r.Got? ==> r.segment.end == maxID && r.segment.current == r.segment.start
    ensures r.Got? && maxID as int - step as int >= -0x8000_0000_0000_0000 ==>
              r.segment.end as int - r.segment.start as int + 1 == step as int
  {
    if step <= 0 { return Refused(InvalidConfig); }
    var start := Wrap64(maxID as int - step as int + 1);
    r := Got(Segment(start, maxID, start));
  }

  /** `Init` replaces a step that is not positive. */
  function StepOrDefault(step: int32): (r: int32)
    ensures r > 0 && (step > 0 ==> r == step)
  {
    if step <= 0 then DefaultStep else step
  }

  class TagRow {
    var row: Option<Row>

    constructor ()
      ensures row == None
    {
      row := None;
    }

    /** `INSERT ... ON CONFLICT DO UPDATE SET step = EXCLUDED.step`. */
    method InitPostgreSQL(startID: int64, step: int32)
      modifies this
      ensures row == Initialised(old(row), startID, step)
    {
      var inserted := Row(startID, startID, step);
      if row.None? { row := Some(inserted); } else { row := Some(row.value.(step := inserted.step)); }
    }

    /** `SELECT ... FOR UPDATE`, then UPDATE or INSERT. */
    method InitMySQL(startID: int64, step: int32)
      modifies this
      ensures row == Initialised(old(row), startID, step)
    {
      match row
      case Some(r) => row := Some(Row(r.origin, r.maxID, step));
      case None => row := Some(Row(startID, startID, step));
    }

    /** `UPDATE ... SET max_id = max_id + step WHERE step > 0 RETURNING max_id, step`; the addition fails
        with a numeric overflow.  An update that matches no row is explained by a second query, which sees
        the row as it is `later`. */
    method FetchPostgreSQL(later: Option<Row>) returns (r: Fetched)
      modifies this
      ensures row == Advanced(old(row))
      ensures Answer(old(row)).Got? || Answer(old(row)) == Refused(IDOverflow) ==> r == Answer(old(row))
      ensures Answer(old(row)).Refused? ==> r.Refused? && (later == old(row) ==> r == Answer(old(row)))
    {
      if row.Some? && row.value.step > 0 {
        var sum := row.value.maxID as int + row.value.step as int;
        if sum > MaxInt64 as int { return Refused(IDOverflow); }
        row := Some(row.value.(maxID := sum as int64));
        r := MakeSegment(row.value.maxID, row.value.step);
        return;
      }
      if later.None? { return Refused(BizTagNotFound); }
      r := Refused(InvalidConfig);
    }

    /** `SELECT ... FOR UPDATE`, checks in the program, UPDATE, COMMIT. */
    method FetchMySQL() returns (r: Fetched)
      modifies this
      ensures row == Advanced(old(row)) && r == Answer(old(row))
    {
      if row.None? { return Refused(BizTagNotFound); }
      var maxID, step := row.value.maxID, row.value.step;
      if step <= 0 { return Refused(InvalidConfig); }
      if maxID > MaxInt64 - step as int64 { return Refused(IDOverflow); }
      var newMaxID := maxID + step as int64;
      row := Some(row.value.(maxID := newMaxID));
      r := MakeSegment(newMaxID, step);
    }
  }
}

/** The per-sheet row classifier and course builder of `convertData`
    (scripts/convert-data.js): it walks the decoded rows of one sheet with a
    cursor holding the course under construction, if any, and emits one flat
    course-section record per course header row. */
module Classifier {
  import opened Cells

  /** A decoded row; cells past its end read as `undefined`. */
  type Row = seq<Cell>

  /** `row[i]`. */
  function CellAt(row: Row, i: nat): Cell {
    if i < |row| then row[i] else Missing
  }

  /** One course section as read from a sheet, before merging. */
  datatype FlatRecord = FlatRecord(
    code: string,
    section: string,
    name: string,
    instructor: string,
    times: seq<string>,
    rooms: seq<string>)

  /** The `currentCourse` cursor: no course open, or the one being built. */
  datatype Cursor = None | Building(rec: FlatRecord)

  /** What a row means to the builder, in the builder's priority order. */
  datatype RowKind = Header | TimeRow | Terminator | Ignored

  /** `String(row[0] || '').trim()`: the code of a header row, the time of a time row. */
  function LeadCell(row: Row): string {
    Trim(ToStr(CellAt(row, 0)))
  }

  /** `String(row[1] || '').trim()`: the section of a header row, the room of a time row. */
  function SecondCell(row: Row): string {
    Trim(ToStr(CellAt(row, 1)))
  }

  /** `String(row[0] || '').toLowerCase()`, deliberately not trimmed. */
  function FirstCell(row: Row): string {
    LowerAscii(ToStr(CellAt(row, 0)))
  }

  predicate IsHeaderRow(row: Row) {
    IsCourseCode(LeadCell(row)) && Truthy(CellAt(row, 1))
  }

  predicate IsTimeRow(row: Row) {
    HasClockTime(LeadCell(row))
  }

  predicate IsTerminatorRow(row: Row) {
    var first := FirstCell(row);
    Includes(first, "course code") || Includes(first, "college requirement")
    || (first == "" && Truthy(CellAt(row, 1)))
  }

  /** The kind of a row, given whether a course is open: a header is
      recognised first and whatever the cursor holds; time rows and
      terminators only while a course is open. */
  function Classify(row: Row, cursor: Cursor): (k: RowKind)
    ensures k == Header <==> IsHeaderRow(row)
    ensures k == TimeRow <==> cursor.Building? && !IsHeaderRow(row) && IsTimeRow(row)
    ensures k == Terminator <==>
              cursor.Building? && !IsHeaderRow(row) && !IsTimeRow(row) && IsTerminatorRow(row)
    ensures cursor.None? ==> k in {Header, Ignored}
  {
    if IsHeaderRow(row) then Header
    else if cursor.None? then Ignored
    else if IsTimeRow(row) then TimeRow
    else if IsTerminatorRow(row) then Terminator
    else Ignored
  }

  /** Cell 0 is lower-cased but not trimmed for the terminator test: a cell of
      spaces alone is not empty, so such a row neither ends the open course
      nor adds to it, whatever cell 1 holds. */
  lemma SpacesCellNotTerminator(row: Row, rec: FlatRecord)
    requires CellAt(row, 0).Text? && CellAt(row, 0).s != ""
    requires forall k | 0 <= k < |CellAt(row, 0).s| :: IsSpace(CellAt(row, 0).s[k])
    ensures Classify(row, Building(rec)) == Ignored
  {
    var s := CellAt(row, 0).s;
    TrimAllSpace(s);
    var first := FirstCell(row);
    assert forall k | 0 <= k < |first| :: first[k] == s[k];
    SpacesExclude(first, "course code");
    SpacesExclude(first, "college requirement");
  }

  /** The record a header row opens: code, section, name and instructor from
      cells 0, 1, 2 and 4 (cell 3, the credits, is not kept). */
  function OpenRecord(row: Row): (r: FlatRecord)
    ensures r.times == [] && r.rooms == []
  {
    FlatRecord(LeadCell(row), SecondCell(row), Trim(ToStr(CellAt(row, 2))),
               Trim(ToStr(CellAt(row, 4))), [], [])
  }

  /** Cell 1 is tested for truthiness before it is trimmed: a section cell
      of spaces alone still makes a header, whose record has an empty section. */
  lemma BlankSectionHeader(row: Row)
    requires IsCourseCode(LeadCell(row))
    requires CellAt(row, 1).Text? && CellAt(row, 1).s != ""
    requires forall k | 0 <= k < |CellAt(row, 1).s| :: IsSpace(CellAt(row, 1).s[k])
    ensures IsHeaderRow(row) && OpenRecord(row).section == ""
  {
    TrimAllSpace(CellAt(row, 1).s);
  }

  /** The open record after a time row. */
  function AddTime(rec: FlatRecord, row: Row): (r: FlatRecord)
    ensures r.times == rec.times + [LeadCell(row)]
    ensures r.rooms == rec.rooms + (if SecondCell(row) != "" then [SecondCell(row)] else [])
    ensures r.(times := [], rooms := []) == rec.(times := [], rooms := [])
  {
    var rooms := if SecondCell(row) != "" then rec.rooms + [SecondCell(row)] else rec.rooms;
    rec.(times := rec.times + [LeadCell(row)], rooms := rooms)
  }

  /** The builder's state between two rows: the cursor and what has been emitted. */
  datatype Scan = Scan(cursor: Cursor, out: seq<FlatRecord>)

  /** What sealing the cursor emits: the open record, if any. */
  function Sealed(cursor: Cursor): (r: seq<FlatRecord>)
    ensures |r| <= 1
    ensures r == [] <==> cursor.None?
  {
    match cursor
    case None => []
    case Building(rec) => [rec]
  }

  /** One iteration of the row loop. */
  function Step(st: Scan, row: Row): (st': Scan)
    // a header seals the open record, if any, before opening its own
    ensures Classify(row, st.cursor) == Header ==>
              st'.out == st.out + Sealed(st.cursor) && st'.cursor == Building(OpenRecord(row))
    // a time row grows the open record and emits nothing
    ensures Classify(row, st.cursor) == TimeRow ==>
              st'.out == st.out && st'.cursor == Building(AddTime(st.cursor.rec, row))
    // a terminator seals the open record and leaves no course open
    ensures Classify(row, st.cursor) == Terminator ==>
              st'.out == st.out + [st.cursor.rec] && st'.cursor == None
    // anything else changes nothing
    ensures Classify(row, st.cursor) == Ignored ==> st' == st
  {
    match Classify(row, st.cursor)
    case Header => Scan(Building(OpenRecord(row)), st.out + Sealed(st.cursor))
    case TimeRow => Scan(Building(AddTime(st.cursor.rec, row)), st.out)
    case Terminator => Scan(None, st.out + [st.cursor.rec])
    case Ignored => st
  }

  /** The state after the loop has run over `rows`, starting from `st`. */
  function RunFrom(st: Scan, rows: seq<Row>): Scan
    decreases |rows|
  {
    if rows == [] then st else Step(RunFrom(st, rows[..|rows| - 1]), rows[|rows| - 1])
  }

  /** Each sheet starts with no course open and nothing emitted. */
  const Start := Scan(None, [])

  /** The records one sheet contributes: what the loop emits, then the record
      still open at the end of the sheet. An empty sheet contributes nothing. */
  function BuildSheet(rows: seq<Row>): seq<FlatRecord> {
    var st := RunFrom(Start, rows);
    st.out + Sealed(st.cursor)
  }

  /** The flat records of the sheets read, one per workbook, sheet after sheet. */
  function AllRecords(sheets: seq<seq<Row>>): seq<FlatRecord>
    decreases |sheets|
  {
    if sheets == [] then []
    else AllRecords(sheets[..|sheets| - 1]) + BuildSheet(sheets[|sheets| - 1])
  }

  /** The classifier loop over one sheet. `allCourses` is the list accumulated
      over the sheets processed before; the cursor starts empty for each sheet. */
  method ConvertSheet(rows: seq<Row>, allCourses: seq<FlatRecord>) returns (result: seq<FlatRecord>)
    ensures result == allCourses + BuildSheet(rows)
  {
    if |rows| == 0 {
      return allCourses;
    }
    var currentCourse: Cursor := None;
    var pushed: seq<FlatRecord> := [];
    var i := 0;
    while i < |rows|
      invariant 0 <= i <= |rows|
      invariant Scan(currentCourse, pushed) == RunFrom(Start, rows[..i])
    {
      RunFromSnoc(rows, i);
      var row := rows[i];
      match Classify(row, currentCourse) {
        case Header =>
          if currentCourse.Building? {
            pushed := pushed + [currentCourse.rec];
          }
          currentCourse := Building(OpenRecord(row));
        case TimeRow =>
          var course := currentCourse.rec;
          var timeStr, roomStr := LeadCell(row), SecondCell(row);
          course := course.(times := course.times + [timeStr]);
          if roomStr != "" {
            course := course.(rooms := course.rooms + [roomStr]);
          }
          currentCourse := Building(course);
        case Terminator =>
          pushed := pushed + [currentCourse.rec];
          currentCourse := None;
        case Ignored =>
      }
      i := i + 1;
    }
    assert rows[..i] == rows;
    // push the last one
    if currentCourse.Building? {
      pushed := pushed + [currentCourse.rec];
    }
    result := allCourses + pushed;
  }

  // ----- Properties of the builder -----

  lemma RunFromSnoc(rows: seq<Row>, i: nat)
    requires i < |rows|
    ensures RunFrom(Start, rows[..i + 1]) == Step(RunFrom(Start, rows[..i]), rows[i])
  {
    assert rows[..i + 1][..i] == rows[..i];
  }

  /** The loop over `a + b` is the loop over `a`, then the loop over `b`. */
  lemma {:induction false} RunFromAppend(st: Scan, a: seq<Row>, b: seq<Row>)
    ensures RunFrom(st, a + b) == RunFrom(RunFrom(st, a), b)
    decreases |b|
  {
    if b == [] {
      assert a + b == a;
    } else {
      assert (a + b)[..|a + b| - 1] == a + b[..|b| - 1];
      RunFromAppend(st, a, b[..|b| - 1]);
    }
  }

  /** A record with its times and rooms cleared: what its header row alone decides. */
  function Heading(rec: FlatRecord): FlatRecord {
    rec.(times := [], rooms := [])
  }

  /** The headings of a list of records, in order. */
  function Headings(recs: seq<FlatRecord>): (r: seq<FlatRecord>)
    ensures |r| == |recs|
    decreases |recs|
  {
    if recs == [] then [] else Headings(recs[..|recs| - 1]) + [Heading(recs[|recs| - 1])]
  }

  /** The records opened by the header rows of `rows`, in row order. */
  function HeaderRecords(rows: seq<Row>): seq<FlatRecord>
    decreases |rows|
  {
    if rows == [] then []
    else
      var last := rows[|rows| - 1];
      HeaderRecords(rows[..|rows| - 1]) + (if IsHeaderRow(last) then [OpenRecord(last)] else [])
  }

  lemma {:induction false} HeadingsAppend(a: seq<FlatRecord>, b: seq<FlatRecord>)
    ensures Headings(a + b) == Headings(a) + Headings(b)
    decreases |b|
  {
    if b == [] {
      assert a + b == a;
    } else {
      assert (a + b)[..|a + b| - 1] == a + b[..|b| - 1];
      HeadingsAppend(a, b[..|b| - 1]);
    }
  }

  /** One step adds to the headings of the emitted and open records exactly
      the record the row opens, if it is a header. */
  lemma StepHeadings(st: Scan, row: Row)
    ensures var st' := Step(st, row);
            Headings(st'.out + Sealed(st'.cursor))
            == Headings(st.out + Sealed(st.cursor)) + (if IsHeaderRow(row) then [OpenRecord(row)] else [])
  {
    var st' := Step(st, row);
    var k := Classify(row, st.cursor);
    if k == Header {
      assert st'.out + Sealed(st'.cursor) == (st.out + Sealed(st.cursor)) + [OpenRecord(row)];
      HeadingsAppend(st.out + Sealed(st.cursor), [OpenRecord(row)]);
      var rec := OpenRecord(row);
      assert Heading(rec) == rec;
      assert Headings([rec]) == [rec];
    } else if k == TimeRow {
      var rec := st.cursor.rec;
      var rec' := AddTime(rec, row);
      assert Sealed(st'.cursor) == [rec'];
      HeadingsAppend(st.out, [rec]);
      HeadingsAppend(st.out, [rec']);
      assert Headings([rec]) == Headings([rec']);
    } else if k == Terminator {
      assert st'.out + Sealed(st'.cursor) == st.out + Sealed(st.cursor);
    }
  }

  /** The records emitted so far, followed by the open one, are exactly the
      records opened by the header rows seen so far, each grown only by its
      times and rooms. */
  lemma {:induction false} RunFromHeadings(rows: seq<Row>)
    ensures var st := RunFrom(Start, rows);
            Headings(st.out + Sealed(st.cursor)) == HeaderRecords(rows)
    decreases |rows|
  {
    if rows != [] {
      RunFromHeadings(rows[..|rows| - 1]);
      StepHeadings(RunFrom(Start, rows[..|rows| - 1]), rows[|rows| - 1]);
    }
  }

  /** Each header row of a sheet yields exactly one record, in header order,
      carrying that header's code, section, name and instructor; no other row
      yields one. So a sheet emits as many records as it has header rows. */
  lemma RecordsFollowHeaders(rows: seq<Row>)
    ensures Headings(BuildSheet(rows)) == HeaderRecords(rows)
    ensures |BuildSheet(rows)| == |HeaderRecords(rows)|
  {
    RunFromHeadings(rows);
  }

  /** What every emitted or open record satisfies: its code is a course code,
      each time contains a clock time, each room is non-empty, and there are
      never more rooms than times. */
  predicate WellFormed(rec: FlatRecord) {
    && IsCourseCode(rec.code)
    && |rec.rooms| <= |rec.times|
    && (forall k | 0 <= k < |rec.times| :: HasClockTime(rec.times[k]))
    && (forall k | 0 <= k < |rec.rooms| :: rec.rooms[k] != "")
  }

  predicate AllWellFormed(recs: seq<FlatRecord>) {
    forall k | 0 <= k < |recs| :: WellFormed(recs[k])
  }

  lemma AllWellFormedAppend(a: seq<FlatRecord>, b: seq<FlatRecord>)
    ensures AllWellFormed(a + b) <==> AllWellFormed(a) && AllWellFormed(b)
  {
    if AllWellFormed(a + b) {
      assert forall k | 0 <= k < |a| :: (a + b)[k] == a[k];
      assert forall k | 0 <= k < |b| :: (a + b)[|a| + k] == b[k];
    }
  }

  /** A time row keeps the open record well formed. */
  lemma AddTimeWellFormed(rec: FlatRecord, row: Row)
    requires WellFormed(rec) && IsTimeRow(row)
    ensures WellFormed(AddTime(rec, row))
  {
  }

  /** Every record emitted so far, and the open one, is well formed. */
  predicate ScanWellFormed(st: Scan) {
    AllWellFormed(st.out) && (st.cursor.Building? ==> WellFormed(st.cursor.rec))
  }

  /** One step keeps every record well formed. */
  lemma StepWellFormed(st: Scan, row: Row)
    requires ScanWellFormed(st)
    ensures ScanWellFormed(Step(st, row))
  {
    var k := Classify(row, st.cursor);
    if k == Header {
      AllWellFormedAppend(st.out, Sealed(st.cursor));
      assert WellFormed(OpenRecord(row));
    } else if k == TimeRow {
      AddTimeWellFormed(st.cursor.rec, row);
    } else if k == Terminator {
      AllWellFormedAppend(st.out, [st.cursor.rec]);
    }
  }

  lemma {:induction false} RunFromWellFormed(rows: seq<Row>)
    ensures ScanWellFormed(RunFrom(Start, rows))
    decreases |rows|
  {
    if rows != [] {
      RunFromWellFormed(rows[..|rows| - 1]);
      StepWellFormed(RunFrom(Start, rows[..|rows| - 1]), rows[|rows| - 1]);
    }
  }

  /** Every record of a sheet has a course code and at most as many rooms as
      times; its times all contain a clock time and its rooms are non-empty. */
  lemma SheetWellFormed(rows: seq<Row>)
    ensures AllWellFormed(BuildSheet(rows))
  {
    RunFromWellFormed(rows);
    var st := RunFrom(Start, rows);
    AllWellFormedAppend(st.out, Sealed(st.cursor));
  }

  lemma {:induction false} AllRecordsWellFormed(sheets: seq<seq<Row>>)
    ensures AllWellFormed(AllRecords(sheets))
    decreases |sheets|
  {
    if sheets != [] {
      AllRecordsWellFormed(sheets[..|sheets| - 1]);
      SheetWellFormed(sheets[|sheets| - 1]);
      AllWellFormedAppend(AllRecords(sheets[..|sheets| - 1]), BuildSheet(sheets[|sheets| - 1]));
    }
  }

  /** With no course open, rows that are not headers change nothing. */
  lemma {:induction false} IdleUntilHeader(st: Scan, rows: seq<Row>)
    requires st.cursor.None?
    requires forall k | 0 <= k < |rows| :: !IsHeaderRow(rows[k])
    ensures RunFrom(st, rows) == st
    decreases |rows|
  {
    if rows != [] {
      IdleUntilHeader(st, rows[..|rows| - 1]);
    }
  }

  /** After a terminator no course is open, and every row up to the next
      header is ignored: the terminated record is the last thing emitted. */
  lemma TerminatorThenIgnored(st: Scan, row: Row, rest: seq<Row>)
    requires Classify(row, st.cursor) == Terminator
    requires forall k | 0 <= k < |rest| :: !IsHeaderRow(rest[k])
    ensures RunFrom(st, [row] + rest) == Scan(None, st.out + [st.cursor.rec])
  {
    RunFromAppend(st, [row], rest);
    assert RunFrom(st, [row]) == Step(st, row) by {
      assert [row][..0] == [];
    }
    IdleUntilHeader(Step(st, row), rest);
  }
}

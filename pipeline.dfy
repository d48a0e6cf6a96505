/** `convertData` (scripts/convert-data.js) without its file handling: the
    decoded rows of the first sheet of each workbook, in file order, go
    through the row classifier, all their records into one list, and that
    list through `processCourses`. The other sheets of a workbook are never
    read. */
module Pipeline {
  import opened Cells
  import opened Classifier
  import opened JsObject
  import opened Aggregator

  /** The conversion into the course list that is written out as JSON;
      `sheets` holds the first sheet of each workbook, in file order. */
  method ConvertData(sheets: seq<seq<Row>>) returns (processedData: seq<Course>)
    ensures processedData == Project(Aggregate(AllRecords(sheets)))
    // one course per distinct code, in the order the codes are first seen
    ensures |processedData| == |FirstSeen(AllRecords(sheets))|
    ensures forall i | 0 <= i < |processedData| ::
              processedData[i].id == FirstSeen(AllRecords(sheets))[i]
              && processedData[i].code == FirstSeen(AllRecords(sheets))[i]
  {
    var allCourses: seq<FlatRecord> := [];
    var i := 0;
    while i < |sheets|
      invariant 0 <= i <= |sheets|
      invariant allCourses == AllRecords(sheets[..i])
    {
      assert sheets[..i + 1][..i] == sheets[..i];
      allCourses := ConvertSheet(sheets[i], allCourses);
      i := i + 1;
    }
    assert sheets[..i] == sheets;
    processedData := ProcessCourses(allCourses);
    AllRecordsWellFormed(sheets);
    CoursesInFirstSeenOrder(allCourses);
  }
}

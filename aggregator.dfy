/** `processCourses` (scripts/convert-data.js): folds the flat records of the
    sheets read, the first of each workbook, into one object of courses keyed
    by code, each holding an object of sections keyed by section, then lists
    the courses with their sections in `Object.values` order. */
module Aggregator {
  import opened Cells
  import opened Classifier
  import opened JsObject

  /** A section of the output. `exam` is always empty: no input carries it. */
  datatype Section = Section(section: string, instructor: string, time: string, room: string, exam: string)

  /** A course while records are merged into it, with its temporary section map. */
  datatype CourseEntry = CourseEntry(id: string, code: string, name: string, sectionsMap: Obj<Section>)

  /** A course of the output: the section map replaced by its values. */
  datatype Course = Course(id: string, code: string, name: string, sections: seq<Section>)

  const TimeSep := " | "
  const RoomSep := " / "

  /** Every section is filed under its own identifier and has an empty exam. */
  ghost predicate ValidSections(sm: Obj<Section>) {
    Valid(sm) && forall s | s in sm.vals :: sm.vals[s].section == s && sm.vals[s].exam == ""
  }

  /** Every course is filed under its own code, which is also its id. */
  ghost predicate ValidCourses(m: Obj<CourseEntry>) {
    Valid(m) && forall c | c in m.vals :: ValidCourse(c, m.vals[c])
  }

  ghost predicate ValidCourse(c: string, e: CourseEntry) {
    e.id == c && e.code == c && ValidSections(e.sectionsMap)
  }

  /** `name || code` */
  function NameOrCode(r: FlatRecord): string {
    if r.name != "" then r.name else r.code
  }

  /** The section the first record of a `(code, section)` pair creates. */
  function NewSection(r: FlatRecord): Section {
    Section(r.section, r.instructor, Join(r.times, TimeSep), Join(r.rooms, RoomSep), "")
  }

  /** An existing section's `time` after a duplicate of it brings `timeStr`:
      appended after a separator when non-empty and not already contained. */
  function MergeTime(existing: string, timeStr: string): (t: string)
    ensures t != existing <==> timeStr != "" && !Includes(existing, timeStr)
    ensures timeStr != "" ==> Includes(t, timeStr)
    ensures existing <= t
  {
    if timeStr != "" && !Includes(existing, timeStr) then
      IncludesSelf(timeStr);
      IncludesConcat(existing + TimeSep, timeStr, timeStr);
      existing + TimeSep + timeStr
    else existing
  }

  /** A time merged into a section whose time is still empty (its first
      record had no time rows) comes out behind a leading separator. */
  lemma MergeTimeIntoEmpty(timeStr: string)
    requires timeStr != ""
    ensures MergeTime("", timeStr) == " | " + timeStr
  {
  }

  /** A different time, at least as long as everything merged so far, is
      always appended: it cannot be contained in a string no longer than it. */
  lemma MergeTimeAppends(existing: string, timeStr: string)
    requires timeStr != "" && timeStr != existing && |existing| <= |timeStr|
    ensures MergeTime(existing, timeStr) == existing + TimeSep + timeStr
  {
    forall i | 0 <= i <= |existing| - |timeStr|
      ensures !OccursAt(existing, timeStr, i)
    {
      assert existing[i..i + |timeStr|] == existing;
    }
  }

  /** The sections recorded so far for `code`. */
  function SectionsOf(m: Obj<CourseEntry>, code: string): (sm: Obj<Section>)
    requires ValidCourses(m)
    ensures ValidSections(sm)
  {
    if code in m.vals then m.vals[code].sectionsMap else Empty()
  }

  /** What one record does to the sections of its code: the first record of
      a `(code, section)` pair creates the section from its own fields; a
      duplicate changes that section's `time` alone, through `MergeTime`; the
      other sections stay as they were. */
  function MergeSection(sm: Obj<Section>, r: FlatRecord): (sm': Obj<Section>)
    requires ValidSections(sm)
    ensures ValidSections(sm')
    ensures sm'.keys == if r.section in sm.vals then sm.keys else sm.keys + [r.section]
    ensures r.section !in sm.vals ==> sm'.vals[r.section] == NewSection(r)
    ensures r.section in sm.vals ==>
              sm'.vals[r.section] == sm.vals[r.section].(time := MergeTime(sm.vals[r.section].time, Join(r.times, TimeSep)))
    ensures forall s | s in sm.vals && s != r.section :: sm'.vals[s] == sm.vals[s]
  {
    if r.section !in sm.vals then
      Put(sm, r.section, NewSection(r))
    else
      var existing := sm.vals[r.section];
      Put(sm, r.section, existing.(time := MergeTime(existing.time, Join(r.times, TimeSep))))
  }

  /** One iteration of the `forEach` over the flat records. */
  function AddRecord(m: Obj<CourseEntry>, r: FlatRecord): (m': Obj<CourseEntry>)
    requires ValidCourses(m)
    ensures ValidCourses(m')
    // a code gets its course the first time it is seen, at the end of the order
    ensures m'.keys == if r.code in m.vals then m.keys else m.keys + [r.code]
    // the courses of other codes are untouched
    ensures forall c | c in m.vals && c != r.code :: m'.vals[c] == m.vals[c]
    // the name is fixed by the first record of the code
    ensures m'.vals[r.code].name == if r.code in m.vals then m.vals[r.code].name else NameOrCode(r)
    // the sections of the code absorb the record
    ensures m'.vals[r.code].sectionsMap == MergeSection(SectionsOf(m, r.code), r)
  {
    var course := if r.code in m.vals then m.vals[r.code] else CourseEntry(r.code, r.code, NameOrCode(r), Empty());
    var course' := course.(sectionsMap := MergeSection(course.sectionsMap, r));
    PutValidCourse(m, r.code, course');
    Put(m, r.code, course')
  }

  lemma PutValidCourse(m: Obj<CourseEntry>, c: string, e: CourseEntry)
    requires ValidCourses(m) && ValidCourse(c, e)
    ensures ValidCourses(Put(m, c, e))
  {
    var m' := Put(m, c, e);
    forall c' | c' in m'.vals ensures ValidCourse(c', m'.vals[c']) {
      if c' != c {
        assert m'.vals[c'] == m.vals[c'];
      }
    }
  }

  /** The fold of `AddRecord` over the records, starting from `m`. */
  function AggregateFrom(m: Obj<CourseEntry>, flat: seq<FlatRecord>): (m': Obj<CourseEntry>)
    requires ValidCourses(m)
    ensures ValidCourses(m')
    decreases |flat|
  {
    if flat == [] then m else AddRecord(AggregateFrom(m, flat[..|flat| - 1]), flat[|flat| - 1])
  }

  lemma AggregateSnoc(flat: seq<FlatRecord>, i: nat)
    requires i < |flat|
    ensures Aggregate(flat[..i + 1]) == AddRecord(Aggregate(flat[..i]), flat[i])
  {
    assert flat[..i + 1][..i] == flat[..i];
  }

  /** The course map `processCourses` builds from `flatData`. */
  function Aggregate(flat: seq<FlatRecord>): (m: Obj<CourseEntry>)
    ensures ValidCourses(m)
  {
    AggregateFrom(Empty(), flat)
  }

  /** `Object.values(coursesMap).map(...)`: the courses, each with its sections. */
  function Project(m: Obj<CourseEntry>): (out: seq<Course>)
    requires ValidCourses(m)
    ensures |out| == |m.keys|
    ensures forall i | 0 <= i < |out| ::
              var c := OwnKeys(m)[i];
              c in m.vals && out[i].id == c && out[i].code == c && out[i].name == m.vals[c].name
              && out[i].sections == Values(m.vals[c].sectionsMap)
  {
    var courses := Values(m);
    seq(|courses|, i requires 0 <= i < |courses| =>
      var c := courses[i];
      Course(c.id, c.code, c.name, Values(c.sectionsMap)))
  }

  /** `processCourses(flatData)` */
  method ProcessCourses(flatData: seq<FlatRecord>) returns (courses: seq<Course>)
    ensures courses == Project(Aggregate(flatData))
  {
    var coursesMap: Obj<CourseEntry> := Empty();
    var i := 0;
    while i < |flatData|
      invariant 0 <= i <= |flatData|
      invariant coursesMap == Aggregate(flatData[..i])
    {
      AggregateSnoc(flatData, i);
      var row := flatData[i];
      if row.code !in coursesMap.vals {
        var entry := CourseEntry(row.code, row.code, NameOrCode(row), Empty());
        PutTwice(coursesMap, row.code, entry, entry.(sectionsMap := MergeSection(entry.sectionsMap, row)));
        coursesMap := Put(coursesMap, row.code, entry);
      }
      var course := coursesMap.vals[row.code];
      var timeStr := Join(row.times, TimeSep);
      var roomStr := Join(row.rooms, RoomSep);
      if row.section !in course.sectionsMap.vals {
        course := course.(sectionsMap := Put(course.sectionsMap, row.section,
          Section(row.section, row.instructor, timeStr, roomStr, "")));
      } else {
        var existing := course.sectionsMap.vals[row.section];
        if timeStr != "" && !Includes(existing.time, timeStr) {
          existing := existing.(time := existing.time + TimeSep + timeStr);
        }
        course := course.(sectionsMap := Put(course.sectionsMap, row.section, existing));
      }
      coursesMap := Put(coursesMap, row.code, course);
      i := i + 1;
    }
    assert flatData[..i] == flatData;
    courses := Project(coursesMap);
  }

  // ---------------------------------------------------------------------
  // What the aggregation keeps of every record

  /** The record's course and section exist in `m`, and the section's time
      contains the record's joined times. */
  ghost predicate Covered(m: Obj<CourseEntry>, r: FlatRecord) {
    && r.code in m.vals
    && r.section in m.vals[r.code].sectionsMap.vals
    && Includes(m.vals[r.code].sectionsMap.vals[r.section].time, Join(r.times, TimeSep))
  }

  /** After a record is added, it is covered. */
  lemma AddRecordCovers(m: Obj<CourseEntry>, r: FlatRecord)
    requires ValidCourses(m)
    ensures Covered(AddRecord(m, r), r)
  {
    var timeStr := Join(r.times, TimeSep);
    if timeStr == "" {
      IncludesEmpty(AddRecord(m, r).vals[r.code].sectionsMap.vals[r.section].time);
    } else if r.section !in SectionsOf(m, r.code).vals {
      IncludesSelf(timeStr);
    }
  }

  /** Adding a record never uncovers an earlier one: courses and sections are
      never removed and a section's time only grows at its end. */
  lemma AddRecordKeepsCovered(m: Obj<CourseEntry>, r: FlatRecord, q: FlatRecord)
    requires ValidCourses(m) && Covered(m, q)
    ensures Covered(AddRecord(m, r), q)
  {
    if q.code == r.code && q.section == r.section {
      var before := m.vals[q.code].sectionsMap.vals[q.section].time;
      var after := AddRecord(m, r).vals[q.code].sectionsMap.vals[q.section].time;
      assert after == MergeTime(before, Join(r.times, TimeSep));
      IncludesPrefix(before, after, Join(q.times, TimeSep));
    }
  }

  /** A record that is already covered changes nothing. */
  lemma CoveredUnchanged(m: Obj<CourseEntry>, r: FlatRecord)
    requires ValidCourses(m) && Covered(m, r)
    ensures AddRecord(m, r) == m
  {
    var course := m.vals[r.code];
    assert MergeSection(course.sectionsMap, r).vals == course.sectionsMap.vals;
    assert course.(sectionsMap := MergeSection(course.sectionsMap, r)) == course;
    assert m.vals[r.code := course] == m.vals;
  }

  /** Every record of the input is covered by the result. */
  lemma {:induction false} AggregateCovers(m: Obj<CourseEntry>, flat: seq<FlatRecord>, j: nat)
    requires ValidCourses(m) && j < |flat|
    ensures Covered(AggregateFrom(m, flat), flat[j])
    decreases |flat|
  {
    var init := flat[..|flat| - 1];
    if j == |flat| - 1 {
      AddRecordCovers(AggregateFrom(m, init), flat[j]);
    } else {
      AggregateCovers(m, init, j);
      AddRecordKeepsCovered(AggregateFrom(m, init), flat[|flat| - 1], flat[j]);
    }
  }

  /** Every time of every record appears in the `time` of its course's section:
      the merge drops no time slot. */
  lemma TimesNeverLost(flat: seq<FlatRecord>, j: nat, k: nat)
    requires j < |flat| && k < |flat[j].times|
    ensures var m := Aggregate(flat);
            && flat[j].code in m.vals
            && flat[j].section in m.vals[flat[j].code].sectionsMap.vals
            && Includes(m.vals[flat[j].code].sectionsMap.vals[flat[j].section].time, flat[j].times[k])
  {
    AggregateCovers(Empty(), flat, j);
    JoinIncludesParts(flat[j].times, TimeSep, k);
    var m := Aggregate(flat);
    IncludesTrans(m.vals[flat[j].code].sectionsMap.vals[flat[j].section].time, Join(flat[j].times, TimeSep), flat[j].times[k]);
  }

  /** Records that are all covered already change nothing. */
  lemma {:induction false} AggregateFromCovered(m: Obj<CourseEntry>, flat: seq<FlatRecord>)
    requires ValidCourses(m)
    requires forall j | 0 <= j < |flat| :: Covered(m, flat[j])
    ensures AggregateFrom(m, flat) == m
    decreases |flat|
  {
    if flat != [] {
      AggregateFromCovered(m, flat[..|flat| - 1]);
      CoveredUnchanged(m, flat[|flat| - 1]);
    }
  }

  lemma AggregateFromSnoc(m: Obj<CourseEntry>, s: seq<FlatRecord>, r: FlatRecord)
    requires ValidCourses(m)
    ensures AggregateFrom(m, s + [r]) == AddRecord(AggregateFrom(m, s), r)
  {
    assert (s + [r])[..|s|] == s;
  }

  /** Folding over a concatenation folds over its halves in turn. */
  lemma {:induction false} AggregateFromAppend(m: Obj<CourseEntry>, a: seq<FlatRecord>, b: seq<FlatRecord>)
    requires ValidCourses(m)
    ensures AggregateFrom(m, a + b) == AggregateFrom(AggregateFrom(m, a), b)
    decreases |b|
  {
    if b == [] {
      assert a + b == a;
    } else {
      var c := b[..|b| - 1];
      var r := b[|b| - 1];
      assert b == c + [r];
      assert a + b == (a + c) + [r];
      AggregateFromAppend(m, a, c);
      AggregateFromSnoc(m, a + c, r);
      AggregateFromSnoc(AggregateFrom(m, a), c, r);
    }
  }

  /** Feeding the same records in twice gives the same courses as once: a
      sheet read twice, or a file that repeats its sections, adds nothing. */
  lemma AggregateTwice(flat: seq<FlatRecord>)
    ensures Aggregate(flat + flat) == Aggregate(flat)
  {
    var m := Aggregate(flat);
    forall j | 0 <= j < |flat| ensures Covered(m, flat[j]) {
      AggregateCovers(Empty(), flat, j);
    }
    AggregateFromCovered(m, flat);
    AggregateFromAppend(Empty(), flat, flat);
  }

  // ---------------------------------------------------------------------
  // Which courses and sections exist, in which order, with which fields

  /** The codes of the records, in input order. */
  function Codes(flat: seq<FlatRecord>): (cs: seq<string>)
    ensures |cs| == |flat|
    ensures forall i | 0 <= i < |flat| :: cs[i] == flat[i].code
  {
    if flat == [] then [] else Codes(flat[..|flat| - 1]) + [flat[|flat| - 1].code]
  }

  /** The `(code, section)` pairs of the records, in input order. */
  function Pairs(flat: seq<FlatRecord>): (ps: seq<(string, string)>)
    ensures |ps| == |flat|
    ensures forall i | 0 <= i < |flat| :: ps[i] == (flat[i].code, flat[i].section)
  {
    if flat == [] then [] else Pairs(flat[..|flat| - 1]) + [(flat[|flat| - 1].code, flat[|flat| - 1].section)]
  }

  /** The distinct codes of the records, each where it first occurs. */
  function FirstSeen(flat: seq<FlatRecord>): (cs: seq<string>)
    ensures forall c :: c in cs <==> c in Codes(flat)
    ensures forall i, j | 0 <= i < j < |cs| :: cs[i] != cs[j]
  {
    if flat == [] then []
    else
      var init := flat[..|flat| - 1];
      var c := flat[|flat| - 1].code;
      assert Codes(flat) == Codes(init) + [c];
      if c in Codes(init) then FirstSeen(init) else FirstSeen(init) + [c]
  }

  /** The course map holds one course per distinct code, created in the
      order the codes are first seen. */
  lemma {:induction false} AggregateKeys(flat: seq<FlatRecord>)
    ensures Aggregate(flat).keys == FirstSeen(flat)
  {
    if flat != [] {
      var init := flat[..|flat| - 1];
      AggregateKeys(init);
      assert Codes(flat) == Codes(init) + [flat[|flat| - 1].code];
    }
  }

  /** Every section present in the result was named by some record of its code. */
  lemma {:induction false} SectionsFromRecords(flat: seq<FlatRecord>)
    ensures var m := Aggregate(flat);
            forall c, s | c in m.vals && s in m.vals[c].sectionsMap.vals :: (c, s) in Pairs(flat)
  {
    if flat != [] {
      var init := flat[..|flat| - 1];
      var r := flat[|flat| - 1];
      SectionsFromRecords(init);
      assert Pairs(flat) == Pairs(init) + [(r.code, r.section)];
      var m0 := Aggregate(init);
      var m := Aggregate(flat);
      assert m == AddRecord(m0, r);
      forall c, s | c in m.vals && s in m.vals[c].sectionsMap.vals ensures (c, s) in Pairs(flat) {
        if c != r.code {
          assert m.vals[c] == m0.vals[c];
          assert (c, s) in Pairs(init);
        } else if s != r.section {
          assert s in SectionsOf(m0, c).vals;
          assert (c, s) in Pairs(init);
        }
      }
    }
  }

  /** The name of a course is fixed by the first record of its code: that
      record's name, or the code when the name is empty. */
  lemma {:induction false} NameFromFirstRecord(flat: seq<FlatRecord>, i: nat)
    requires i < |flat| && flat[i].code !in Codes(flat[..i])
    ensures flat[i].code in Aggregate(flat).vals
    ensures Aggregate(flat).vals[flat[i].code].name == NameOrCode(flat[i])
  {
    var init := flat[..|flat| - 1];
    if i == |flat| - 1 {
      AggregateKeys(init);
      assert init == flat[..i];
    } else {
      assert init[..i] == flat[..i];
      NameFromFirstRecord(init, i);
    }
  }

  /** A later record keeps an existing section's instructor, room and exam,
      and only extends its time. */
  lemma AddRecordKeepsSection(m: Obj<CourseEntry>, r: FlatRecord, c: string, s: string)
    requires ValidCourses(m) && c in m.vals && s in m.vals[c].sectionsMap.vals
    ensures var m' := AddRecord(m, r);
            var before := m.vals[c].sectionsMap.vals[s];
            && c in m'.vals && s in m'.vals[c].sectionsMap.vals
            && m'.vals[c].sectionsMap.vals[s] == before.(time := m'.vals[c].sectionsMap.vals[s].time)
            && before.time <= m'.vals[c].sectionsMap.vals[s].time
  {
    if c == r.code {
      var sm := m.vals[c].sectionsMap;
      assert AddRecord(m, r).vals[c].sectionsMap == MergeSection(sm, r);
    }
  }

  /** The first record of a `(code, section)` pair creates the section: its
      instructor and joined rooms stay, its joined times start the section's
      time, and the exam is empty. */
  lemma {:induction false} FirstSectionFields(flat: seq<FlatRecord>, i: nat)
    requires i < |flat| && (flat[i].code, flat[i].section) !in Pairs(flat[..i])
    ensures var m := Aggregate(flat);
            && flat[i].code in m.vals && flat[i].section in m.vals[flat[i].code].sectionsMap.vals
            && var sec := m.vals[flat[i].code].sectionsMap.vals[flat[i].section];
               && sec.section == flat[i].section
               && sec.instructor == flat[i].instructor
               && sec.room == Join(flat[i].rooms, RoomSep)
               && Join(flat[i].times, TimeSep) <= sec.time
               && sec.exam == ""
  {
    var init := flat[..|flat| - 1];
    var r := flat[i];
    if i == |flat| - 1 {
      assert init == flat[..i];
      SectionsFromRecords(init);
    } else {
      assert init[..i] == flat[..i];
      FirstSectionFields(init, i);
      AddRecordKeepsSection(Aggregate(init), flat[|flat| - 1], r.code, r.section);
    }
  }

  /** `processCourses` lists one course per distinct code, in the order the
      codes are first seen, provided the codes are course codes: those start
      with a letter, so none of them is an array index that `Object.values`
      would move to the front. */
  lemma CoursesInFirstSeenOrder(flat: seq<FlatRecord>)
    requires forall j | 0 <= j < |flat| :: IsCourseCode(flat[j].code)
    ensures var out := Project(Aggregate(flat));
            && |out| == |FirstSeen(flat)|
            && forall i | 0 <= i < |out| :: out[i].id == FirstSeen(flat)[i] && out[i].code == FirstSeen(flat)[i]
  {
    var m := Aggregate(flat);
    AggregateKeys(flat);
    forall k | k in m.keys ensures !IsArrayIndex(k) {
      assert k in Codes(flat);
      var j :| 0 <= j < |flat| && Codes(flat)[j] == k;
      LetterKeyNotIndex(k);
    }
    OwnKeysCreationOrder(m);
  }

  /** The distinct sections of the records of code `c`, each where it first occurs. */
  function SectionsSeen(flat: seq<FlatRecord>, c: string): (ss: seq<string>)
    ensures forall s :: s in ss <==> (c, s) in Pairs(flat)
    ensures forall i, j | 0 <= i < j < |ss| :: ss[i] != ss[j]
  {
    if flat == [] then []
    else
      var init := flat[..|flat| - 1];
      var r := flat[|flat| - 1];
      assert Pairs(flat) == Pairs(init) + [(r.code, r.section)];
      if r.code == c && (c, r.section) !in Pairs(init) then SectionsSeen(init, c) + [r.section]
      else SectionsSeen(init, c)
  }

  /** A code's sections are created in the order they are first seen among
      the records of that code. */
  lemma {:induction false} SectionKeys(flat: seq<FlatRecord>, c: string)
    ensures SectionsOf(Aggregate(flat), c).keys == SectionsSeen(flat, c)
  {
    if flat != [] {
      var init := flat[..|flat| - 1];
      var r := flat[|flat| - 1];
      var m := Aggregate(init);
      SectionKeys(init, c);
      assert Pairs(flat) == Pairs(init) + [(r.code, r.section)];
      if r.code == c {
        SectionsFromRecords(init);
        if (c, r.section) in Pairs(init) {
          var j :| 0 <= j < |init| && Pairs(init)[j] == (c, r.section);
          AggregateCovers(Empty(), init, j);
        }
      }
    }
  }

  /** The sections of course `c` in the output: identifiers spelled as array
      indices (canonical decimals without a leading zero, so not "01") first,
      in ascending order, then the others in the order first seen; with no
      such identifier, simply the order first seen. */
  lemma SectionOrder(flat: seq<FlatRecord>, c: string)
    ensures var sm := SectionsOf(Aggregate(flat), c);
            && |OwnKeys(sm)| == |SectionsSeen(flat, c)|
            && |IndexKeys(SectionsSeen(flat, c))| <= |SectionsSeen(flat, c)|
            && IndexAscending(OwnKeys(sm)[..|IndexKeys(SectionsSeen(flat, c))|])
            && OwnKeys(sm)[|IndexKeys(SectionsSeen(flat, c))|..] == NamedKeys(SectionsSeen(flat, c))
            && ((forall s | s in SectionsSeen(flat, c) :: !IsArrayIndex(s)) ==> OwnKeys(sm) == SectionsSeen(flat, c))
  {
    var sm := SectionsOf(Aggregate(flat), c);
    SectionKeys(flat, c);
    OwnKeysOrder(sm);
    if forall s | s in SectionsSeen(flat, c) :: !IsArrayIndex(s) {
      OwnKeysCreationOrder(sm);
    }
  }

  // ---------------------------------------------------------------------
  // The lookups as written: `coursesMap` and `sectionsMap` are `{}` literals,
  // so a key that names an `Object.prototype` member reads an inherited,
  // truthy value even before anything was stored under it.

  /** The properties every `{}` inherits from `Object.prototype` in Node.js. */
  const PrototypeNames: set<string> := {
    "constructor", "__defineGetter__", "__defineSetter__", "hasOwnProperty",
    "__lookupGetter__", "__lookupSetter__", "isPrototypeOf", "propertyIsEnumerable",
    "toString", "valueOf", "__proto__", "toLocaleString"
  }

  /** How a record ends: the next state, or an uncaught `TypeError` that aborts
      the whole conversion. */
  datatype Outcome = Completed(m: Obj<CourseEntry>) | TypeError

  /** One iteration of the `forEach` as the source writes it, with `!obj[key]`
      true for an own entry and for an inherited member alike. An inherited
      course has no `sectionsMap`, so indexing it throws. An inherited section
      takes the duplicate branch: its `time` is `undefined`, so with a
      non-empty `timeStr` the `includes` call throws, and with an empty one
      nothing is stored and the record is silently dropped. */
  function AddRecordAsWritten(m: Obj<CourseEntry>, r: FlatRecord): (o: Outcome)
    requires ValidCourses(m)
    ensures o.Completed? ==> ValidCourses(o.m)
    ensures r.code !in m.vals && r.code in PrototypeNames ==> o.TypeError?
    ensures r.code in m.vals && r.section !in m.vals[r.code].sectionsMap.vals && r.section in PrototypeNames
            ==> o == (if Join(r.times, TimeSep) == "" then Completed(m) else TypeError)
    // whether or not the code was seen before, a new section with an inherited
    // name throws when the record has times, and is dropped when it has none
    ensures r.code !in PrototypeNames && r.section in PrototypeNames && r.section !in SectionsOf(m, r.code).vals ==>
              if Join(r.times, TimeSep) == "" then
                o.Completed? && r.code in o.m.vals && SectionsOf(o.m, r.code) == SectionsOf(m, r.code)
              else o.TypeError?
  {
    var timeStr := Join(r.times, TimeSep);
    if r.code !in m.vals && r.code in PrototypeNames then TypeError
    else
      var m1 := if r.code in m.vals then m else Put(m, r.code, CourseEntry(r.code, r.code, NameOrCode(r), Empty()));
      var course := m1.vals[r.code];
      if r.section !in course.sectionsMap.vals && r.section in PrototypeNames then
        if timeStr == "" then Completed(m1) else TypeError
      else
        Completed(Put(m1, r.code, course.(sectionsMap := MergeSection(course.sectionsMap, r))))
  }

  /** `processCourses` as written: the first `TypeError` ends the run. */
  function AggregateAsWritten(flat: seq<FlatRecord>): (o: Outcome)
    ensures o.Completed? ==> ValidCourses(o.m)
    decreases |flat|
  {
    if flat == [] then Completed(Empty())
    else match AggregateAsWritten(flat[..|flat| - 1])
      case TypeError => TypeError
      case Completed(m) => AddRecordAsWritten(m, flat[|flat| - 1])
  }

  /** Away from the inherited names, the lookups as written behave as own-key
      lookups and the two versions agree. */
  lemma AsWrittenAgrees(m: Obj<CourseEntry>, r: FlatRecord)
    requires ValidCourses(m) && r.code !in PrototypeNames && r.section !in PrototypeNames
    ensures AddRecordAsWritten(m, r) == Completed(AddRecord(m, r))
  {
    if r.code !in m.vals {
      var e := CourseEntry(r.code, r.code, NameOrCode(r), Empty());
      PutTwice(m, r.code, e, e.(sectionsMap := MergeSection(e.sectionsMap, r)));
    }
  }

  /** The same for a whole input. */
  lemma {:induction false} AggregateAsWrittenAgrees(flat: seq<FlatRecord>)
    requires forall j | 0 <= j < |flat| :: flat[j].code !in PrototypeNames && flat[j].section !in PrototypeNames
    ensures AggregateAsWritten(flat) == Completed(Aggregate(flat))
  {
    if flat != [] {
      var init := flat[..|flat| - 1];
      AggregateAsWrittenAgrees(init);
      AsWrittenAgrees(Aggregate(init), flat[|flat| - 1]);
    }
  }

  /** A record of section "constructor" with a time slot throws as written;
      the own-key lookup files it as an ordinary section. */
  lemma ConstructorSectionThrows()
    ensures var r := FlatRecord("BSCR3001", "constructor", "Entrepreneurship", "N. Al Kharousi", ["MON 13:00-13:50"], ["T/T002"]);
            && AggregateAsWritten([r]).TypeError?
            && Aggregate([r]).vals["BSCR3001"].sectionsMap.vals["constructor"].time == "MON 13:00-13:50"
  {
    var r := FlatRecord("BSCR3001", "constructor", "Entrepreneurship", "N. Al Kharousi", ["MON 13:00-13:50"], ["T/T002"]);
    assert [r][..0] == [];
    assert "constructor" in PrototypeNames;
  }

  /** A record of section "toString" without time slots vanishes as written;
      the own-key lookup keeps it. */
  lemma ToStringSectionDropped()
    ensures var r := FlatRecord("BSCR3001", "toString", "Entrepreneurship", "N. Al Kharousi", [], []);
            && AggregateAsWritten([r]).Completed?
            && "toString" !in AggregateAsWritten([r]).m.vals["BSCR3001"].sectionsMap.vals
            && "toString" in Aggregate([r]).vals["BSCR3001"].sectionsMap.vals
  {
    var r := FlatRecord("BSCR3001", "toString", "Entrepreneurship", "N. Al Kharousi", [], []);
    assert [r][..0] == [];
    assert "toString" in PrototypeNames;
  }
}


/**
 * The admin course dashboard: the course list with its loading and error
 * views, the confirmed delete that drops the deleted course from the list,
 * and the status badge colour and tooltip of each row.
 */
module CourseDashboard {
  import opened Wrappers
  import opened Sequences

  /** The fields of a listed course the dashboard's logic reads. */
  datatype CourseRow = CourseRow(uuid: string, title: string, status: string)

  /** `courses.filter((course) => course.uuid !== uuid)`. */
  function RemoveCourse(courses: seq<CourseRow>, uuid: string): seq<CourseRow> {
    Filter(courses, (c: CourseRow) => c.uuid != uuid)
  }

  /** How many listed rows carry the uuid. */
  function RowsWithUuid(courses: seq<CourseRow>, uuid: string): nat {
    if courses == [] then 0
    else (if courses[0].uuid == uuid then 1 else 0) + RowsWithUuid(courses[1..], uuid)
  }

  /** The removal drops exactly the rows that carry the uuid. */
  lemma {:induction false} RemoveCourseLength(courses: seq<CourseRow>, uuid: string)
    ensures |RemoveCourse(courses, uuid)| == |courses| - RowsWithUuid(courses, uuid)
  {
    if courses != [] {
      RemoveCourseLength(courses[1..], uuid);
    }
  }

  /**
   * After the removal no course has the deleted uuid, every course with
   * another uuid is still there, the survivors keep their order, and
   * exactly the rows with the uuid are gone.
   */
  lemma {:induction false} RemoveCourseSpec(courses: seq<CourseRow>, uuid: string)
    ensures forall c :: c in RemoveCourse(courses, uuid) ==> c.uuid != uuid
    ensures |RemoveCourse(courses, uuid)| == |courses| - RowsWithUuid(courses, uuid)
    ensures forall c :: c in courses && c.uuid != uuid ==> c in RemoveCourse(courses, uuid)
    ensures IsSubsequence(RemoveCourse(courses, uuid), courses)
    ensures (forall c :: c in courses ==> c.uuid != uuid) ==> RemoveCourse(courses, uuid) == courses
  {
    RemoveCourseLength(courses, uuid);
    if forall c :: c in courses ==> c.uuid != uuid {
      assert forall i :: 0 <= i < |courses| ==> courses[i] in courses;
      FilterKeepsAll(courses, (c: CourseRow) => c.uuid != uuid);
    }
  }

  /** Deleting the same course twice leaves the list as deleting it once. */
  lemma RemoveCourseTwice(courses: seq<CourseRow>, uuid: string)
    ensures RemoveCourse(RemoveCourse(courses, uuid), uuid) == RemoveCourse(courses, uuid)
  {
    FilterIdempotent(courses, (c: CourseRow) => c.uuid != uuid);
  }

  /** `'abc'.toLowerCase()` on the letters A to Z; other characters are kept. */
  function AsciiLower(s: string): (r: string)
    ensures |r| == |s|
    ensures forall i :: 0 <= i < |s| ==> r[i] == (if 'A' <= s[i] <= 'Z' then (s[i] as int + 32) as char else s[i])
  {
    seq(|s|, i requires 0 <= i < |s| => if 'A' <= s[i] <= 'Z' then (s[i] as int + 32) as char else s[i])
  }

  const Yellow: string := "bg-yellow-100 text-yellow-800"
  const Green: string := "bg-green-100 text-green-800"
  const Gray: string := "bg-gray-100 text-gray-800"

  /** `statusColors[status.toLowerCase()] || 'bg-gray-100 text-gray-800'`. */
  function StatusClass(status: string): (cls: string)
    ensures cls in {Yellow, Green, Gray}
    ensures cls == Yellow <==> AsciiLower(status) == "draft"
    ensures cls == Green <==> AsciiLower(status) == "published"
  {
    var key := AsciiLower(status);
    if key == "draft" then Yellow
    else if key == "published" then Green
    else if key == "temp" then Gray
    else Gray
  }

  /**
   * The tooltip label: the `&&`/`||` chain on exact, case-sensitive
   * comparisons, which yields `false` (None) for any other status.
   */
  function Tooltip(status: string): (tip: Option<string>)
    ensures tip.Some? <==> status in {"published", "temp", "draft"}
  {
    if status == "published" then Some("All employees can view this course.")
    else if status == "temp" then Some("This course is being worked, will be removed after a period of time as passed.")
    else if status == "draft" then Some("Only admins and the owner can view this course.")
    else None
  }

  /**
   * The badge ignores case but the tooltip does not: a status the tooltip
   * explains always gets its own colour, yet `Draft` is coloured as a draft
   * and has no tooltip.
   */
  lemma BadgeAndTooltipDisagreeOnCase()
    ensures forall s :: s in {"published", "draft"} ==> Tooltip(s).Some? && StatusClass(s) != Gray
    ensures StatusClass("Draft") == Yellow && Tooltip("Draft") == None
  {
    assert AsciiLower("Draft") == "draft";
    assert AsciiLower("draft") == "draft";
    assert AsciiLower("published") == "published";
  }

  datatype TableView = Loading | Error(message: string) | NoCourses | Table(rows: seq<CourseRow>)

  /** What `CourseTable` renders: the spinner, the error, the empty message or the table. */
  function View(loading: bool, error: Option<string>, courses: seq<CourseRow>): (v: TableView)
    ensures v == Loading <==> loading
    ensures v.Error? <==> !loading && error.Some? && error.value != ""
    ensures v == NoCourses <==> !loading && (error.None? || error.value == "") && courses == []
    ensures v.Table? ==> v.rows == courses && |courses| > 0
  {
    if loading then Loading
    else if error.Some? && error.value != "" then Error(error.value)
    else if |courses| == 0 then NoCourses
    else Table(courses)
  }

  datatype Choice = Yes | No

  const LoadFailed: string := "Failed to load courses. Please try again later."

  /** `CourseTable`'s state. */
  class CourseTable {
    var courses: seq<CourseRow>
    var loading: bool
    var error: Option<string>

    constructor ()
      ensures courses == [] && loading && error == None
    {
      courses := [];
      loading := true;
      error := None;
    }

    /** The course fetch settles: the list on success, the error message on failure; loading ends either way. */
    method FetchSettled(response: Option<seq<CourseRow>>)
      modifies this
      ensures !loading
      ensures response.Some? ==> courses == response.value && error == old(error)
      ensures response.None? ==> courses == old(courses) && error == Some(LoadFailed)
    {
      if response.Some? {
        courses := response.value;
      } else {
        error := Some(LoadFailed);
      }
      loading := false;
    }

    /**
     * `handleDelete`: on Yes the delete request is made, and only when it
     * succeeds is the course dropped from the list; No does nothing.
     */
    method HandleDelete(uuid: string, choice: Choice, deleteSucceeded: bool)
      modifies this
      ensures choice == Yes && deleteSucceeded ==> courses == RemoveCourse(old(courses), uuid)
      ensures choice == No || !deleteSucceeded ==> courses == old(courses)
      ensures loading == old(loading) && error == old(error)
    {
      if choice == Yes && deleteSucceeded {
        courses := RemoveCourse(courses, uuid);
      }
    }
  }

  /** Deleting the only course of the list leaves the "No courses found" message. */
  method DeleteOnlyCourse(c: CourseRow)
  {
    var t := new CourseTable();
    t.FetchSettled(Some([c]));
    t.HandleDelete(c.uuid, Yes, true);
    RemoveCourseSpec([c], c.uuid);
    assert [c][1..] == [];
    assert t.courses == [];
    assert View(t.loading, t.error, t.courses) == NoCourses;
  }
}

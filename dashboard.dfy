/**
 * The recent-activity feed of src/controllers/dashboard.js: the latest students,
 * lecturers and grades (the three queries are inputs) become uniform activity
 * records, sorted newest first, of which the first ten are returned. Timestamps
 * are integers.
 */
module Dashboard {
  import opened Wrappers
  import opened JsText

  datatype StudentRow = StudentRow(fullname: string, created_at: int)
  /** A lecturer with the `created_at` of the joined user row. */
  datatype LecturerRow = LecturerRow(fullname: string, user_created_at: int)
  /** A grade with the `fullname` of the joined student row. */
  datatype GradeRow = GradeRow(final_score: Value, date_taken: int, student_fullname: string)

  datatype Activity = Activity(
    kind: string, title: string, description: string, timestamp: int, icon: string, color: string)

  /** One query's outcome: its rows (`data` may be null) or its error's message. */
  datatype Fetch<T> = Fetched(data: Option<seq<T>>) | FetchError(message: string)

  const Limit: nat := 10

  function StudentActivity(s: StudentRow): Activity {
    Activity("student_registration", "New student registration", s.fullname + " registered",
             s.created_at, "user", "blue")
  }

  function LecturerActivity(l: LecturerRow): Activity {
    Activity("lecturer_registration", "New lecturer joined", l.fullname + " registered",
             l.user_created_at, "teacher", "green")
  }

  function GradeActivity(g: GradeRow): Activity {
    Activity("grade_submitted", "Grade submitted", g.student_fullname + " scored " + Text(g.final_score),
             g.date_taken, "grade", "yellow")
  }

  function Rows<T>(data: Option<seq<T>>): seq<T> {
    if data.Some? then data.value else []
  }

  /** The activity the loops push at position `k`: students, then lecturers, then grades. */
  function PushedAt(ss: seq<StudentRow>, ls: seq<LecturerRow>, gs: seq<GradeRow>, k: nat): Activity
    requires k < |ss| + |ls| + |gs|
  {
    if k < |ss| then StudentActivity(ss[k])
    else if k < |ss| + |ls| then LecturerActivity(ls[k - |ss|])
    else GradeActivity(gs[k - |ss| - |ls|])
  }

  /**
   * The three `forEach`/`push` loops: students first, then lecturers, then grades,
   * each in query order.
   */
  method BuildActivities(students: Option<seq<StudentRow>>, lecturers: Option<seq<LecturerRow>>,
                         grades: Option<seq<GradeRow>>)
    returns (activities: seq<Activity>)
    ensures var ss, ls, gs := Rows(students), Rows(lecturers), Rows(grades);
      && |activities| == |ss| + |ls| + |gs|
      && (forall i :: 0 <= i < |ss| ==> activities[i] == StudentActivity(ss[i]))
      && (forall i :: 0 <= i < |ls| ==> activities[|ss| + i] == LecturerActivity(ls[i]))
      && (forall i :: 0 <= i < |gs| ==> activities[|ss| + |ls| + i] == GradeActivity(gs[i]))
  {
    var ss, ls, gs := Rows(students), Rows(lecturers), Rows(grades);
    activities := [];
    var i := 0;
    while i < |ss|
      invariant 0 <= i <= |ss| && |activities| == i
      invariant forall k :: 0 <= k < |activities| ==> activities[k] == PushedAt(ss, ls, gs, k)
    {
      activities := activities + [StudentActivity(ss[i])];
      i := i + 1;
    }
    i := 0;
    while i < |ls|
      invariant 0 <= i <= |ls| && |activities| == |ss| + i
      invariant forall k :: 0 <= k < |activities| ==> activities[k] == PushedAt(ss, ls, gs, k)
    {
      activities := activities + [LecturerActivity(ls[i])];
      i := i + 1;
    }
    i := 0;
    while i < |gs|
      invariant 0 <= i <= |gs| && |activities| == |ss| + |ls| + i
      invariant forall k :: 0 <= k < |activities| ==> activities[k] == PushedAt(ss, ls, gs, k)
    {
      activities := activities + [GradeActivity(gs[i])];
      i := i + 1;
    }
  }

  /** Every activity the three loops build, in push order. */
  function Built(students: Option<seq<StudentRow>>, lecturers: Option<seq<LecturerRow>>,
                 grades: Option<seq<GradeRow>>): (r: seq<Activity>)
    ensures var ss, ls, gs := Rows(students), Rows(lecturers), Rows(grades);
      && |r| == |ss| + |ls| + |gs|
      && (forall i :: 0 <= i < |ss| ==> r[i] == StudentActivity(ss[i]))
      && (forall i :: 0 <= i < |ls| ==> r[|ss| + i] == LecturerActivity(ls[i]))
      && (forall i :: 0 <= i < |gs| ==> r[|ss| + |ls| + i] == GradeActivity(gs[i]))
  {
    var ss, ls, gs := Rows(students), Rows(lecturers), Rows(grades);
    seq(|ss|, i requires 0 <= i < |ss| => StudentActivity(ss[i]))
    + seq(|ls|, i requires 0 <= i < |ls| => LecturerActivity(ls[i]))
    + seq(|gs|, i requires 0 <= i < |gs| => GradeActivity(gs[i]))
  }

  predicate NewestFirst(s: seq<Activity>) {
    forall i, j :: 0 <= i < j < |s| ==> s[i].timestamp >= s[j].timestamp
  }

  /** A newest-first sequence stays newest first under a head no older than any of it. */
  lemma ConsNewestFirst(x: Activity, s: seq<Activity>)
    requires NewestFirst(s)
    requires forall i :: 0 <= i < |s| ==> s[i].timestamp <= x.timestamp
    ensures NewestFirst([x] + s)
  {
    forall i, j | 0 <= i < j < |[x] + s| ensures ([x] + s)[i].timestamp >= ([x] + s)[j].timestamp {
      if i > 0 { assert ([x] + s)[i] == s[i - 1]; }
      assert ([x] + s)[j] == s[j - 1];
    }
  }

  /** Everything inserted behind the head of `s` is no newer than that head. */
  lemma BehindHead(a: Activity, s: seq<Activity>, rest: seq<Activity>)
    requires NewestFirst(s) && s != [] && a.timestamp < s[0].timestamp
    requires forall i :: 0 <= i < |rest| ==> rest[i] == a || rest[i] in s[1..]
    ensures forall i :: 0 <= i < |rest| ==> rest[i].timestamp <= s[0].timestamp
  {
    forall i | 0 <= i < |rest| ensures rest[i].timestamp <= s[0].timestamp {
      if rest[i] != a {
        var k :| 0 <= k < |s[1..]| && s[1..][k] == rest[i];
        assert s[k + 1] == rest[i];
      }
    }
  }

  /** Putting the head of `s` back in front of its rearranged tail keeps the permutation. */
  lemma HeadRestored(a: Activity, s: seq<Activity>, rest: seq<Activity>)
    requires s != [] && multiset(rest) == multiset(s[1..]) + multiset{a}
    ensures multiset([s[0]] + rest) == multiset(s) + multiset{a}
  {
    assert s == [s[0]] + s[1..];
  }

  /** Every member of `[x] + rest` is `x` or a member of `rest`. */
  lemma ConsMembers(x: Activity, rest: seq<Activity>, a: Activity, s: seq<Activity>)
    requires s != [] && x == s[0]
    requires forall i :: 0 <= i < |rest| ==> rest[i] == a || rest[i] in s[1..]
    ensures forall i :: 0 <= i < |[x] + rest| ==> ([x] + rest)[i] == a || ([x] + rest)[i] in s
  {
    forall i | 0 <= i < |[x] + rest| ensures ([x] + rest)[i] == a || ([x] + rest)[i] in s {
      if i > 0 {
        assert ([x] + rest)[i] == rest[i - 1];
        if rest[i - 1] != a {
          var k :| 0 <= k < |s[1..]| && s[1..][k] == rest[i - 1];
          assert s[k + 1] == rest[i - 1];
        }
      }
    }
  }

  /** Places `a` before the first activity that is not newer, so equal timestamps keep their order. */
  function Insert(a: Activity, s: seq<Activity>): (r: seq<Activity>)
    requires NewestFirst(s)
    ensures |r| == |s| + 1 && NewestFirst(r) && multiset(r) == multiset(s) + multiset{a}
    ensures forall i :: 0 <= i < |r| ==> r[i] == a || r[i] in s
  {
    if s == [] || s[0].timestamp <= a.timestamp then
      ConsNewestFirst(a, s);
      [a] + s
    else
      var rest := Insert(a, s[1..]);
      BehindHead(a, s, rest);
      ConsNewestFirst(s[0], rest);
      HeadRestored(a, s, rest);
      ConsMembers(s[0], rest, a, s);
      [s[0]] + rest
  }

  /** `sort((a, b) => b.timestamp - a.timestamp)`: a stable sort, newest first. */
  function SortNewestFirst(s: seq<Activity>): (r: seq<Activity>)
    ensures |r| == |s| && NewestFirst(r) && multiset(r) == multiset(s)
  {
    if s == [] then []
    else
      assert s == [s[0]] + s[1..];
      Insert(s[0], SortNewestFirst(s[1..]))
  }

  lemma PrefixSplit(s: seq<Activity>, n: nat)
    requires n <= |s|
    ensures multiset(s) == multiset(s[..n]) + multiset(s[n..])
  {
    assert s == s[..n] + s[n..];
  }

  /** The response's `data`: the sorted activities cut to the first ten. */
  function Recent(activities: seq<Activity>): (r: seq<Activity>)
    ensures |r| <= Limit && |r| == if |activities| < Limit then |activities| else Limit
    ensures NewestFirst(r)
    ensures multiset(r) <= multiset(activities)
    ensures |activities| <= Limit ==> multiset(r) == multiset(activities)
  {
    var sorted := SortNewestFirst(activities);
    var n := if |sorted| < Limit then |sorted| else Limit;
    PrefixSplit(sorted, n);
    assert n == |sorted| ==> sorted[..n] == sorted;
    sorted[..n]
  }

  /** No activity left out of the ten is newer than any activity kept. */
  lemma RecentKeepsNewest(activities: seq<Activity>, x: Activity, y: Activity)
    requires x in multiset(activities) - multiset(Recent(activities))
    requires y in Recent(activities)
    ensures x.timestamp <= y.timestamp
  {
    var sorted := SortNewestFirst(activities);
    var n := if |sorted| < Limit then |sorted| else Limit;
    assert Recent(activities) == sorted[..n];
    PrefixSplit(sorted, n);
    assert x in sorted[n..];
    var i :| 0 <= i < n && sorted[i] == y;
    var j :| 0 <= j < |sorted[n..]| && sorted[n..][j] == x;
    assert sorted[n + j] == x;
  }

  datatype Response = Ok(success: bool, data: seq<Activity>) | ServerError(success: bool, message: string, error: string)

  const FetchFailed := "Error fetching recent activity"

  /** `getRecentActivity`: the first failing query (in query order) makes a 500; otherwise the ten newest activities. */
  method GetRecentActivity(students: Fetch<StudentRow>, lecturers: Fetch<LecturerRow>, grades: Fetch<GradeRow>)
    returns (response: Response)
    ensures response.ServerError? <==> students.FetchError? || lecturers.FetchError? || grades.FetchError?
    ensures students.FetchError? ==> response == ServerError(false, FetchFailed, students.message)
    ensures students.Fetched? && lecturers.FetchError? ==> response == ServerError(false, FetchFailed, lecturers.message)
    ensures students.Fetched? && lecturers.Fetched? && grades.FetchError? ==>
      response == ServerError(false, FetchFailed, grades.message)
    ensures response.Ok? ==>
      && response.success && |response.data| <= Limit && NewestFirst(response.data)
      && multiset(response.data) <= multiset(Built(students.data, lecturers.data, grades.data))
      && (|Built(students.data, lecturers.data, grades.data)| <= Limit ==>
            multiset(response.data) == multiset(Built(students.data, lecturers.data, grades.data)))
    ensures response.Ok? ==> response.data == Recent(Built(students.data, lecturers.data, grades.data))
  {
    if students.FetchError? {
      return ServerError(false, FetchFailed, students.message);
    }
    if lecturers.FetchError? {
      return ServerError(false, FetchFailed, lecturers.message);
    }
    if grades.FetchError? {
      return ServerError(false, FetchFailed, grades.message);
    }
    var activities := BuildActivities(students.data, lecturers.data, grades.data);
    assert activities == Built(students.data, lecturers.data, grades.data);
    response := Ok(true, Recent(activities));
  }
}

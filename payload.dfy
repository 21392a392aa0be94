/**
 * The request-payload allow-list filters of src/helper/payload.js. Every entity's
 * filter is the same left fold over that entity's field list: a field whose value
 * is defined is copied, with the exact empty string turned into null.
 */
module Payload {
  import opened Wrappers
  import opened JsText

  /** A request body: a key that is absent is `undefined`. */
  type Body = map<string, Value>

  /** The argument a filter receives: omitted (so the `= {}` default applies), `null`, or an object. */
  datatype BodyArg = Omitted | NullBody | Given(fields: Body)

  /** Reading a property of `null` throws. */
  datatype FilterError = TypeError

  datatype Entity =
    | Student | Lecturer | User | Level | TeacherLevel | Program | Price
    | Course | Class | Grade | Report | CourseFiles | Ancillary

  /** Each entity's allowed fields, in the order the source lists them (duplicates included). */
  function AllowedFields(e: Entity): seq<string> {
    match e
    case Student => ["fullname", "gender", "address", "phone", "parentname", "parentphone",
                     "birthdate", "birthplace", "classid", "photo"]
    case Lecturer => ["fullname", "gender", "address", "phone", "birthdate", "birthplace",
                      "classid", "lasteducation", "photo"]
    case User => ["username", "email", "roleid", "password", "is_active"]
    case Level => ["name", "description"]
    case TeacherLevel => ["levelid", "lecturerid"]
    case Program => ["name", "description"]
    case Price => ["levelid", "programid", "harga"]
    case Course => ["title", "upload_date", "video_link", "classid", "course_code", "description"]
    case Class => ["levelid", "class_code", "description", "lecturerid", "schedule_time",
                   "schedule_day", "schedule_time_2", "schedule_day_2"]
    case Grade => ["studentid", "test_type", "listening_score", "speaking_score", "listening_score",
                   "reading_score", "writing_score", "final_score", "description", "date_taken",
                   "description"]
    case Report => ["studentid", "test_type", "grade_id", "upload_date", "report_code"]
    case CourseFiles => ["courseid", "path", "url"]
    case Ancillary => ["name", "description", "price"]
  }

  /** The value stored for a defined field: only the exact empty string changes (to null). */
  function Normalize(v: Value): (w: Value)
    ensures w == Null <==> v == Null || v == Str("")
    ensures v != Str("") ==> w == v
  {
    if v == Str("") then Null else v
  }

  /** The keys a fold over `fields` adds: the listed fields the body defines. */
  ghost function Kept(fields: seq<string>, body: Body): set<string> {
    set f | f in fields && f in body
  }

  /** The `reduce` step by step: `acc` is the payload built so far. */
  function Fold(fields: seq<string>, body: Body, acc: Body): (r: Body)
    ensures r.Keys == acc.Keys + Kept(fields, body)
    ensures forall k :: k in r ==>
      r[k] == if k in fields && k in body then Normalize(body[k]) else acc[k]
    decreases |fields|
  {
    if fields == [] then acc
    else
      var f := fields[0];
      Fold(fields[1..], body, if f in body then acc[f := Normalize(body[f])] else acc)
  }

  /** The payload built from a body by one allow-list. */
  function Filter(fields: seq<string>, body: Body): (r: Body)
    ensures r.Keys == Kept(fields, body)
    ensures forall k :: k in r ==> k in fields && k in body && r[k] == Normalize(body[k])
  {
    Fold(fields, body, map[])
  }

  /** `payload.<entity>(body)`: the default `{}` for an omitted body, a thrown TypeError for `null`. */
  function FilterRequest(e: Entity, arg: BodyArg): (r: Result<Body, FilterError>)
    ensures arg.Omitted? ==> r == Success(map[])
    ensures r.Failure? <==> arg.NullBody?
    ensures arg.Given? ==> r == Success(Filter(AllowedFields(e), arg.fields))
  {
    match arg
    case Omitted => Success(Filter(AllowedFields(e), map[]))
    case NullBody => Failure(TypeError)
    case Given(body) => Success(Filter(AllowedFields(e), body))
  }

  /** A key reaches the payload exactly when it is allowed and defined, with its normalised value. */
  lemma FilterCharacterized(fields: seq<string>, body: Body, k: string)
    ensures k in Filter(fields, body) <==> k in fields && k in body
    ensures k in Filter(fields, body) ==> Filter(fields, body)[k] == Normalize(body[k])
  {
    assert k in fields && k in body ==> k in Kept(fields, body);
  }

  /** Filtering a payload a second time changes nothing. */
  lemma FilterIdempotent(fields: seq<string>, body: Body)
    ensures Filter(fields, Filter(fields, body)) == Filter(fields, body)
  {
    var once := Filter(fields, body);
    var twice := Filter(fields, once);
    forall k | k in once
      ensures k in twice && twice[k] == once[k]
    {
      FilterCharacterized(fields, body, k);
      FilterCharacterized(fields, once, k);
    }
    forall k | k in twice
      ensures k in once
    {
      FilterCharacterized(fields, once, k);
    }
  }

  /** The payload depends only on the SET of allowed fields, not on their order or repetition. */
  lemma FilterDependsOnFieldSet(f1: seq<string>, f2: seq<string>, body: Body)
    requires forall f :: f in f1 <==> f in f2
    ensures Filter(f1, body) == Filter(f2, body)
  {
    var r1, r2 := Filter(f1, body), Filter(f2, body);
    forall k | k in r1 ensures k in r2 && r2[k] == r1[k] {
      FilterCharacterized(f1, body, k);
      FilterCharacterized(f2, body, k);
    }
    forall k | k in r2 ensures k in r1 {
      FilterCharacterized(f1, body, k);
      FilterCharacterized(f2, body, k);
    }
  }

  /** The grade list names `listening_score` and `description` twice: 11 entries, 9 fields. */
  const GradeFieldsDistinct: seq<string> :=
    ["studentid", "test_type", "listening_score", "speaking_score", "reading_score",
     "writing_score", "final_score", "description", "date_taken"]

  lemma GradeDuplicatesHarmless(body: Body)
    ensures |AllowedFields(Grade)| == |GradeFieldsDistinct| + 2
    ensures Filter(AllowedFields(Grade), body) == Filter(GradeFieldsDistinct, body)
  {
    var b := GradeFieldsDistinct;
    assert AllowedFields(Grade) == b[..4] + [b[2]] + b[4..] + [b[7]];
    FilterDependsOnFieldSet(AllowedFields(Grade), b, body);
  }

  /** Keys outside an entity's list, such as `id`, `admin` or `password_hash`, never leak. */
  lemma NoUnlistedKeyLeaks(e: Entity, body: Body, k: string)
    requires k !in AllowedFields(e)
    ensures k !in Filter(AllowedFields(e), body)
  {
    FilterCharacterized(AllowedFields(e), body, k);
  }
}

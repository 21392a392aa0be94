/**
 * The report-file model of src/models/reports.js, over an in-memory report table
 * and object store. Which database and storage calls fail in a run is given by
 * Faults; the clock and the public-URL builder are parameters.
 */
module Reports {
  import opened Wrappers
  import opened JsText
  import Storage

  /** The fields of `data` the model reads. */
  datatype ReportData = ReportData(gradeid: Value, studentid: Value, test_type: Value)

  /** The uploaded file; `buffer` is None when it is missing. */
  datatype ReportFile = ReportFile(buffer: Option<Storage.Bytes>)

  /** The argument of `delete`; a missing or empty `path` is falsy. */
  datatype FileRef = FileRef(path: Option<string>)

  /** A row of `tbreport_files`. */
  datatype ReportRow = ReportRow(gradeid: Value, studentid: Value, path: string, url: string)

  datatype ReportError =
    | FileBufferRequired | FilePathRequired
    | LookupFailed | RemoveFailed | UploadFailed | PublicUrlFailed | WriteFailed

  /** Which of the external calls report an error in one run. */
  datatype Faults = Faults(lookup: bool, remove: bool, upload: bool, publicUrl: bool, write: bool)

  predicate HasBuffer(file: Option<ReportFile>) {
    file.Some? && file.value.buffer.Some?
  }

  /** `${studentid}/${test_type}_${Date.now()}`. */
  function ReportPath(data: ReportData, now: nat): string {
    Text(data.studentid) + "/" + Text(data.test_type) + "_" + Decimal(now)
  }

  /** For the same report data, distinct clock readings give distinct paths. */
  lemma ReportPathInjective(data: ReportData, t1: nat, t2: nat)
    ensures ReportPath(data, t1) == ReportPath(data, t2) ==> t1 == t2
  {
    var prefix := Text(data.studentid) + "/" + Text(data.test_type) + "_";
    if ReportPath(data, t1) == ReportPath(data, t2) {
      assert ReportPath(data, t1)[|prefix|..] == Decimal(t1);
      assert ReportPath(data, t2)[|prefix|..] == Decimal(t2);
      DecimalInjective(t1, t2);
    }
  }

  /** `select().eq('gradeid', g)`: the rows of the grade, in table order. */
  function Matching(rows: seq<ReportRow>, g: Value): (m: seq<ReportRow>)
    ensures |m| <= |rows|
    ensures forall x :: x in m <==> x in rows && x.gradeid == g
    ensures m == [] <==> forall i :: 0 <= i < |rows| ==> rows[i].gradeid != g
    ensures rows != [] && rows[0].gradeid == g ==> m != [] && m[0] == rows[0]
    ensures m != [] ==> exists i :: 0 <= i < |rows| && m[0] == rows[i] && rows[i].gradeid == g
                                    && forall j :: 0 <= j < i ==> rows[j].gradeid != g
  {
    if rows == [] then []
    else if rows[0].gradeid == g then [rows[0]] + Matching(rows[1..], g)
    else Matching(rows[1..], g)
  }

  /** Matching keeps table order: the rows of a concatenated table are those of each part, one after the other. */
  lemma {:induction false} MatchingAppend(a: seq<ReportRow>, b: seq<ReportRow>, g: Value)
    ensures Matching(a + b, g) == Matching(a, g) + Matching(b, g)
  {
    if a != [] {
      assert (a + b)[0] == a[0] && (a + b)[1..] == a[1..] + b;
      MatchingAppend(a[1..], b, g);
      if a[0].gradeid == g {
        assert Matching(a + b, g) == [a[0]] + Matching(a[1..] + b, g);
        assert Matching(a, g) == [a[0]] + Matching(a[1..], g);
      } else {
        assert Matching(a + b, g) == Matching(a[1..] + b, g);
      }
    } else {
      assert a + b == b;
    }
  }

  /** `update({path, url}).eq('gradeid', g)`: every row of the grade gets the new file; no other row changes. */
  function WithFile(rows: seq<ReportRow>, g: Value, path: string, url: string): (r: seq<ReportRow>)
    ensures |r| == |rows|
    ensures forall i :: 0 <= i < |rows| && rows[i].gradeid != g ==> r[i] == rows[i]
    ensures forall i :: 0 <= i < |rows| && rows[i].gradeid == g ==> r[i] == rows[i].(path := path, url := url)
  {
    if rows == [] then []
    else [if rows[0].gradeid == g then rows[0].(path := path, url := url) else rows[0]]
         + WithFile(rows[1..], g, path, url)
  }

  /** The table after a successful `createOrReplace` write. */
  function Replaced(rows: seq<ReportRow>, data: ReportData, path: string, url: string): seq<ReportRow> {
    if Matching(rows, data.gradeid) == [] then rows + [ReportRow(data.gradeid, data.studentid, path, url)]
    else WithFile(rows, data.gradeid, path, url)
  }

  /** What a replace promises of the table `r` it leaves for the grade `g`. */
  predicate PointsToNewFile(rows: seq<ReportRow>, r: seq<ReportRow>, g: Value, path: string, url: string) {
    && Matching(r, g) != []
    && (forall x :: x in r && x.gradeid == g ==> x.path == path && x.url == url)
    && (forall x :: x in rows && x.gradeid != g ==> x in r)
    && (forall x :: x in r && x.gradeid != g ==> x in rows)
  }

  lemma InsertedPointsToNewFile(rows: seq<ReportRow>, data: ReportData, path: string, url: string)
    requires Matching(rows, data.gradeid) == []
    ensures PointsToNewFile(rows, rows + [ReportRow(data.gradeid, data.studentid, path, url)], data.gradeid, path, url)
  {
    var r := rows + [ReportRow(data.gradeid, data.studentid, path, url)];
    assert r[|rows|] == ReportRow(data.gradeid, data.studentid, path, url);
    assert forall x :: x in rows ==> x.gradeid != data.gradeid;
  }

  lemma UpdatedKeepsGrade(rows: seq<ReportRow>, g: Value, path: string, url: string, i: nat)
    requires i < |rows| && rows[i].gradeid == g
    ensures Matching(WithFile(rows, g, path, url), g) != []
  {
    assert WithFile(rows, g, path, url)[i].gradeid == g;
  }

  lemma UpdatedKeepsOthers(rows: seq<ReportRow>, g: Value, path: string, url: string)
    ensures forall x :: x in rows && x.gradeid != g ==> x in WithFile(rows, g, path, url)
  {
    var r := WithFile(rows, g, path, url);
    forall x | x in rows && x.gradeid != g ensures x in r {
      var j :| 0 <= j < |rows| && rows[j] == x;
      assert r[j] == x;
    }
  }

  lemma UpdatedRowsFromTable(rows: seq<ReportRow>, g: Value, path: string, url: string)
    ensures forall x :: x in WithFile(rows, g, path, url) ==>
      (x.gradeid == g ==> x.path == path && x.url == url) && (x.gradeid != g ==> x in rows)
  {
    var r := WithFile(rows, g, path, url);
    forall x | x in r ensures (x.gradeid == g ==> x.path == path && x.url == url) && (x.gradeid != g ==> x in rows) {
      var j :| 0 <= j < |r| && r[j] == x;
    }
  }

  lemma UpdatedPointsToNewFile(rows: seq<ReportRow>, g: Value, path: string, url: string)
    requires Matching(rows, g) != []
    ensures PointsToNewFile(rows, WithFile(rows, g, path, url), g, path, url)
  {
    var i :| 0 <= i < |rows| && rows[i].gradeid == g;
    UpdatedKeepsGrade(rows, g, path, url, i);
    UpdatedKeepsOthers(rows, g, path, url);
    UpdatedRowsFromTable(rows, g, path, url);
  }

  /** After a replace, the grade has at least one row, all its rows name the new file, and other rows are untouched. */
  lemma ReplacedPointsToNewFile(rows: seq<ReportRow>, data: ReportData, path: string, url: string)
    ensures PointsToNewFile(rows, Replaced(rows, data, path, url), data.gradeid, path, url)
  {
    if Matching(rows, data.gradeid) == [] {
      InsertedPointsToNewFile(rows, data, path, url);
    } else {
      UpdatedPointsToNewFile(rows, data.gradeid, path, url);
    }
  }

  /** The grade's first row names a file, which `createOrReplace` deletes before the upload. */
  predicate HasOldFile(rows: seq<ReportRow>, g: Value) {
    Matching(rows, g) != [] && Matching(rows, g)[0].path != ""
  }

  /** The object store once the grade's old file, if its first row names one, is deleted. */
  function Cleared(objects: Storage.Objects, rows: seq<ReportRow>, g: Value, bucket: Option<string>): (o: Storage.Objects)
    ensures HasOldFile(rows, g) ==> o == objects - {Storage.ObjectKey(Storage.Bucket(bucket), Matching(rows, g)[0].path)}
    ensures !HasOldFile(rows, g) ==> o == objects
  {
    var prior := Matching(rows, g);
    if prior != [] && prior[0].path != "" then
      Storage.RemoveOnePath(objects, prior[0].path, bucket);
      Storage.Removed(objects, Storage.RemoveRequest(Storage.OnePath(prior[0].path), bucket))
    else objects
  }

  /** The upload `createOrReplace` and `create` issue: the report's raw Buffer. */
  function ReportUpload(data: ReportData, file: Option<ReportFile>, bucket: Option<string>, now: nat): (c: Storage.UploadCall)
    requires HasBuffer(file)
    ensures c.bucket == Storage.Bucket(bucket) && c.path == ReportPath(data, now)
    ensures c.body == Storage.ArrayBufferOf(file.value.buffer.value)
    ensures c.options == Storage.UploadOptions(None, true)
  {
    Storage.UploadRequest(ReportPath(data, now), Storage.RawBuffer(file.value.buffer.value), bucket)
  }

  function UrlKey(data: ReportData, bucket: Option<string>, now: nat): Storage.ObjectKey {
    Storage.ObjectKey(Storage.Bucket(bucket), ReportPath(data, now))
  }

  class ReportStore {
    var rows: seq<ReportRow>
    var objects: Storage.Objects

    constructor (rows0: seq<ReportRow>, objects0: Storage.Objects)
      ensures rows == rows0 && objects == objects0
    {
      rows := rows0;
      objects := objects0;
    }

    /** `createOrReplace`: replace the grade's report file, or insert the grade's first one. */
    method CreateOrReplace(data: ReportData, file: Option<ReportFile>, bucket: Option<string>, now: nat,
                           publicUrl: Storage.ObjectKey -> string, faults: Faults)
      returns (r: Result<ReportRow, ReportError>)
      modifies this
      ensures !HasBuffer(file) ==> r == Failure(FileBufferRequired)
      ensures HasBuffer(file) && faults.lookup ==> r == Failure(LookupFailed)
      ensures !HasBuffer(file) || faults.lookup ==> objects == old(objects)
      ensures r.Failure? ==> rows == old(rows)
      ensures r == Failure(RemoveFailed) ==> objects == old(objects)
      ensures r == Failure(UploadFailed) ==> objects == Cleared(old(objects), old(rows), data.gradeid, bucket)
      ensures r.Success? || r == Failure(PublicUrlFailed) || r == Failure(WriteFailed) ==>
        HasBuffer(file) &&
        objects == Storage.Uploaded(Cleared(old(objects), old(rows), data.gradeid, bucket), ReportUpload(data, file, bucket, now))
      ensures r.Success? ==>
        var path, url := ReportPath(data, now), publicUrl(UrlKey(data, bucket, now));
        var before := Matching(old(rows), data.gradeid);
        && rows == Replaced(old(rows), data, path, url)
        && r.value == (if before == [] then ReportRow(data.gradeid, data.studentid, path, url)
                       else before[0].(path := path, url := url))
      ensures HasBuffer(file) && !faults.lookup && faults.remove && HasOldFile(old(rows), data.gradeid) ==>
        r == Failure(RemoveFailed)
      ensures HasBuffer(file) && !faults.lookup && !(faults.remove && HasOldFile(old(rows), data.gradeid)) ==>
        (faults.upload ==> r == Failure(UploadFailed))
        && (!faults.upload && faults.publicUrl ==> r == Failure(PublicUrlFailed))
        && (!faults.upload && !faults.publicUrl && faults.write ==> r == Failure(WriteFailed))
      ensures r.Success? <==> HasBuffer(file) && !faults.lookup && !faults.upload && !faults.publicUrl && !faults.write
                              && !(faults.remove && HasOldFile(old(rows), data.gradeid))
    {
      if !HasBuffer(file) {
        return Failure(FileBufferRequired);
      }
      if faults.lookup {
        return Failure(LookupFailed);
      }
      var fileData := Matching(rows, data.gradeid);
      if fileData != [] && fileData[0].path != "" {
        if faults.remove {
          return Failure(RemoveFailed);
        }
        objects := Storage.Removed(objects, Storage.RemoveRequest(Storage.OnePath(fileData[0].path), bucket));
      }
      assert objects == Cleared(old(objects), rows, data.gradeid, bucket);
      var newPath := ReportPath(data, now);
      if faults.upload {
        return Failure(UploadFailed);
      }
      objects := Storage.Uploaded(objects, ReportUpload(data, file, bucket, now));
      if faults.publicUrl {
        return Failure(PublicUrlFailed);
      }
      var url := publicUrl(UrlKey(data, bucket, now));
      if faults.write {
        return Failure(WriteFailed);
      }
      if fileData == [] {
        var row := ReportRow(data.gradeid, data.studentid, newPath, url);
        rows := rows + [row];
        r := Success(row);
      } else {
        rows := WithFile(rows, data.gradeid, newPath, url);
        r := Success(fileData[0].(path := newPath, url := url));
      }
    }

    /** `create`: upload the file and insert a row for it, whatever rows the grade already has. */
    method Create(data: ReportData, file: Option<ReportFile>, bucket: Option<string>, now: nat,
                  publicUrl: Storage.ObjectKey -> string, faults: Faults)
      returns (r: Result<ReportRow, ReportError>)
      modifies this
      ensures !HasBuffer(file) ==> r == Failure(FileBufferRequired) && objects == old(objects)
      ensures r.Failure? ==> rows == old(rows)
      ensures HasBuffer(file) && faults.upload ==> r == Failure(UploadFailed) && objects == old(objects)
      ensures HasBuffer(file) && !faults.upload ==> objects == Storage.Uploaded(old(objects), ReportUpload(data, file, bucket, now))
      ensures HasBuffer(file) && !faults.upload && faults.publicUrl ==> r == Failure(PublicUrlFailed)
      ensures HasBuffer(file) && !faults.upload && !faults.publicUrl && faults.write ==> r == Failure(WriteFailed)
      ensures r.Success? <==> HasBuffer(file) && !faults.upload && !faults.publicUrl && !faults.write
      ensures r.Success? ==>
        var row := ReportRow(data.gradeid, data.studentid, ReportPath(data, now), publicUrl(UrlKey(data, bucket, now)));
        r.value == row && rows == old(rows) + [row]
    {
      if !HasBuffer(file) {
        return Failure(FileBufferRequired);
      }
      var path := ReportPath(data, now);
      if faults.upload {
        return Failure(UploadFailed);
      }
      objects := Storage.Uploaded(objects, ReportUpload(data, file, bucket, now));
      if faults.publicUrl {
        return Failure(PublicUrlFailed);
      }
      var url := publicUrl(UrlKey(data, bucket, now));
      if faults.write {
        return Failure(WriteFailed);
      }
      var row := ReportRow(data.gradeid, data.studentid, path, url);
      rows := rows + [row];
      r := Success(row);
    }

    /** `delete`: remove exactly `file.path` from the given bucket; the table is not touched. */
    method Delete(file: Option<FileRef>, bucket: string, removeFails: bool) returns (r: Result<(), ReportError>)
      modifies this
      ensures rows == old(rows)
      ensures file.None? || file.value.path.None? || file.value.path.value == "" ==>
        r == Failure(FilePathRequired) && objects == old(objects)
      ensures file.Some? && file.value.path.Some? && file.value.path.value != "" ==>
        if removeFails then r == Failure(RemoveFailed) && objects == old(objects)
        else r == Success(()) && objects == old(objects) - {Storage.ObjectKey(bucket, file.value.path.value)}
    {
      if file.None? || file.value.path.None? || file.value.path.value == "" {
        return Failure(FilePathRequired);
      }
      if removeFails {
        return Failure(RemoveFailed);
      }
      var p := file.value.path.value;
      objects := objects - {Storage.ObjectKey(bucket, p)};
      r := Success(());
    }
  }

  /**
   * The old file is deleted before the new one is uploaded: when that upload fails,
   * the grade's row still names a path that is no longer stored.
   */
  lemma FailedUploadOrphansRow(objects: Storage.Objects, rows: seq<ReportRow>, g: Value, bucket: Option<string>)
    requires HasOldFile(rows, g)
    ensures Storage.ObjectKey(Storage.Bucket(bucket), Matching(rows, g)[0].path) !in Cleared(objects, rows, g, bucket)
    ensures Matching(rows, g)[0] in rows
  {
  }
}

/**
 * The storage helper of src/middleware/storage.js: what each of `upload`,
 * `delete`, `getSignedUrl` and `getPublicUrl` hands to the object store, with the
 * defaults it fills in. The object store itself is a parameter of the model; its
 * effect on the stored objects is given by Uploaded and Removed.
 */
module Storage {
  import opened Wrappers
  import opened JsText

  type Bytes = seq<bv8>

  const DefaultBucket := "courses"
  const DefaultExpiresIn: int := 6000

  /** A bucket argument that is omitted takes the default. */
  function Bucket(bucket: Option<string>): (b: string)
    ensures bucket.None? ==> b == DefaultBucket
    ensures bucket.Some? ==> b == bucket.value
  {
    bucket.GetOr(DefaultBucket)
  }

  /** The `buffer` key of a file object: absent, present but holding null or undefined, or holding bytes. */
  datatype BufferKey = NoBufferKey | NullishBuffer(isNull: bool) | HeldBuffer(bytes: Bytes)

  /**
   * The `file` argument of `upload`: missing (undefined or null), a raw Node Buffer,
   * or a multipart file object. `mimetype` is None when it is undefined.
   */
  datatype FileArg =
    | Missing
    | RawBuffer(bytes: Bytes)
    | FileObject(buffer: BufferKey, mimetype: Option<Value>)

  /**
   * What `upload` sends: a file object's buffer bytes, the null or undefined its
   * `buffer` key holds, the ArrayBuffer behind a raw Buffer (a Buffer has a `buffer`
   * property too), or the argument itself.
   */
  datatype UploadBody =
    | BufferBytes(bytes: Bytes)
    | NullishBody(isNull: bool)
    | ArrayBufferOf(bytes: Bytes)
    | Passed(arg: FileArg)

  datatype UploadOptions = UploadOptions(contentType: Option<Value>, upsert: bool)

  datatype UploadCall = UploadCall(bucket: string, path: string, body: UploadBody, options: UploadOptions)

  function UploadRequest(path: string, file: FileArg, bucket: Option<string>): (c: UploadCall)
    ensures c.bucket == Bucket(bucket) && c.path == path
    ensures c.options.upsert
    ensures c.options.contentType.Some? <==> file.FileObject? && file.mimetype.Some?
    ensures c.options.contentType.Some? ==> c.options.contentType == file.mimetype
    ensures file.FileObject? && file.buffer.HeldBuffer? ==> c.body == BufferBytes(file.buffer.bytes)
    ensures file.FileObject? && file.buffer.NullishBuffer? ==> c.body == NullishBody(file.buffer.isNull)
    ensures file.RawBuffer? ==> c.body == ArrayBufferOf(file.bytes)
    ensures file.Missing? || (file.FileObject? && file.buffer.NoBufferKey?) ==> c.body == Passed(file)
  {
    var body :=
      match file
      case Missing => Passed(file)
      case RawBuffer(b) => ArrayBufferOf(b)
      case FileObject(NoBufferKey, _) => Passed(file)
      case FileObject(NullishBuffer(isNull), _) => NullishBody(isNull)
      case FileObject(HeldBuffer(b), _) => BufferBytes(b);
    var contentType := if file.FileObject? then file.mimetype else None;
    UploadCall(Bucket(bucket), path, body, UploadOptions(contentType, true))
  }

  datatype StorageError = StorageError(message: string)

  datatype UploadInfo = UploadInfo(path: string, bucket: string)

  /** `upload`: the store's error is re-thrown; otherwise the path and the bucket used. */
  function Upload(path: string, file: FileArg, bucket: Option<string>,
                  store: UploadCall -> Option<StorageError>): (r: Result<UploadInfo, StorageError>)
    ensures r.Failure? <==> store(UploadRequest(path, file, bucket)).Some?
    ensures r.Failure? ==> r.error == store(UploadRequest(path, file, bucket)).value
    ensures r.Success? ==> r.value == UploadInfo(path, Bucket(bucket))
  {
    var err := store(UploadRequest(path, file, bucket));
    if err.Some? then Failure(err.value) else Success(UploadInfo(path, Bucket(bucket)))
  }

  /** The `pathOrPaths` argument of `delete`. */
  datatype PathArg = OnePath(path: string) | PathList(paths: seq<string>)

  datatype RemoveCall = RemoveCall(bucket: string, paths: seq<string>)

  /** A single path is wrapped in a one-element array; an array is passed through. */
  function RemoveRequest(p: PathArg, bucket: Option<string>): (c: RemoveCall)
    ensures c.bucket == Bucket(bucket)
    ensures p.OnePath? ==> c.paths == [p.path]
    ensures p.PathList? ==> c.paths == p.paths
  {
    RemoveCall(Bucket(bucket), if p.OnePath? then [p.path] else p.paths)
  }

  /** `delete`: true, or the store's error re-thrown. */
  function Delete(p: PathArg, bucket: Option<string>,
                  store: RemoveCall -> Option<StorageError>): (r: Result<bool, StorageError>)
    ensures r.Success? <==> store(RemoveRequest(p, bucket)).None?
    ensures r.Success? ==> r.value
    ensures r.Failure? ==> r.error == store(RemoveRequest(p, bucket)).value
  {
    var err := store(RemoveRequest(p, bucket));
    if err.Some? then Failure(err.value) else Success(true)
  }

  datatype SignedUrlCall = SignedUrlCall(bucket: string, path: string, expiresIn: int)

  function SignedUrlRequest(path: string, expiresIn: Option<int>, bucket: Option<string>): (c: SignedUrlCall)
    ensures c.bucket == Bucket(bucket) && c.path == path
    ensures expiresIn.None? ==> c.expiresIn == DefaultExpiresIn
    ensures expiresIn.Some? ==> c.expiresIn == expiresIn.value
  {
    SignedUrlCall(Bucket(bucket), path, expiresIn.GetOr(DefaultExpiresIn))
  }

  /** `getSignedUrl`: the store's `signedUrl`, or its error re-thrown. */
  function GetSignedUrl(path: string, expiresIn: Option<int>, bucket: Option<string>,
                        store: SignedUrlCall -> Result<string, StorageError>): (r: Result<string, StorageError>)
    ensures r == store(SignedUrlCall(Bucket(bucket), path, expiresIn.GetOr(DefaultExpiresIn)))
  {
    store(SignedUrlRequest(path, expiresIn, bucket))
  }

  datatype ObjectKey = ObjectKey(bucket: string, path: string)

  /** `getPublicUrl`: the store's `publicUrl` for the path in the resolved bucket, or its error. */
  function GetPublicUrl(path: string, bucket: Option<string>,
                        store: ObjectKey -> Result<string, StorageError>): (r: Result<string, StorageError>)
    ensures r == store(ObjectKey(Bucket(bucket), path))
  {
    store(ObjectKey(Bucket(bucket), path))
  }

  /** The objects of every bucket, by bucket and path. */
  type Objects = map<ObjectKey, UploadBody>

  /** An upload with `upsert` stores its body at its path, replacing what was there. */
  function Uploaded(objects: Objects, c: UploadCall): (o: Objects)
    ensures o.Keys == objects.Keys + {ObjectKey(c.bucket, c.path)}
    ensures o[ObjectKey(c.bucket, c.path)] == c.body
    ensures forall k :: k in objects && k != ObjectKey(c.bucket, c.path) ==> o[k] == objects[k]
  {
    objects[ObjectKey(c.bucket, c.path) := c.body]
  }

  /** A removal deletes every listed path of its bucket and nothing else. */
  function Removed(objects: Objects, c: RemoveCall): (o: Objects)
    ensures forall k :: k in o <==> k in objects && !(k.bucket == c.bucket && k.path in c.paths)
    ensures forall k :: k in o ==> o[k] == objects[k]
  {
    map k | k in objects && !(k.bucket == c.bucket && k.path in c.paths) :: objects[k]
  }

  /** Deleting one path removes exactly that object. */
  lemma RemoveOnePath(objects: Objects, path: string, bucket: Option<string>)
    ensures Removed(objects, RemoveRequest(OnePath(path), bucket)) == objects - {ObjectKey(Bucket(bucket), path)}
  {
    var o := Removed(objects, RemoveRequest(OnePath(path), bucket));
    var e := objects - {ObjectKey(Bucket(bucket), path)};
    forall k ensures k in o <==> k in e {
      assert k.path in [path] <==> k.path == path;
    }
  }

  /** An upload followed by a delete of the same path leaves no object at that path. */
  lemma UploadThenDelete(objects: Objects, path: string, file: FileArg, bucket: Option<string>)
    ensures var after := Removed(Uploaded(objects, UploadRequest(path, file, bucket)), RemoveRequest(OnePath(path), bucket));
      ObjectKey(Bucket(bucket), path) !in after
      && forall k :: k in objects && k != ObjectKey(Bucket(bucket), path) ==> k in after && after[k] == objects[k]
  {
    RemoveOnePath(Uploaded(objects, UploadRequest(path, file, bucket)), path, bucket);
  }
}

/** dicom2jpeg.py: the startup check of the S3 settings, and
    `dicom_s3_to_jpeg_and_upload`, which fetches a DICOM object, renders it
    as a JPEG, stores the JPEG under a key sharded by the study id and
    returns it with a presigned link.

    The bucket is `Bucket`'s map of objects. Decoding the DICOM pixels and
    encoding the JPEG is `render` (`None` when pydicom or PIL raises), the
    clock is `millis` (`int(time.time() * 1000)`) and presigning is
    `presign`. */
module DicomPreview {
  import opened Wrappers
  import Text

  type Bytes = seq<bv8>

  // ---------------------------------------------------------------------
  // The startup check
  // ---------------------------------------------------------------------

  /** The four `os.getenv` results: `None` when the variable is unset. */
  datatype Env = Env(
    accessKeyId: Option<string>,      // S3_ACCESS_KEY_ID
    secretAccessKey: Option<string>,  // S3_SECRET_ACCESS_KEY
    region: Option<string>,           // S3_REGION
    bucketName: Option<string>)       // S3_BUCKET_NAME

  datatype Config = Config(accessKeyId: string, secretAccessKey: string, region: string, bucketName: string)

  const MissingS3Settings: string := "Missing one of S3_* environment variables in Python service"

  /** A setting is truthy when it is set and not empty. */
  predicate Given(v: Option<string>) {
    v.Some? && v.value != []
  }

  /** The module-level check: the RuntimeError message unless all four
      settings are truthy. */
  function LoadConfig(env: Env): (r: Result<Config, string>)
    ensures r.Success? <==>
      Given(env.accessKeyId) && Given(env.secretAccessKey) && Given(env.region) && Given(env.bucketName)
    ensures r.Success? ==>
      && Some(r.value.accessKeyId) == env.accessKeyId && Some(r.value.secretAccessKey) == env.secretAccessKey
      && Some(r.value.region) == env.region && Some(r.value.bucketName) == env.bucketName
    ensures r.Failure? ==> r.error == MissingS3Settings
  {
    if Given(env.accessKeyId) && Given(env.secretAccessKey) && Given(env.region) && Given(env.bucketName) then
      Success(Config(env.accessKeyId.value, env.secretAccessKey.value, env.region.value, env.bucketName.value))
    else
      Failure(MissingS3Settings)
  }

  // ---------------------------------------------------------------------
  // The preview key
  // ---------------------------------------------------------------------

  const ShardCount: nat := 1000

  /** `study_id[:8]`. */
  function Prefix8(studyId: string): string {
    if |studyId| <= 8 then studyId else studyId[..8]
  }

  /** `int(study_id[:8], 16) % 1000`; `None` when `int` raises. Python's
      `%` takes the sign of the divisor, so a negative number still lands
      in 0..999. */
  function Shard(studyId: string): (r: Option<nat>)
    ensures r.Some? ==> r.value < ShardCount
    ensures r.Some? <==> Text.ParseHexInt(Prefix8(studyId)).Some?
  {
    match Text.ParseHexInt(Prefix8(studyId))
    case None => None
    case Some(n) => Some(n % ShardCount)
  }

  /** `f"previews/{shard}/{study_id}/{timestamp}.jpg"`. */
  function PreviewKey(shard: nat, studyId: string, millis: nat): string {
    "previews/" + Text.NatToString(shard) + "/" + studyId + "/" + Text.NatToString(millis) + ".jpg"
  }

  /** Only the first eight characters of the study id choose the shard. */
  lemma ShardOfPrefix(a: string, b: string)
    requires |a| >= 8 && |b| >= 8 && a[..8] == b[..8]
    ensures Shard(a) == Shard(b)
  {
    assert Prefix8(a) == Prefix8(b);
  }

  /** A MongoDB ObjectId in hexadecimal begins with its creation time in
      seconds as eight hexadecimal digits, so its shard is that time modulo
      1000. */
  lemma ObjectIdShard(seconds: nat, rest: string)
    requires seconds < Text.Pow16(8)
    ensures Shard(Text.HexString(seconds, 8) + rest) == Some(seconds % ShardCount)
  {
    var prefix := Text.HexString(seconds, 8);
    assert Prefix8(prefix + rest) == prefix;
    Text.ParsePlainHex(prefix);
    Text.HexRoundTrip(seconds, 8);
  }

  /** A run of at most eight hexadecimal digits is its own prefix and is
      read as it is written. */
  lemma PlainHexShard(studyId: string)
    requires Text.PlainHex(Prefix8(studyId))
    ensures Shard(studyId) == Some(Text.HexValue(Prefix8(studyId)) % ShardCount)
  {
    Text.ParsePlainHex(Prefix8(studyId));
  }

  /** A study id that starts with a minus sign is read as a negative
      number, and Python's `%` maps it into 0..999 all the same: "-1" lands
      in shard 999. */
  lemma NegativeStudyId()
    ensures Shard("-1") == Some(999)
  {
    assert Text.PlainHex("1");
    assert Text.HexValue("1") == 1;
    Text.ParseNegativePlainHex("1");
    assert "-" + "1" == "-1";
    ShardOfValue("-1", -1);
  }

  lemma ShardOfValue(studyId: string, n: int)
    requires Text.ParseHexInt(Prefix8(studyId)) == Some(n)
    ensures Shard(studyId) == Some((n % ShardCount) as nat)
  {
  }

  /** A preview key, split back into its fields. */
  datatype KeyFields = KeyFields(shard: nat, studyId: string, millis: nat)

  predicate Digits(s: string) {
    |s| >= 1 && forall i :: 0 <= i < |s| ==> Text.IsDigit(s[i])
  }

  /** Reads a key of the form "previews/<shard>/<study>/<millis>.jpg". */
  function ParsePreviewKey(key: string): Option<KeyFields> {
    var parts := Text.Split(key, '/');
    if |parts| != 4 || parts[0] != "previews" || !Digits(parts[1]) then None
    else
      var last := parts[3];
      if |last| < 4 || last[|last| - 4..] != ".jpg" || !Digits(last[..|last| - 4]) then None
      else Some(KeyFields(Text.DecimalValue(parts[1]), parts[2], Text.DecimalValue(last[..|last| - 4])))
  }

  /** The key keeps the shard, the study id and the timestamp apart: for a
      study id without "/" they can be read back from it. */
  lemma PreviewKeyRoundTrip(shard: nat, studyId: string, millis: nat)
    requires '/' !in studyId
    ensures ParsePreviewKey(PreviewKey(shard, studyId, millis)) == Some(KeyFields(shard, studyId, millis))
  {
    var s, m := Text.NatToString(shard), Text.NatToString(millis);
    var last := m + ".jpg";
    PreviewKeySplit(shard, studyId, millis);
    assert last[..|last| - 4] == m;
    assert last[|last| - 4..] == ".jpg";
    Text.DecimalRoundTrip(shard);
    Text.DecimalRoundTrip(millis);
  }

  lemma PreviewKeySplit(shard: nat, studyId: string, millis: nat)
    requires '/' !in studyId
    ensures Text.Split(PreviewKey(shard, studyId, millis), '/') ==
      ["previews", Text.NatToString(shard), studyId, Text.NatToString(millis) + ".jpg"]
  {
    var s, m := Text.NatToString(shard), Text.NatToString(millis);
    var last := m + ".jpg";
    NoSlashInDigits(s);
    NoSlashInDigits(m);
    assert '/' !in last by {
      assert forall i :: 0 <= i < |last| ==> last[i] != '/';
    }
    var tail := studyId + ['/'] + last;
    assert PreviewKey(shard, studyId, millis) == "previews" + ['/'] + (s + ['/'] + tail);
    SplitThree(studyId, last);
    SplitPrefix(s, tail, [studyId, last]);
    SplitPrefix("previews", s + ['/'] + tail, [s, studyId, last]);
  }

  lemma SplitThree(a: string, b: string)
    requires '/' !in a && '/' !in b
    ensures Text.Split(a + ['/'] + b, '/') == [a, b]
  {
    Text.SplitAround(a, '/', b);
    Text.SplitNoSeparator(a, '/');
    Text.SplitNoSeparator(b, '/');
  }

  lemma SplitPrefix(a: string, rest: string, parts: seq<string>)
    requires '/' !in a && Text.Split(rest, '/') == parts
    ensures Text.Split(a + ['/'] + rest, '/') == [a] + parts
  {
    Text.SplitAround(a, '/', rest);
    Text.SplitNoSeparator(a, '/');
  }

  lemma NoSlashInDigits(s: string)
    requires forall i :: 0 <= i < |s| ==> Text.IsDigit(s[i])
    ensures '/' !in s
  {
    forall i | 0 <= i < |s| ensures s[i] != '/' {
      assert Text.IsDigit(s[i]);
    }
  }

  // ---------------------------------------------------------------------
  // dicom_s3_to_jpeg_and_upload
  // ---------------------------------------------------------------------

  /** An object of the bucket with the headers `put_object` sets. */
  datatype StoredObject = StoredObject(body: Bytes, contentType: string, acl: string)

  /** Why the conversion ended without a preview. */
  datatype PreviewError =
    | HttpError(status: nat, detail: string)   // the HTTPException raised on NoSuchKey
    | FetchFailed                              // get_object raised something other than NoSuchKey
    | RenderFailed                             // pydicom or PIL raised
    | BadStudyId                               // int(study_id[:8], 16) raised
    | UploadFailed                             // put_object raised

  const PresignSeconds: nat := 3600

  /** The bucket `S3_BUCKET_NAME`. */
  class Bucket {
    var objects: map<string, StoredObject>

    constructor(objects: map<string, StoredObject>)
      ensures this.objects == objects
    {
      this.objects := objects;
    }

    /** `dicom_s3_to_jpeg_and_upload(dicom_key, study_id)`: the JPEG bytes
        and the presigned link to the stored preview. `fetchFails` is
        true when `get_object` raises an error other than NoSuchKey, which
        is not caught; `putOk` is false when `put_object` raises. A missing
        DICOM key is a 404 naming the key; nothing is stored unless every
        step up to the upload succeeded, and then exactly the preview key
        is written. */
    method DicomToJpegAndUpload(dicomKey: string, studyId: string, render: Bytes -> Option<Bytes>,
                                millis: nat, presign: (string, nat) -> string,
                                fetchFails: bool, putOk: bool)
      returns (r: Result<(Bytes, string), PreviewError>)
      modifies this
      ensures r.Failure? ==> objects == old(objects)
      ensures fetchFails ==> r == Failure(FetchFailed)
      ensures !fetchFails && dicomKey !in old(objects) ==>
        r == Failure(HttpError(404, "DICOM not found: " + dicomKey))
      ensures !fetchFails && dicomKey in old(objects) && render(old(objects)[dicomKey].body).None? ==>
        r == Failure(RenderFailed)
      ensures !fetchFails && dicomKey in old(objects) && render(old(objects)[dicomKey].body).Some? &&
              Shard(studyId).None? ==>
        r == Failure(BadStudyId)
      ensures !fetchFails && dicomKey in old(objects) && render(old(objects)[dicomKey].body).Some? &&
              Shard(studyId).Some? && !putOk ==>
        r == Failure(UploadFailed)
      ensures r.Success? <==>
        !fetchFails && dicomKey in old(objects) && render(old(objects)[dicomKey].body).Some? &&
        Shard(studyId).Some? && putOk
      ensures r.Success? ==>
        var key := PreviewKey(Shard(studyId).value, studyId, millis);
        var jpeg := render(old(objects)[dicomKey].body).value;
        && r.value == (jpeg, presign(key, PresignSeconds))
        && objects == old(objects)[key := StoredObject(jpeg, "image/jpeg", "private")]
    {
      if fetchFails {
        return Failure(FetchFailed);
      }
      if dicomKey !in objects {
        return Failure(HttpError(404, "DICOM not found: " + dicomKey));
      }
      var dicomBytes := objects[dicomKey].body;
      var jpeg := render(dicomBytes);
      if jpeg.None? {
        return Failure(RenderFailed);
      }
      var shard := Shard(studyId);
      if shard.None? {
        return Failure(BadStudyId);
      }
      var previewKey := PreviewKey(shard.value, studyId, millis);
      if !putOk {
        return Failure(UploadFailed);
      }
      objects := objects[previewKey := StoredObject(jpeg.value, "image/jpeg", "private")];
      var previewUrl := presign(previewKey, PresignSeconds);
      r := Success((jpeg.value, previewUrl));
    }
  }
}

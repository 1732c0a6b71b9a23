/**
 * The upload-key rule of s3_service.py: the service refuses to start without
 * its four settings, and an upload URL is signed for the key
 * "videos/<file name>". The boto3 client's presigning call is a function
 * passed in.
 */
module S3 {
  import opened Wrappers

  /** The four environment variables the constructor reads; `None` when unset. */
  datatype Env = Env(
    accessKey: Option<string>,
    secretKey: Option<string>,
    region: Option<string>,
    bucketName: Option<string>)

  datatype ConfigError = MissingCredentials

  datatype UploadError =
    | MissingInput    // ValueError: file_name or content_type is empty
    | PresignFailed   // the client's generate_presigned_url raised

  /** What the client is asked to sign. */
  datatype PresignRequest = PresignRequest(
    operation: string,
    bucket: string,
    key: string,
    contentType: string,
    expiresIn: nat)

  /** The client's generate_presigned_url: a URL, or `None` when it raises. */
  type Presigner = PresignRequest -> Option<string>

  /** The pair get_upload_url returns. */
  datatype UploadTarget = UploadTarget(url: string, videoKey: string)

  const KeyPrefix: string := "videos/"
  const ExpirySeconds: nat := 3600

  /** Python truthiness of an `os.getenv` result: set and not empty. */
  predicate Present(v: Option<string>)
  {
    v.Some? && v.value != ""
  }

  /** `all([...])` over the four settings. */
  predicate ConfigComplete(env: Env)
  {
    Present(env.accessKey) && Present(env.secretKey) && Present(env.region) && Present(env.bucketName)
  }

  /** The object key an upload of `fileName` is stored under. */
  function VideoKey(fileName: string): (r: string)
  {
    KeyPrefix + fileName
  }

  /** The file name a key was derived from, if it has the upload prefix. */
  function FileNameOfKey(key: string): (r: Option<string>)
  {
    if |key| >= |KeyPrefix| && key[..|KeyPrefix|] == KeyPrefix then Some(key[|KeyPrefix|..]) else None
  }

  /** The key names its file: stripping the prefix gives the file name back. */
  lemma FileNameOfVideoKey(fileName: string)
    ensures FileNameOfKey(VideoKey(fileName)) == Some(fileName)
  {
    assert VideoKey(fileName)[..|KeyPrefix|] == KeyPrefix;
    assert VideoKey(fileName)[|KeyPrefix|..] == fileName;
  }

  /** Different files get different keys. */
  lemma VideoKeyInjective(a: string, b: string)
    requires VideoKey(a) == VideoKey(b)
    ensures a == b
  {
    FileNameOfVideoKey(a);
    FileNameOfVideoKey(b);
  }

  class S3Service {
    const accessKey: string
    const secretKey: string
    const region: string
    const bucketName: string

    constructor (env: Env)
      requires ConfigComplete(env)
      ensures accessKey == env.accessKey.value && secretKey == env.secretKey.value
      ensures region == env.region.value && bucketName == env.bucketName.value
    {
      accessKey := env.accessKey.value;
      secretKey := env.secretKey.value;
      region := env.region.value;
      bucketName := env.bucketName.value;
    }

    /** `S3Service()`: raises unless all four settings are set and non-empty. */
    static method Create(env: Env) returns (r: Result<S3Service, ConfigError>)
      ensures r.Err? <==> !ConfigComplete(env)
      ensures r.Ok? ==> fresh(r.value) && r.value.bucketName == env.bucketName.value
      ensures r.Ok? ==> r.value.accessKey == env.accessKey.value && r.value.secretKey == env.secretKey.value
      ensures r.Ok? ==> r.value.region == env.region.value
    {
      if !ConfigComplete(env) {
        return Err(MissingCredentials);
      }
      var service := new S3Service(env);
      return Ok(service);
    }

    /** The signing request for an upload of `fileName` with `contentType`. */
    function UploadRequest(fileName: string, contentType: string): (r: PresignRequest)
    {
      PresignRequest("put_object", bucketName, VideoKey(fileName), contentType, ExpirySeconds)
    }

    /**
     * get_upload_url: empty inputs are refused before anything is signed;
     * otherwise the key is "videos/" + file name and the URL is the one the
     * client signs for that key, the content type and one hour.
     */
    function GetUploadUrl(fileName: string, contentType: string, client: Presigner): (r: Result<UploadTarget, UploadError>)
      ensures r == Err(MissingInput) <==> fileName == "" || contentType == ""
      ensures r == Err(PresignFailed) <==>
        fileName != "" && contentType != "" && client(UploadRequest(fileName, contentType)).None?
      ensures r.Ok? ==>
        && r.value.videoKey == KeyPrefix + fileName
        && Some(r.value.url) == client(PresignRequest("put_object", bucketName, r.value.videoKey, contentType, 3600))
    {
      if fileName == "" || contentType == "" then Err(MissingInput)
      else
        var url := client(UploadRequest(fileName, contentType));
        if url.None? then Err(PresignFailed) else Ok(UploadTarget(url.value, VideoKey(fileName)))
    }

    /** The validation does not depend on the client: an empty input fails the same way with any client. */
    lemma ValidationPrecedesSigning(fileName: string, contentType: string, c1: Presigner, c2: Presigner)
      requires fileName == "" || contentType == ""
      ensures GetUploadUrl(fileName, contentType, c1) == GetUploadUrl(fileName, contentType, c2) == Err(MissingInput)
    {
    }

    /** A successful call's key has the "videos/" prefix, is longer than it, and gives the file name back. */
    lemma UploadKeyShape(fileName: string, contentType: string, client: Presigner)
      requires GetUploadUrl(fileName, contentType, client).Ok?
      ensures var key := GetUploadUrl(fileName, contentType, client).value.videoKey;
        |key| > |KeyPrefix| && key[..|KeyPrefix|] == KeyPrefix && FileNameOfKey(key) == Some(fileName)
    {
      FileNameOfVideoKey(fileName);
    }
  }
}

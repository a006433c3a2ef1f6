/**
 * The input guards of `ReceiptExtractorClient` and the request each entry
 * point builds before it is posted:
 *   - the constructor refuses an empty API key;
 *   - `process_receipt_file` maps the file's suffix, lower-cased, to an image
 *     MIME type and refuses any suffix outside the table;
 *   - `process_receipt_bytes` and `process_receipt_url` refuse a content type
 *     that does not start with `image/`;
 *   - `_send_request` adds `X-API-Key` to the headers unless the caller
 *     already supplied `X-API-Key` or `Authorization`.
 * The network call, the file system and the decoding of the reply are
 * outside the model: what they would return arrives as a parameter.
 */
module ReceiptClient {
  import opened Wrappers

  newtype byte = x: int | 0 <= x < 256

  /** The default of `__init__`'s `timeout` argument, in seconds. */
  const DEFAULT_TIMEOUT: int := 30
  const API_KEY_HEADER := "X-API-Key"
  const AUTHORIZATION_HEADER := "Authorization"
  const CONTENT_TYPE_HEADER := "Content-Type"
  /** The multipart form field the image file is sent under. */
  const IMAGE_FIELD := "image"

  /** The `ValueError`s and the `FileNotFoundError` raised before any request is sent. */
  datatype ClientError =
    | ApiKeyRequired
    | FileNotFound(path: string)
    | UnsupportedImageFormat(extension: string)
    | UnsupportedContentType(contentType: string)
    | NotAnImage(contentType: string)

  /** The client's settings; `__init__` sets them once and nothing changes them afterwards. */
  datatype ReceiptExtractorClient = ReceiptExtractorClient(apiUrl: string, apiKey: string, timeout: int)

  /** What is posted: the raw image bytes, or a multipart form holding the image file. */
  datatype Body =
    | RawBody(data: seq<byte>)
    | MultipartFile(field: string, fileName: string, data: seq<byte>, contentType: string)

  datatype Request = Request(url: string, body: Body, headers: map<string, string>, timeout: int)

  // ---------------------------------------------------------------------
  // Construction
  // ---------------------------------------------------------------------

  /** `ReceiptExtractorClient(api_url, api_key, timeout)`: an empty key raises. */
  function NewClient(apiUrl: string, apiKey: string, timeout: int := DEFAULT_TIMEOUT): (r: Result<ReceiptExtractorClient, ClientError>)
    ensures r.Failure? <==> apiKey == ""
    ensures r.Failure? ==> r.error == ApiKeyRequired
    ensures r.Success? ==> r.value.apiKey != ""
    ensures r.Success? ==> r.value.apiUrl == apiUrl && r.value.apiKey == apiKey && r.value.timeout == timeout
  {
    if apiKey == "" then Failure(ApiKeyRequired)
    else Success(ReceiptExtractorClient(apiUrl, apiKey, timeout))
  }

  // ---------------------------------------------------------------------
  // Strings and paths
  // ---------------------------------------------------------------------

  function LowerChar(c: char): char {
    if 'A' <= c <= 'Z' then (c as int - 'A' as int + 'a' as int) as char else c
  }

  function UpperChar(c: char): char {
    if 'a' <= c <= 'z' then (c as int - 'a' as int + 'A' as int) as char else c
  }

  /** `s.lower()`, for ASCII letters. */
  function Lower(s: string): (r: string)
    ensures |r| == |s|
    ensures forall i :: 0 <= i < |s| ==> r[i] == LowerChar(s[i])
  {
    if s == [] then [] else [LowerChar(s[0])] + Lower(s[1..])
  }

  /** `s.upper()`, for ASCII letters. */
  function Upper(s: string): (r: string)
    ensures |r| == |s|
    ensures forall i :: 0 <= i < |s| ==> r[i] == UpperChar(s[i])
  {
    if s == [] then [] else [UpperChar(s[0])] + Upper(s[1..])
  }

  /** `s.rfind(c)`: the last index holding `c`, or -1. */
  function LastIndexOf(s: string, c: char): (r: int)
    ensures -1 <= r < |s|
    ensures r >= 0 ==> s[r] == c
    ensures forall j :: r < j < |s| ==> s[j] != c
  {
    if s == [] then -1
    else if s[|s| - 1] == c then |s| - 1
    else LastIndexOf(s[..|s| - 1], c)
  }

  /**
   * `Path(path).name` for a POSIX path: the last component, where empty
   * components (repeated or trailing slashes) and `.` components do not count.
   */
  function FileName(path: string): (r: string)
    ensures '/' !in r && r != "."
    ensures |r| <= |path|
    ensures '/' !in path && path != "." ==> r == path
    decreases |path|
  {
    var cut := LastIndexOf(path, '/');
    assert '/' !in path ==> cut == -1;
    var last := path[cut + 1..];
    if last != "" && last != "." then last
    else if cut < 0 then ""
    else FileName(path[..cut])
  }

  /**
   * `PurePath.suffix` of a file name: from its last dot to the end, provided
   * that dot is neither the first nor the last character; otherwise empty.
   */
  function Suffix(name: string): (r: string)
    ensures r == "" || (2 <= |r| < |name| && r[0] == '.' && r == name[|name| - |r|..])
    ensures r != "" ==> '.' !in r[1..]
  {
    var dot := LastIndexOf(name, '.');
    if 0 < dot < |name| - 1 then name[dot..] else ""
  }

  // ---------------------------------------------------------------------
  // Content types
  // ---------------------------------------------------------------------

  const IMAGE_CONTENT_TYPES: map<string, string> := map[
    ".jpg" := "image/jpeg",
    ".jpeg" := "image/jpeg",
    ".png" := "image/png",
    ".gif" := "image/gif",
    ".bmp" := "image/bmp",
    ".webp" := "image/webp",
    ".heic" := "image/heic"
  ]

  /** `content_type.startswith('image/')`, which is case-sensitive. */
  predicate IsImageContentType(contentType: string)
    ensures IsImageContentType(contentType) ==> |contentType| >= 6 && contentType == "image/" + contentType[6..]
  {
    |contentType| >= 6 && contentType[..6] == "image/"
  }

  /** The table lookup of `process_receipt_file` on an already extracted suffix. */
  function ContentTypeForExtension(extension: string): (r: Result<string, ClientError>)
    ensures r.Success? <==> Lower(extension) in IMAGE_CONTENT_TYPES
    ensures r.Success? ==> r.value == IMAGE_CONTENT_TYPES[Lower(extension)] && IsImageContentType(r.value)
    ensures r.Failure? ==> r.error == UnsupportedImageFormat(Lower(extension))
  {
    var ext := Lower(extension);
    if ext in IMAGE_CONTENT_TYPES then Success(IMAGE_CONTENT_TYPES[ext])
    else Failure(UnsupportedImageFormat(ext))
  }

  /** `Path(path).suffix.lower()` looked up in the table. */
  function ContentTypeForPath(path: string): (r: Result<string, ClientError>)
    ensures r.Success? ==> IsImageContentType(r.value) && r.value in IMAGE_CONTENT_TYPES.Values
    ensures r.Success? <==> Lower(Suffix(FileName(path))) in IMAGE_CONTENT_TYPES
    ensures r.Success? ==> r.value == IMAGE_CONTENT_TYPES[Lower(Suffix(FileName(path)))]
    ensures r.Failure? ==> r.error == UnsupportedImageFormat(Lower(Suffix(FileName(path))))
    ensures r.Failure? ==> r.error.extension !in IMAGE_CONTENT_TYPES
  {
    ContentTypeForExtension(Suffix(FileName(path)))
  }

  // ---------------------------------------------------------------------
  // Headers and requests
  // ---------------------------------------------------------------------

  /**
   * The header defaulting of `_send_request`: the client's key is added under
   * `X-API-Key` unless the caller already supplied credentials.
   */
  function WithDefaultApiKey(headers: map<string, string>, apiKey: string): (r: map<string, string>)
    ensures forall h :: h in headers ==> h in r && r[h] == headers[h]
    ensures forall h :: h in r && h !in headers ==> h == API_KEY_HEADER && r[h] == apiKey
    ensures API_KEY_HEADER in r || AUTHORIZATION_HEADER in r
    ensures API_KEY_HEADER in headers || AUTHORIZATION_HEADER in headers ==> r == headers
  {
    if API_KEY_HEADER !in headers && AUTHORIZATION_HEADER !in headers
    then headers[API_KEY_HEADER := apiKey]
    else headers
  }

  /** `_send_request(data, files, headers)` up to the point where it posts. */
  function PrepareRequest(client: ReceiptExtractorClient, body: Body, headers: Option<map<string, string>>): (r: Request)
    ensures r.url == client.apiUrl && r.body == body && r.timeout == client.timeout
    ensures API_KEY_HEADER in r.headers || AUTHORIZATION_HEADER in r.headers
    ensures headers.None? ==> r.headers == map[API_KEY_HEADER := client.apiKey]
    ensures headers.Some? ==> r.headers == WithDefaultApiKey(headers.value, client.apiKey)
  {
    Request(client.apiUrl, body, WithDefaultApiKey(headers.GetOr(map[]), client.apiKey), client.timeout)
  }

  /**
   * `process_receipt_bytes(image_data, content_type)`: the image bytes are
   * posted as the body, with the content type and the client's key as headers.
   */
  function ProcessReceiptBytes(client: ReceiptExtractorClient, imageData: seq<byte>, contentType: string): (r: Result<Request, ClientError>)
    ensures r.Failure? <==> !IsImageContentType(contentType)
    ensures r.Failure? ==> r.error == UnsupportedContentType(contentType)
    ensures r.Success? ==> r.value.body == RawBody(imageData) && r.value.url == client.apiUrl
    ensures r.Success? ==> r.value.timeout == client.timeout
    ensures r.Success? ==> r.value.headers == map[CONTENT_TYPE_HEADER := contentType, API_KEY_HEADER := client.apiKey]
  {
    if !IsImageContentType(contentType) then Failure(UnsupportedContentType(contentType))
    else
      var headers := map[CONTENT_TYPE_HEADER := contentType, API_KEY_HEADER := client.apiKey];
      Success(PrepareRequest(client, RawBody(imageData), Some(headers)))
  }

  /**
   * `process_receipt_file(image_path)`. Whether the file exists and what it
   * holds are read from the file system, so they arrive as parameters.
   */
  function ProcessReceiptFile(client: ReceiptExtractorClient, imagePath: string, fileExists: bool, fileData: seq<byte>): (r: Result<Request, ClientError>)
    ensures !fileExists ==> r == Failure(FileNotFound(imagePath))
    ensures fileExists ==> (r.Success? <==> ContentTypeForPath(imagePath).Success?)
    ensures fileExists && r.Failure? ==> r.error == ContentTypeForPath(imagePath).error
    ensures r.Success? ==>
      && r.value.body.MultipartFile?
      && r.value.body.contentType == ContentTypeForPath(imagePath).value
      && r.value.url == client.apiUrl
      && r.value.timeout == client.timeout
    ensures r.Success? ==>
      && r.value.body.MultipartFile?
      && r.value.body.field == IMAGE_FIELD
      && r.value.body.fileName == FileName(imagePath)
      && r.value.body.data == fileData
      && IsImageContentType(r.value.body.contentType)
    ensures r.Success? ==> r.value.headers == map[API_KEY_HEADER := client.apiKey]
  {
    if !fileExists then Failure(FileNotFound(imagePath))
    else match ContentTypeForPath(imagePath)
      case Failure(e) => Failure(e)
      case Success(contentType) =>
        Success(PrepareRequest(client, MultipartFile(IMAGE_FIELD, FileName(imagePath), fileData, contentType), None))
  }

  /**
   * `process_receipt_url(image_url)` once the image has been fetched: the
   * fetched response's `Content-Type` header (if any) and body arrive as
   * parameters.
   */
  function ProcessReceiptUrl(client: ReceiptExtractorClient, fetchedContentType: Option<string>, fetchedData: seq<byte>): (r: Result<Request, ClientError>)
    ensures r.Failure? <==> !IsImageContentType(fetchedContentType.GetOr(""))
    ensures r.Failure? ==> r.error == NotAnImage(fetchedContentType.GetOr(""))
    ensures r.Success? ==> r.value.body == RawBody(fetchedData)
    ensures r.Success? ==> r.value.url == client.apiUrl && r.value.timeout == client.timeout
    ensures r.Success? ==> r.value.headers == map[CONTENT_TYPE_HEADER := fetchedContentType.GetOr(""), API_KEY_HEADER := client.apiKey]
  {
    var contentType := fetchedContentType.GetOr("");
    if !IsImageContentType(contentType) then Failure(NotAnImage(contentType))
    else ProcessReceiptBytes(client, fetchedData, contentType)
  }

  // ---------------------------------------------------------------------
  // Properties
  // ---------------------------------------------------------------------

  lemma LowerOfUpper(s: string)
    ensures Lower(Upper(s)) == Lower(s)
  {
  }

  /** The lookup ignores the case of the suffix: `.JPG` is `.jpg`. */
  lemma ExtensionLookupIgnoresCase(extension: string)
    ensures ContentTypeForExtension(Upper(extension)) == ContentTypeForExtension(extension)
    ensures ContentTypeForExtension(Lower(extension)) == ContentTypeForExtension(extension)
  {
    LowerOfUpper(extension);
    LowerIdempotent(extension);
  }

  lemma LowerIdempotent(s: string)
    ensures Lower(Lower(s)) == Lower(s)
  {
  }

  /** Exactly the seven listed suffixes are accepted, `.jpg` and `.jpeg` both as `image/jpeg`. */
  lemma AcceptedExtensions(extension: string)
    ensures ContentTypeForExtension(extension).Success?
        <==> Lower(extension) in {".jpg", ".jpeg", ".png", ".gif", ".bmp", ".webp", ".heic"}
    ensures Lower(extension) in {".jpg", ".jpeg"} ==> ContentTypeForExtension(extension) == Success("image/jpeg")
  {
  }

  /** Whatever the file lookup accepts also passes the `image/` check of the other two entry points. */
  lemma FileContentTypePassesPrefixCheck(client: ReceiptExtractorClient, path: string, data: seq<byte>)
    requires ContentTypeForPath(path).Success?
    ensures ProcessReceiptBytes(client, data, ContentTypeForPath(path).value).Success?
  {
  }

  /** A URL fetch never fails the second `image/` check in `process_receipt_bytes`. */
  lemma UrlNeverRaisesUnsupportedContentType(client: ReceiptExtractorClient, fetchedContentType: Option<string>, data: seq<byte>)
    ensures ProcessReceiptUrl(client, fetchedContentType, data).Failure? ==>
      ProcessReceiptUrl(client, fetchedContentType, data).error.NotAnImage?
  {
  }

  /** Defaulting twice is defaulting once. */
  lemma DefaultApiKeyIdempotent(headers: map<string, string>, apiKey: string)
    ensures WithDefaultApiKey(WithDefaultApiKey(headers, apiKey), apiKey) == WithDefaultApiKey(headers, apiKey)
  {
  }

  /**
   * Unless the caller supplied its own credentials, every request a
   * successfully built client prepares carries the client's non-empty key.
   */
  lemma RequestsCarryClientKey(apiUrl: string, apiKey: string, timeout: int, body: Body, headers: Option<map<string, string>>)
    requires NewClient(apiUrl, apiKey, timeout).Success?
    requires headers.Some? ==> API_KEY_HEADER !in headers.value && AUTHORIZATION_HEADER !in headers.value
    ensures var r := PrepareRequest(NewClient(apiUrl, apiKey, timeout).value, body, headers);
      API_KEY_HEADER in r.headers && r.headers[API_KEY_HEADER] == apiKey != ""
  {
  }

  /** The suffix of `stem + extension` is `extension` when it is a dot followed by dot-free text. */
  lemma SuffixOfStemAndExtension(stem: string, extension: string)
    requires stem != "" && |extension| >= 2 && extension[0] == '.' && '.' !in extension[1..]
    ensures Suffix(stem + extension) == extension
  {
    var name := stem + extension;
    assert name[|stem|] == '.';
    assert forall j :: |stem| < j < |name| ==> name[j] == extension[1..][j - |stem| - 1];
    assert LastIndexOf(name, '.') == |stem|;
    assert name[|stem|..] == extension;
  }

  /** A bare file name `stem.ext`, with no directory, is looked up by `.ext`. */
  lemma BareNameLookupUsesSuffix(stem: string, extension: string)
    requires stem != "" && '/' !in stem
    requires |extension| >= 2 && extension[0] == '.' && '.' !in extension[1..] && '/' !in extension
    ensures ContentTypeForPath(stem + extension) == ContentTypeForExtension(extension)
  {
    var name := stem + extension;
    assert '/' !in name by {
      assert forall j :: 0 <= j < |name| ==> name[j] == if j < |stem| then stem[j] else extension[j - |stem|];
    }
    assert name != "." by { assert |name| >= 3; }
    SuffixOfStemAndExtension(stem, extension);
  }

  /**
   * The `image/` check accepts every content type that starts with `image/`,
   * and it is case-sensitive.
   */
  lemma ImagePrefixCheck(rest: string)
    ensures IsImageContentType("image/" + rest)
    ensures !IsImageContentType("Image/" + rest) && !IsImageContentType("IMAGE/" + rest)
    ensures !IsImageContentType("image") && !IsImageContentType("")
  {
    assert ("image/" + rest)[..6] == "image/";
    assert ("Image/" + rest)[..6] == "Image/";
    assert ("IMAGE/" + rest)[..6] == "IMAGE/";
  }

  /** A name whose only dot is its first character (`.png`) has no suffix. */
  lemma DotFileHasNoSuffix(name: string)
    requires name != [] && name[0] == '.' && '.' !in name[1..]
    ensures Suffix(name) == ""
  {
    assert forall j :: 0 < j < |name| ==> name[j] == name[1..][j - 1];
    assert LastIndexOf(name, '.') == 0;
  }

  /** The file name of `directory/name` is `name`, whatever the directory. */
  lemma FileNameOfChild(directory: string, name: string)
    requires name != "" && name != "." && '/' !in name
    ensures FileName(directory + "/" + name) == name
  {
    var path := directory + "/" + name;
    assert path[|directory|] == '/';
    assert forall j :: |directory| < j < |path| ==> path[j] == name[j - |directory| - 1];
    assert LastIndexOf(path, '/') == |directory|;
    assert path[|directory| + 1..] == name;
  }

  /**
   * A trailing `/` or `/.` does not change the file name: `pathlib` drops
   * empty and `.` components, so `scan.png/` still names `scan.png`.
   */
  lemma FileNameIgnoresTrailingParts(path: string)
    ensures FileName(path + "/") == FileName(path)
    ensures FileName(path + "/.") == FileName(path)
  {
    var slash := path + "/";
    assert LastIndexOf(slash, '/') == |path|;
    assert slash[..|path|] == path;
    var slashDot := path + "/.";
    assert slashDot[|path| + 1] == '.';
    assert LastIndexOf(slashDot[..|path| + 1], '/') == |path|;
    assert LastIndexOf(slashDot, '/') == |path|;
    assert slashDot[|path| + 1..] == ".";
    assert slashDot[..|path|] == path;
  }

  /**
   * For a file `directory/stem.ext` the lookup sees exactly `.ext`: the
   * directory and any earlier dots in the stem play no part.
   */
  lemma PathLookupUsesLastSuffix(directory: string, stem: string, extension: string)
    requires stem != "" && '/' !in stem
    requires |extension| >= 2 && extension[0] == '.' && '.' !in extension[1..] && '/' !in extension
    ensures ContentTypeForPath(directory + "/" + stem + extension) == ContentTypeForExtension(extension)
  {
    var name := stem + extension;
    assert '/' !in name by {
      assert forall j :: 0 <= j < |name| ==> name[j] == if j < |stem| then stem[j] else extension[j - |stem|];
    }
    assert directory + "/" + stem + extension == directory + "/" + name;
    FileNameOfChild(directory, name);
    SuffixOfStemAndExtension(stem, extension);
  }
}

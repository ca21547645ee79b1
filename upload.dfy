/**
 * The image upload endpoint of api/upload.js: a POST carrying a base64 data
 * URL is checked step by step (method, fields, format, type, size) and stored
 * under a fresh name in the public `media` bucket.
 */
module Upload {
  import opened Options
  import opened Strings
  import opened Js
  import opened Http

  const Bucket := "media"
  const Subfolder := "comment-uploads"
  /** 5 MB. */
  const MaxBytes: nat := 5 * 1024 * 1024
  const AllowedMime: seq<string> := ["image/jpeg", "image/png", "image/gif", "image/webp"]

  const Allow := "POST"
  const NotAllowed := "Method not allowed"
  const MissingFields := "Missing dataUrl or filename"
  const BadFormat := "Invalid dataUrl format"
  const BadType := "Only JPEG, PNG, GIF, and WEBP images are allowed"
  const TooLarge := "Image must be under 5 MB"
  const UploadFailed := "Failed to upload image"

  /** The JSON bodies the handler sends. */
  datatype Payload =
    | Uploaded(url: string)   // { ok: true, url }
    | Error(message: string)  // { error }

  /** `send(res, status, body)`: no cache header here. */
  function Send(status: int, body: Payload): Response<Payload> {
    Response(status, None, false, body)
  }

  // ---------------------------------------------------------------- data URLs

  /** The characters `.` does not match in a JavaScript regular expression. */
  predicate IsLineTerminator(c: char) {
    c == '\n' || c == '\r' || c == '\U{2028}' || c == '\U{2029}'
  }

  /** The two groups of `data:<mime>;base64,<payload>`. */
  datatype DataUrl = DataUrl(mime: string, payload: string)

  /** What `^data:([^;]+);base64,(.+)$` can capture: a non-empty type without `;`, a non-empty single-line payload. */
  predicate Matchable(d: DataUrl) {
    && d.mime != [] && ';' !in d.mime
    && d.payload != [] && forall i :: 0 <= i < |d.payload| ==> !IsLineTerminator(d.payload[i])
  }

  /** The text of a data URL. */
  function DataUrlText(d: DataUrl): string {
    "data:" + d.mime + ";base64," + d.payload
  }

  /**
   * `s.match(/^data:([^;]+);base64,(.+)$/)`: the type runs up to the first
   * `;`, which must open `;base64,`, and the rest is the payload.
   */
  function ParseDataUrl(s: string): (r: Option<DataUrl>)
    ensures r.Some? ==> Matchable(r.value) && DataUrlText(r.value) == s
  {
    if |s| < 5 || s[..5] != "data:" then None
    else match IndexOfChar(s[5..], ';')
      case None => None
      case Some(k) =>
        if k == 0 || |s| < 5 + k + 8 || s[5 + k..5 + k + 8] != ";base64," then None
        else
          var d := DataUrl(s[5..5 + k], s[5 + k + 8..]);
          if !Matchable(d) then None
          else
            DataUrlPieces(s, k);
            Some(d)
  }

  /** A text that starts with `data:` and has `;base64,` after `k` more characters is made of those pieces. */
  lemma DataUrlPieces(s: string, k: nat)
    requires 5 + k + 8 <= |s| && s[..5] == "data:" && s[5 + k..5 + k + 8] == ";base64,"
    ensures s == "data:" + s[5..5 + k] + ";base64," + s[5 + k + 8..]
  {
    assert s == s[..5] + s[5..5 + k] + s[5 + k..5 + k + 8] + s[5 + k + 8..];
  }

  /** Every text the pattern can match is read back into the groups it was built from. */
  lemma ParseDataUrlText(d: DataUrl)
    requires Matchable(d)
    ensures ParseDataUrl(DataUrlText(d)) == Some(d)
  {
    var s, k := DataUrlText(d), |d.mime|;
    DataUrlTextPieces(d);
    IndexOfCharAt(s[5..], ';', k);
  }

  /** Where the pieces of a data URL's text lie. */
  lemma DataUrlTextPieces(d: DataUrl)
    ensures var s, k := DataUrlText(d), |d.mime|;
      && |s| == 5 + k + 8 + |d.payload| && s[..5] == "data:"
      && s[5..][..k] == d.mime && s[5..][k] == ';'
      && s[5..5 + k] == d.mime && s[5 + k..5 + k + 8] == ";base64," && s[5 + k + 8..] == d.payload
  {
    var s, k := DataUrlText(d), |d.mime|;
    assert s == "data:" + d.mime + ";base64," + d.payload;
    assert s[5..] == d.mime + ";base64," + d.payload;
  }

  // ---------------------------------------------------------------- names

  /**
   * `mime.split('/')[1].replace('jpeg', 'jpg')`: the part between the first
   * and the second `/`, with its first `jpeg` written `jpg`. `None` when there
   * is no `/`, where the source would fail on `undefined`.
   */
  function Extension(mime: string): (r: Option<string>)
    ensures r.None? <==> '/' !in mime
  {
    match IndexOfChar(mime, '/')
    case None => None
    case Some(k) =>
      var rest := mime[k + 1..];
      var part := match IndexOfChar(rest, '/') case None => rest case Some(j) => rest[..j];
      Some(ReplaceFirst(part, "jpeg", "jpg"))
  }

  /** The type an extension names: the reverse of `Extension` on the allowed types, which it maps the four extensions back into. */
  function MimeFor(ext: string): (m: string)
    ensures "image/" <= m
    ensures ext in ["jpg", "png", "gif", "webp"] ==> m in AllowedMime
  {
    var m := "image/" + (if ext == "jpg" then "jpeg" else ext);
    assert ext in ["jpg", "png", "gif", "webp"] ==> m in AllowedMime by {
      if ext == "jpg" { assert m == AllowedMime[0]; }
      else if ext == "png" { assert m == AllowedMime[1]; }
      else if ext == "gif" { assert m == AllowedMime[2]; }
      else if ext == "webp" { assert m == AllowedMime[3]; }
    }
    m
  }

  /** The extension of an `image/` type with a one-part subtype is that subtype, `jpeg` written `jpg`. */
  lemma {:induction false} ExtensionOfImage(sub: string)
    requires '/' !in sub
    ensures Extension("image/" + sub) == Some(ReplaceFirst(sub, "jpeg", "jpg"))
  {
    var mime := "image/" + sub;
    assert mime[..5] == "image" && mime[5] == '/';
    assert IndexOfChar(mime, '/') == Some(5);
    assert mime[6..] == sub;
  }

  /** The four allowed subtypes map to their usual extensions, and back. */
  lemma ImageSubtypeExtension(sub: string)
    requires sub == "jpeg" || sub == "png" || sub == "gif" || sub == "webp"
    ensures Extension("image/" + sub).Some?
    ensures Extension("image/" + sub).value in ["jpg", "png", "gif", "webp"]
    ensures MimeFor(Extension("image/" + sub).value) == "image/" + sub
  {
    assert '/' !in sub;
    ExtensionOfImage(sub);
    ReplaceJpeg(sub);
  }

  /** Among the allowed subtypes only `jpeg` itself is rewritten. */
  lemma ReplaceJpeg(sub: string)
    requires sub == "jpeg" || sub == "png" || sub == "gif" || sub == "webp"
    ensures ReplaceFirst(sub, "jpeg", "jpg") == if sub == "jpeg" then "jpg" else sub
  {
    if sub == "jpeg" {
      assert IndexOf(sub, "jpeg") == Some(0);
    } else {
      NoLongerOccurrence(sub, "jpeg");
    }
  }

  /** Each allowed type maps to its usual extension, and back. */
  lemma AllowedExtensions(mime: string)
    requires mime in AllowedMime
    ensures Extension(mime).Some?
    ensures Extension(mime).value in ["jpg", "png", "gif", "webp"]
    ensures MimeFor(Extension(mime).value) == mime
  {
    var sub := mime[6..];
    assert mime == "image/" + sub;
    assert sub == "jpeg" || sub == "png" || sub == "gif" || sub == "webp";
    ImageSubtypeExtension(sub);
  }

  /** `${SUBFOLDER}/${unique}` with `unique` the time-and-random stamp followed by the extension. */
  function StoragePath(stamp: string, ext: string): (p: string)
    ensures Subfolder + "/" <= p
    ensures |p| == |Subfolder| + 1 + |stamp| + 1 + |ext|
    ensures p[|p| - |ext|..] == ext && p[|p| - |ext| - 1] == '.'
  {
    var p := Subfolder + "/" + stamp + "." + ext;
    assert p == (Subfolder + "/" + stamp + ".") + ext;
    p
  }

  /**
   * `restBaseUrl.replace('/rest/v1', '')`: the project's base address. An
   * address without `/rest/v1` is kept, and one with it loses exactly those
   * eight characters.
   */
  function StorageBase(restBaseUrl: string): (r: string)
    ensures IndexOf(restBaseUrl, "/rest/v1").None? ==> r == restBaseUrl
    ensures IndexOf(restBaseUrl, "/rest/v1").Some? ==> |r| + 8 == |restBaseUrl|
  {
    ReplaceFirst(restBaseUrl, "/rest/v1", "")
  }

  /** The usual REST address, an origin followed by `/rest/v1`, has that origin as its base. */
  lemma StorageBaseOfRestUrl(origin: string)
    requires IndexOf(origin, "/rest/v1").None?
    ensures StorageBase(origin + "/rest/v1") == origin
  {
    var pat := "/rest/v1";
    var s := origin + pat;
    assert pat <= s[|origin|..];
    forall j | 0 <= j < |origin|
      ensures !(pat <= s[j..])
    {
      if j + 8 <= |origin| {
        assert s[j..j + 8] == origin[j..j + 8];
        assert !(pat <= origin[j..]);
      } else {
        var l := |origin| - j;
        assert s[j + l] == '/' && s[j + l + 1] == 'r';
        assert pat[l] != '/' || pat[l + 1] != 'r';
      }
    }
    assert IndexOf(s, pat) == Some(|origin|);
    assert s[..|origin|] == origin;
  }

  /** Where the bytes are sent: the base, the bucket's route, then the path. */
  function UploadUrl(base: string, path: string): (u: string)
    ensures base <= u && |u| == |base| + |"/storage/v1/object/media/"| + |path|
    ensures u[|u| - |path|..] == path
  {
    var u := base + "/storage/v1/object/" + Bucket + "/" + path;
    assert u == (base + "/storage/v1/object/media/") + path;
    u
  }

  /**
   * Where the stored image is served from: the base, the bucket's public
   * route, then the path; that is, the upload address with `public/` before
   * the bucket.
   */
  function PublicUrl(base: string, path: string): (u: string)
    ensures var prefix := base + "/storage/v1/object/";
      && prefix <= UploadUrl(base, path) && prefix <= u
      && u == prefix + "public/" + UploadUrl(base, path)[|prefix|..]
    ensures u[|u| - |path|..] == path
  {
    var prefix := base + "/storage/v1/object/";
    var u := base + "/storage/v1/object/public/" + Bucket + "/" + path;
    assert UploadUrl(base, path) == prefix + (Bucket + "/" + path);
    assert u == prefix + ("public/" + (Bucket + "/" + path));
    assert u == (base + "/storage/v1/object/public/media/") + path;
    u
  }

  // ---------------------------------------------------------------- handler

  /**
   * What the handler reads from a request: the method and the text of
   * `dataUrl`, `None` when the body, `dataUrl` or `filename` is missing or
   * falsy.
   */
  datatype Intent = Intent(httpMethod: string, dataUrl: Option<string>)

  /**
   * `parseBase64Body`: an absent body, text that is not JSON, and `null` are
   * `null`. A parsed array or primitive is `null` when falsy and has no
   * `dataUrl` otherwise, so it is `null` here: both lead to the same 400.
   */
  function UploadBody(b: Body): (f: Option<Fields>)
    ensures b.ObjectBody? ==> f == Some(b.fields)
    ensures b.TextBody? && b.text != "" && b.parsed.JsonObject? ==> f == Some(b.parsed.fields)
    ensures f.Some? <==> b.ObjectBody? || (b.TextBody? && b.text != "" && b.parsed.JsonObject?)
  {
    match b
    case NoBody => None
    case ObjectBody(fields) => Some(fields)
    case TextBody(text, parsed) => if text != "" && parsed.JsonObject? then Some(parsed.fields) else None
  }

  function IntentOf(req: Request): (i: Intent)
    ensures i.httpMethod == req.httpMethod
    ensures i.dataUrl.Some? <==>
      UploadBody(req.body).Some? &&
      Truthy(Get(UploadBody(req.body).value, "dataUrl")) && Truthy(Get(UploadBody(req.body).value, "filename"))
  {
    Intent(req.httpMethod,
           match UploadBody(req.body)
           case None => None
           case Some(fields) =>
             if Truthy(Get(fields, "dataUrl")) && Truthy(Get(fields, "filename"))
             then Some(ToStr(Get(fields, "dataUrl")))
             else None)
  }

  /** `getSupabaseRestConfig()`: the REST base address, or the error it throws when unconfigured. */
  datatype Config = Configured(restBaseUrl: string) | Unconfigured(failure: Failure)

  /** The storage service's answer to the upload: accepted, refused (`!ok`), or a thrown error. */
  datatype Outcome = Stored | Refused | Threw(failure: Failure)

  /** The upload the handler makes: the address, the content type and the number of bytes sent. */
  datatype Put = Put(url: string, contentType: string, size: nat)

  /** The data URL that passed every check, if any. */
  function Accepted(i: Intent, decodedLength: string -> nat): (r: Option<DataUrl>)
    ensures r.Some? <==>
      && i.httpMethod == "POST" && i.dataUrl.Some? && ParseDataUrl(i.dataUrl.value).Some?
      && ParseDataUrl(i.dataUrl.value).value.mime in AllowedMime
      && decodedLength(ParseDataUrl(i.dataUrl.value).value.payload) <= MaxBytes
    ensures r.Some? ==> r == ParseDataUrl(i.dataUrl.value)
  {
    if i.httpMethod != "POST" || i.dataUrl.None? then None
    else match ParseDataUrl(i.dataUrl.value)
      case None => None
      case Some(d) => if d.mime in AllowedMime && decodedLength(d.payload) <= MaxBytes then Some(d) else None
  }

  /** The upload made for an accepted image, once the configuration is read. */
  function PutFor(i: Intent, decodedLength: string -> nat, stamp: string, config: Config): (p: Option<Put>)
    ensures p.Some? <==> Accepted(i, decodedLength).Some? && config.Configured?
    ensures p.Some? ==>
      var d := Accepted(i, decodedLength).value;
      && p.value.contentType == d.mime
      && p.value.size == decodedLength(d.payload) <= MaxBytes
      && Extension(d.mime).Some?
      && p.value.url == UploadUrl(StorageBase(config.restBaseUrl), StoragePath(stamp, Extension(d.mime).value))
  {
    match Accepted(i, decodedLength)
    case None => None
    case Some(d) =>
      if config.Unconfigured? then None
      else
        AllowedExtensions(d.mime);
        var path := StoragePath(stamp, Extension(d.mime).value);
        Some(Put(UploadUrl(StorageBase(config.restBaseUrl), path), d.mime, decodedLength(d.payload)))
  }

  /**
   * The handler's decision. `decodedLength` gives the byte count of a decoded
   * payload, `stamp` the time-and-random part of the new name, `config` the
   * server configuration and `outcome` the storage service's answer.
   */
  function Decide(i: Intent, decodedLength: string -> nat, stamp: string, config: Config, outcome: Outcome): (r: Response<Payload>)
    ensures !r.noStore
    ensures r.allow.Some? <==> i.httpMethod != "POST"
    ensures i.httpMethod != "POST" ==> r.status == 405 && r.allow == Some(Allow) && r.body == Error(NotAllowed)
    ensures i.httpMethod == "POST" && i.dataUrl.None? ==> r.status == 400 && r.body == Error(MissingFields)
    ensures i.httpMethod == "POST" && i.dataUrl.Some? && ParseDataUrl(i.dataUrl.value).None? ==>
      r.status == 400 && r.body == Error(BadFormat)
    ensures i.httpMethod == "POST" && i.dataUrl.Some? && ParseDataUrl(i.dataUrl.value).Some? ==>
      var d := ParseDataUrl(i.dataUrl.value).value;
      && (d.mime !in AllowedMime ==> r.status == 400 && r.body == Error(BadType))
      && (d.mime in AllowedMime && decodedLength(d.payload) > MaxBytes ==> r.status == 400 && r.body == Error(TooLarge))
    ensures r.status == 400 <==> i.httpMethod == "POST" && Accepted(i, decodedLength).None?
    ensures Accepted(i, decodedLength).Some? ==> r.status == 200 || r.status == 500
    ensures r.status == 200 <==> PutFor(i, decodedLength, stamp, config).Some? && outcome.Stored?
    ensures r.status == 200 ==>
      var ext := Extension(Accepted(i, decodedLength).value.mime).value;
      r.body == Uploaded(PublicUrl(StorageBase(config.restBaseUrl), StoragePath(stamp, ext)))
  {
    if i.httpMethod != "POST" then Response(405, Some(Allow), false, Error(NotAllowed))
    else if i.dataUrl.None? then Send(400, Error(MissingFields))
    else match ParseDataUrl(i.dataUrl.value)
      case None => Send(400, Error(BadFormat))
      case Some(d) =>
        if d.mime !in AllowedMime then Send(400, Error(BadType))
        else if decodedLength(d.payload) > MaxBytes then Send(400, Error(TooLarge))
        else match config
          case Unconfigured(f) => Send(500, Error(FailureMessage(f)))
          case Configured(restBaseUrl) =>
            AllowedExtensions(d.mime);
            var path := StoragePath(stamp, Extension(d.mime).value);
            match outcome
            case Stored => Send(200, Uploaded(PublicUrl(StorageBase(restBaseUrl), path)))
            case Refused => Send(500, Error(UploadFailed))
            case Threw(f) => Send(500, Error(FailureMessage(f)))
  }

  /** `handler(req, res)` with its clock, randomness, configuration and storage service as inputs. */
  function Handle(req: Request, decodedLength: string -> nat, stamp: string, config: Config, outcome: Outcome): (r: Response<Payload>)
    ensures !r.noStore
    ensures req.httpMethod != "POST" ==> r == Response(405, Some(Allow), false, Error(NotAllowed))
    ensures req.httpMethod == "POST" && UploadBody(req.body).None? ==> r == Send(400, Error(MissingFields))
    ensures config.Unconfigured? ==> r.status != 200
    ensures outcome.Refused? && r.status != 400 && r.status != 405 && config.Configured? ==>
      r == Send(500, Error(UploadFailed))
  {
    Decide(IntentOf(req), decodedLength, stamp, config, outcome)
  }

  /** A stored image is always a JPEG, PNG, GIF or WEBP under `comment-uploads/`, named by its type. */
  lemma StoredPathIsTyped(i: Intent, decodedLength: string -> nat, stamp: string, config: Config)
    requires PutFor(i, decodedLength, stamp, config).Some?
    ensures var d := Accepted(i, decodedLength).value;
      var ext := Extension(d.mime).value;
      && ext in ["jpg", "png", "gif", "webp"]
      && MimeFor(ext) == PutFor(i, decodedLength, stamp, config).value.contentType
  {
    AllowedExtensions(Accepted(i, decodedLength).value.mime);
  }
}

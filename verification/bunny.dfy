/** `bunnyService`: the Bunny storage and stream endpoints. The HTTP client
    and SHA-256 are parameters; what is modelled is how the URLs, the
    signature text and the outcomes are built. */
module Bunny {
  import opened Wrappers
  import Decimal
  import Hex
  import Like

  /** The `Bunny` section of the configuration. */
  datatype BunnyConfig = BunnyConfig(
    storageZone: string,
    accessKey: string,
    region: string,
    downloadBaseUrl: string,
    streamLibraryId: nat,
    streamAccessKey: string,
    streamExpirationTime: nat)

  const StorageHostSuffix: string := ".storage.bunnycdn.com/"
  const VideoLibraryPrefix: string := "https://video.bunnycdn.com/library/"

  /** The PUT target of `UploadFile`. */
  function UploadUrl(cfg: BunnyConfig, uploadPath: string): (url: string)
    ensures Like.StartsWith(url, "https://" + cfg.region + StorageHostSuffix)
    ensures Like.EndsWith(url, cfg.storageZone + uploadPath)
    ensures |url| == |"https://" + cfg.region + StorageHostSuffix| + |cfg.storageZone| + |uploadPath|
  {
    var head := "https://" + cfg.region + StorageHostSuffix;
    var url := head + (cfg.storageZone + uploadPath);
    assert url[..|head|] == head;
    assert url[|url| - |cfg.storageZone + uploadPath|..] == cfg.storageZone + uploadPath;
    url
  }

  /** The URL `UploadFile` returns: the base, a slash, then the upload path
      exactly as given. */
  function DownloadUrl(cfg: BunnyConfig, uploadPath: string): (url: string)
    ensures Like.StartsWith(url, cfg.downloadBaseUrl + "/")
    ensures Like.EndsWith(url, uploadPath)
    ensures |url| == |cfg.downloadBaseUrl| + 1 + |uploadPath|
  {
    var head := cfg.downloadBaseUrl + "/";
    var url := head + uploadPath;
    assert url[..|head|] == head;
    assert url[|url| - |uploadPath|..] == uploadPath;
    url
  }

  /** An upload path that already starts with a slash gives a download URL
      with two slashes after the base. */
  lemma DownloadUrlDoubleSlash(cfg: BunnyConfig, name: string)
    ensures DownloadUrl(cfg, "/" + name) == cfg.downloadBaseUrl + "//" + name
  {
  }

  /** The transport error, or a response status other than 201. */
  datatype UploadError = UploadFailed

  /** `UploadFile`: `put(url, data)` is the request, `None` a transport error
      and `Some(status)` the response status. */
  function UploadFile(cfg: BunnyConfig, data: seq<Hex.byte>, uploadPath: string,
                      put: (string, seq<Hex.byte>) -> Option<nat>): (r: Result<string, UploadError>)
    ensures r.Success? <==> put(UploadUrl(cfg, uploadPath), data) == Some(201)
    ensures r.Success? ==> r.value == DownloadUrl(cfg, uploadPath)
  {
    match put(UploadUrl(cfg, uploadPath), data)
    case Some(status) =>
      if status == 201 then Success(DownloadUrl(cfg, uploadPath)) else Failure(UploadFailed)
    case None => Failure(UploadFailed)
  }

  /** A SHA-256 digest. */
  type Digest = s: seq<Hex.byte> | |s| == 32 witness seq(32, i => 0 as Hex.byte)

  /** The text `ComputeTusUploadSignature` hashes: the configured library id,
      the stream access key, the expiration time and the video id. */
  function SignaturePreimage(cfg: BunnyConfig, videoId: string, expirationTime: nat): (text: string)
    ensures Like.StartsWith(text, Decimal.DecimalString(cfg.streamLibraryId) + cfg.streamAccessKey)
    ensures Like.EndsWith(text, videoId)
    ensures var head := Decimal.DecimalString(cfg.streamLibraryId) + cfg.streamAccessKey;
            |text| == |head| + |Decimal.DecimalString(expirationTime)| + |videoId|
            && text[|head|..|head| + |Decimal.DecimalString(expirationTime)|] == Decimal.DecimalString(expirationTime)
  {
    var head := Decimal.DecimalString(cfg.streamLibraryId) + cfg.streamAccessKey;
    var text := head + (Decimal.DecimalString(expirationTime) + videoId);
    assert text[..|head|] == head;
    assert text[|text| - |videoId|..] == videoId;
    assert text[|head|..|head| + |Decimal.DecimalString(expirationTime)|] == Decimal.DecimalString(expirationTime);
    text
  }

  /** `ComputeTusUploadSignature`: the lowercase hex of the digest of the
      preimage. The `libraryId` argument is not used. */
  function ComputeTusUploadSignature(cfg: BunnyConfig, libraryId: nat, videoId: string, expirationTime: nat,
                                     sha256: string -> Digest): (sig: string)
    ensures |sig| == 64
    ensures forall i :: 0 <= i < |sig| ==> Hex.IsLowerHex(sig[i])
    ensures Hex.Decode(sig) == Some(sha256(SignaturePreimage(cfg, videoId, expirationTime)))
  {
    var digest := sha256(SignaturePreimage(cfg, videoId, expirationTime));
    Hex.DecodeEncode(digest);
    Hex.Encode(digest)
  }

  /** The signature depends on the configured library id, never on the
      argument. */
  lemma SignatureIgnoresLibraryArgument(cfg: BunnyConfig, a: nat, b: nat, videoId: string, exp: nat,
                                        sha256: string -> Digest)
    ensures ComputeTusUploadSignature(cfg, a, videoId, exp, sha256) == ComputeTusUploadSignature(cfg, b, videoId, exp, sha256)
  {
  }

  /** Two signatures are equal exactly when the digests of their preimages are. */
  lemma SignatureDeterminesDigest(cfg: BunnyConfig, v1: string, e1: nat, v2: string, e2: nat, sha256: string -> Digest)
    ensures ComputeTusUploadSignature(cfg, 0, v1, e1, sha256) == ComputeTusUploadSignature(cfg, 0, v2, e2, sha256)
            <==> sha256(SignaturePreimage(cfg, v1, e1)) == sha256(SignaturePreimage(cfg, v2, e2))
  {
    var s1 := ComputeTusUploadSignature(cfg, 0, v1, e1, sha256);
    var s2 := ComputeTusUploadSignature(cfg, 0, v2, e2, sha256);
    if s1 == s2 {
      assert Hex.Decode(s1) == Hex.Decode(s2);
    }
  }

  /** The POST target of `CreateVideo`. */
  function CreateVideoUrl(libraryId: nat): (url: string)
    ensures Like.StartsWith(url, VideoLibraryPrefix)
    ensures Like.EndsWith(url, "/videos")
    ensures |url| == |VideoLibraryPrefix| + |Decimal.DecimalString(libraryId)| + 7
    ensures url[|VideoLibraryPrefix|..|url| - 7] == Decimal.DecimalString(libraryId)
  {
    var url := VideoLibraryPrefix + (Decimal.DecimalString(libraryId) + "/videos");
    assert url[..|VideoLibraryPrefix|] == VideoLibraryPrefix;
    assert url[|url| - 7..] == "/videos";
    assert url[|VideoLibraryPrefix|..|url| - 7] == Decimal.DecimalString(libraryId);
    url
  }

  /** Different libraries get different create-video URLs. */
  lemma CreateVideoUrlInjective(a: nat, b: nat)
    requires CreateVideoUrl(a) == CreateVideoUrl(b)
    ensures a == b
  {
    var da := Decimal.DecimalString(a);
    var db := Decimal.DecimalString(b);
    var ua := CreateVideoUrl(a);
    var n := |VideoLibraryPrefix|;
    assert |da| == |db|;
    assert da == ua[n..n + |da|];
    assert db == CreateVideoUrl(b)[n..n + |db|];
    Decimal.DecimalStringInjective(a, b);
  }

  /** `BunnyCreateVideoInput`: the library and the title. */
  datatype CreateVideoInput = CreateVideoInput(libraryId: nat, title: string)

  /** The part of `BunnyCreateVideoResponse` the callers read. */
  datatype CreatedVideo = CreatedVideo(guid: string)

  /** The three failures of `CreateVideo`. */
  datatype CreateVideoError = TransportFailed | UnexpectedStatus(status: nat) | ResponseUnreadable

  /** An HTTP response: status and body. */
  datatype Response = Response(status: nat, body: string)

  /** `CreateVideo`: `post(url, title)` is the request and `parse` the JSON
      decoding of the body. */
  function CreateVideo(input: CreateVideoInput, post: (string, string) -> Option<Response>,
                       parse: string -> Option<CreatedVideo>): (r: Result<CreatedVideo, CreateVideoError>)
    ensures var resp := post(CreateVideoUrl(input.libraryId), input.title);
            && (r == Failure(TransportFailed) <==> resp.None?)
            && (r.Failure? && r.error.UnexpectedStatus? <==> resp.Some? && resp.value.status != 200)
            && (r.Failure? && r.error.UnexpectedStatus? ==> r.error.status == resp.value.status)
            && (r == Failure(ResponseUnreadable) <==> resp.Some? && resp.value.status == 200 && parse(resp.value.body).None?)
            && (r.Success? ==> resp.Some? && resp.value.status == 200 && parse(resp.value.body) == Some(r.value))
  {
    match post(CreateVideoUrl(input.libraryId), input.title)
    case None => Failure(TransportFailed)
    case Some(resp) =>
      if resp.status != 200 then Failure(UnexpectedStatus(resp.status))
      else match parse(resp.body)
        case None => Failure(ResponseUnreadable)
        case Some(video) => Success(video)
  }
}

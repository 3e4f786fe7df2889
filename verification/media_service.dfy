/** `mediaService`: photo and video uploads, and the media CRUD operations
    over the `media` table. Image decoding, resizing and JPEG encoding, the
    clock and the random source are parameters. */
module MediaService {
  import opened Wrappers
  import opened Query
  import opened KeyedStore
  import Decimal
  import Hex
  import Like
  import Bunny
  import Listing
  import TableQuery

  /** `MediaType`. */
  datatype MediaType = Image | Document | Video

  function TypeName(t: MediaType): string {
    match t
    case Image => "image"
    case Document => "document"
    case Video => "video"
  }

  /** `ImageMediaFileData`: one stored size of a photo. */
  datatype ImageFile = ImageFile(id: string, width: int, height: int, fileName: string, url: string)

  /** The `data` column: `ImageMediaData` or `VideoMediaData`, kept as values
      rather than their JSON text. */
  datatype MediaData =
    | ImageData(version: string, files: seq<ImageFile>)
    | VideoData(version: string, provider: string, videoId: string)

  /** A `media` record without its `ID`. */
  datatype Media = Media(kind: MediaType, data: MediaData, title: string, description: string)

  type Medias = Store<Media>

  function MediaRow(m: Keyed<Media>): (row: Row)
    ensures row.Keys == {"id", "type", "title", "description"}
  {
    map["id" := Num(m.id), "type" := Str(TypeName(m.rec.kind)), "title" := Str(m.rec.title),
        "description" := Str(m.rec.description)]
  }

  /** `FindManyMedia`. The media filter DTO is not part of this model, so
      its clauses are a parameter; the paging fields are defaulted as in the
      other list services. */
  function FindManyMedia(store: Medias, clauses: seq<Clause>, paging: Listing.Paging)
    : (r: Result<Listing.ListResult<Keyed<Media>>, Listing.ListError>)
    ensures r.Failure? <==> !AllAccepted(clauses)
    ensures r.Failure? ==> r.error == Listing.QueryRejected
    ensures r.Success? ==> r.value.count == |Listing.Selected(TableQuery.Rows(store), MediaRow, clauses)|
    ensures r.Success? ==> |r.value.items| <= Listing.WithDefaults(paging).take
    ensures r.Success? ==> forall x :: x in r.value.items ==> x.id in store && store[x.id] == x.rec && AllHold(clauses, MediaRow(x))
  {
    TableQuery.ListTable(store, MediaRow, clauses, Listing.ApplyPagination(Listing.WithDefaults(paging)))
  }

  /** `ImageSize`. */
  datatype ImageSize = ImageSize(id: string, width: int, height: int)

  /** `photoImageSizes`, in upload order. */
  const PhotoImageSizes: seq<ImageSize> := [ImageSize("sm", 150, 150), ImageSize("md", 300, 300), ImageSize("lg", 600, 600)]

  /** `filepath.Ext`: from the last dot of the final path element to the
      end, or nothing when that element has no dot. */
  function Ext(path: string): (e: string)
    ensures Like.EndsWith(path, e)
    ensures e != "" ==> e[0] == '.' && forall i :: 1 <= i < |e| ==> e[i] != '.' && e[i] != '/'
    ensures e == "" ==> forall i :: 0 <= i < |path| && path[i] == '.' ==> exists j :: i < j < |path| && path[j] == '/'
  {
    if |path| == 0 then ""
    else
      var c := path[|path| - 1];
      var init := path[..|path| - 1];
      assert path == init + [c];
      if c == '/' then ""
      else if c == '.' then "."
      else
        var e := Ext(init);
        if e == "" then
          assert forall i :: 0 <= i < |init| ==> path[i] == init[i];
          ""
        else
          assert path[|path| - |e + [c]|..] == init[|init| - |e|..] + [c];
          e + [c]
  }

  /** `strings.TrimSuffix`. */
  function TrimSuffix(s: string, suffix: string): (r: string)
    ensures Like.EndsWith(s, suffix) ==> r + suffix == s
    ensures !Like.EndsWith(s, suffix) ==> r == s
  {
    if Like.EndsWith(s, suffix) then
      assert s == s[..|s| - |suffix|] + s[|s| - |suffix|..];
      s[..|s| - |suffix|]
    else s
  }

  /** The photo title: the original name without its extension. */
  function Title(originalName: string): (t: string)
    ensures t + Ext(originalName) == originalName
  {
    TrimSuffix(originalName, Ext(originalName))
  }

  /** Only the last extension goes. */
  lemma TitleOfDoubleExtension()
    ensures Title("a.tar.gz") == "a.tar"
  {
    assert "a.tar.gz"[..7] == "a.tar.g" && "a.tar.g"[..6] == "a.tar.";
    assert Ext("a.tar.") == ".";
    assert Ext("a.tar.gz") == ".gz";
  }

  /** A name without a dot is kept whole. */
  lemma TitleWithoutExtension()
    ensures Title("noext") == "noext"
  {
    assert Ext("noext") == "";
  }

  /** A dot in a directory name is not an extension. */
  lemma TitleWithDottedDirectory()
    ensures Title("v1.d/file") == "v1.d/file"
  {
    assert "v1.d/file"[..8] == "v1.d/fil" && "v1.d/fil"[..7] == "v1.d/fi";
    assert "v1.d/fi"[..6] == "v1.d/f" && "v1.d/f"[..5] == "v1.d/";
    assert Ext("v1.d/") == "";
    assert Ext("v1.d/file") == "";
  }

  /** A name that is all extension leaves an empty title. */
  lemma TitleOfDotFile()
    ensures Title(".env") == ""
  {
    assert ".env"[..3] == ".en" && ".en"[..2] == ".e" && ".e"[..1] == ".";
    assert Ext(".") == ".";
    assert Ext(".env") == ".env";
  }

  /** `generateRandomNumericFilename`: the microsecond clock in decimal
      followed by a six-digit random number (`draw` is `Intn(900000)`). */
  function RandomNumericFilename(micros: nat, draw: nat): (name: string)
    requires draw < 900000
    ensures Decimal.AllDigits(name)
    ensures |name| >= 7
    ensures Like.EndsWith(name, Decimal.DecimalString(draw + 100000))
    ensures |Decimal.DecimalString(draw + 100000)| == 6
    ensures name[..|name| - 6] == Decimal.DecimalString(micros)
  {
    var tail := Decimal.DecimalString(draw + 100000);
    SixDigits(draw + 100000);
    var name := Decimal.DecimalString(micros) + tail;
    assert name[|name| - |tail|..] == tail;
    assert name[..|name| - 6] == Decimal.DecimalString(micros);
    name
  }

  /** Every number from 100000 to 999999 has six decimal digits. */
  lemma SixDigits(n: nat)
    requires 100000 <= n < 1000000
    ensures |Decimal.DecimalString(n)| == 6
  {
    assert Decimal.Pow10(5) == 100000 by {
      assert Decimal.Pow10(2) == 100;
    }
    assert Decimal.Pow10(6) == 1000000;
    Decimal.DecimalLength(n, 6);
  }

  /** The name of one resized file: `"<base>_<sizeId>.jpg"`. */
  function FileName(base: string, sizeId: string): (name: string)
    ensures Like.StartsWith(name, base + "_") && Like.EndsWith(name, sizeId + ".jpg")
    ensures |name| == |base| + |sizeId| + 5
  {
    var name := (base + "_") + (sizeId + ".jpg");
    assert name[..|base + "_"|] == base + "_";
    assert name[|name| - |sizeId + ".jpg"|..] == sizeId + ".jpg";
    name
  }

  /** Why `UploadPhoto` fails. */
  datatype PhotoError = DecodeFailed | EncodeFailed | UploadFailed

  /** The work for one size succeeds: its JPEG encodes and the upload of it
      to `"/" + FileName` answers 201. */
  predicate SizeOk(cfg: Bunny.BunnyConfig, base: string, size: ImageSize,
                   encode: ImageSize -> Option<seq<Hex.byte>>,
                   put: (string, seq<Hex.byte>) -> Option<nat>) {
    encode(size).Some? && Bunny.UploadFile(cfg, encode(size).value, "/" + FileName(base, size.id), put).Success?
  }

  /** The file entry for a size that uploaded. */
  function FileEntry(cfg: Bunny.BunnyConfig, base: string, size: ImageSize): ImageFile {
    var name := FileName(base, size.id);
    ImageFile(size.id, size.width, size.height, name, Bunny.DownloadUrl(cfg, "/" + name))
  }

  /** The loop over the sizes: resize and encode (`encode`), upload, and
      record the entry; the first failure ends it. */
  function UploadSizes(cfg: Bunny.BunnyConfig, base: string, sizes: seq<ImageSize>,
                       encode: ImageSize -> Option<seq<Hex.byte>>,
                       put: (string, seq<Hex.byte>) -> Option<nat>): (r: Result<seq<ImageFile>, PhotoError>)
    ensures r.Success? <==> forall i :: 0 <= i < |sizes| ==> SizeOk(cfg, base, sizes[i], encode, put)
    ensures r.Success? ==> |r.value| == |sizes|
    ensures r.Success? ==> forall i :: 0 <= i < |sizes| ==> r.value[i] == FileEntry(cfg, base, sizes[i])
    ensures r.Failure? ==>
              exists i :: 0 <= i < |sizes| && (forall j :: 0 <= j < i ==> SizeOk(cfg, base, sizes[j], encode, put))
                          && !SizeOk(cfg, base, sizes[i], encode, put)
                          && r.error == (if encode(sizes[i]).None? then EncodeFailed else UploadFailed)
  {
    if |sizes| == 0 then Success([])
    else
      var size := sizes[0];
      match encode(size)
      case None => Failure(EncodeFailed)
      case Some(jpeg) =>
        if Bunny.UploadFile(cfg, jpeg, "/" + FileName(base, size.id), put).Failure? then Failure(UploadFailed)
        else
          var rest := UploadSizes(cfg, base, sizes[1..], encode, put);
          assert forall i :: 1 <= i < |sizes| ==> sizes[i] == sizes[1..][i - 1];
          match rest
          case Failure(e) =>
            var k :| 0 <= k < |sizes[1..]| && (forall j :: 0 <= j < k ==> SizeOk(cfg, base, sizes[1..][j], encode, put))
                     && !SizeOk(cfg, base, sizes[1..][k], encode, put)
                     && e == (if encode(sizes[1..][k]).None? then EncodeFailed else UploadFailed);
            assert forall j :: 0 <= j < k + 1 ==> SizeOk(cfg, base, sizes[j], encode, put);
            Failure(e)
          case Success(files) => Success([FileEntry(cfg, base, size)] + files)
  }

  datatype PhotoStep = PhotoStep(store: Medias, result: Result<Keyed<Media>, PhotoError>)

  /** `UploadPhoto`: decode (`decoded` is false when the file is not an
      image), upload every size, then insert an image record titled after the
      original name. `base` is the random numeric file name. */
  function UploadPhoto(store: Medias, cfg: Bunny.BunnyConfig, originalName: string, base: string, decoded: bool,
                       encode: ImageSize -> Option<seq<Hex.byte>>,
                       put: (string, seq<Hex.byte>) -> Option<nat>): (s: PhotoStep)
    ensures s.result.Failure? ==> s.store == store
    ensures !decoded <==> s.result == Failure(DecodeFailed)
    ensures s.result.Success? <==>
              decoded && forall i :: 0 <= i < |PhotoImageSizes| ==> SizeOk(cfg, base, PhotoImageSizes[i], encode, put)
    ensures s.result.Success? ==>
              var m := s.result.value;
              && m.id !in store && s.store == store[m.id := m.rec]
              && m.rec.kind == Image && m.rec.description == "" && m.rec.title == Title(originalName)
              && m.rec.data.ImageData? && m.rec.data.version == "1.0"
              && |m.rec.data.files| == 3
              && m.rec.data.files[0].id == "sm" && m.rec.data.files[1].id == "md" && m.rec.data.files[2].id == "lg"
              && forall i :: 0 <= i < 3 ==>
                   m.rec.data.files[i].width == m.rec.data.files[i].height == PhotoImageSizes[i].width
                   && m.rec.data.files[i].fileName == FileName(base, PhotoImageSizes[i].id)
    ensures s.result.Success? ==>
              forall i :: 0 <= i < 3 ==>
                s.result.value.rec.data.files[i].url == Bunny.DownloadUrl(cfg, "/" + FileName(base, PhotoImageSizes[i].id))
  {
    if !decoded then PhotoStep(store, Failure(DecodeFailed))
    else
      match UploadSizes(cfg, base, PhotoImageSizes, encode, put)
      case Failure(e) => PhotoStep(store, Failure(e))
      case Success(files) =>
        var ins := Insert(store, Media(Image, ImageData("1.0", files), Title(originalName), ""));
        PhotoStep(ins.store, Success(ins.result.value))
  }

  /** `MediaUploadVideoViaTusInput`. */
  datatype TusInput = TusInput(title: string, filetype: string, userId: nat)

  /** `MediaUploadVideoViaTusResultHeaders`. */
  datatype TusHeaders = TusHeaders(authorizationSignature: string, authorizationExpire: nat, videoId: string, libraryId: nat)

  /** `MediaUploadVideoViaTusResultMetadata`, without the always-nil collection. */
  datatype TusMetadata = TusMetadata(filetype: string, title: string, userId: nat)

  datatype TusResult = TusResult(headers: TusHeaders, metadata: TusMetadata)

  datatype TusStep = TusStep(store: Medias, result: Result<TusResult, Bunny.CreateVideoError>)

  /** The video record `UploadVideoViaTus` saves. */
  function VideoRecord(title: string, guid: string): Media {
    Media(Video, VideoData("1.0", "bunny", guid), title, "")
  }

  /** `UploadVideoViaTus`: create the video in the configured library, save
      a video record naming it, and return what the client needs for the TUS
      upload. */
  function UploadVideoViaTus(store: Medias, cfg: Bunny.BunnyConfig, input: TusInput,
                             post: (string, string) -> Option<Bunny.Response>,
                             parse: string -> Option<Bunny.CreatedVideo>,
                             sha256: string -> Bunny.Digest): (s: TusStep)
    ensures var created := Bunny.CreateVideo(Bunny.CreateVideoInput(cfg.streamLibraryId, input.title), post, parse);
            && (s.result.Failure? <==> created.Failure?)
            && (s.result.Failure? ==> s.store == store && s.result.error == created.error)
            && (s.result.Success? ==>
                  var r := s.result.value;
                  var guid := created.value.guid;
                  && r.headers.videoId == guid
                  && (exists id: nat :: id !in store && s.store == store[id := VideoRecord(input.title, guid)])
                  && r.headers.authorizationExpire == cfg.streamExpirationTime
                  && r.headers.libraryId == cfg.streamLibraryId
                  && Hex.Decode(r.headers.authorizationSignature)
                     == Some(sha256(Bunny.SignaturePreimage(cfg, guid, cfg.streamExpirationTime)))
                  && r.metadata == TusMetadata(input.filetype, input.title, input.userId))
  {
    match Bunny.CreateVideo(Bunny.CreateVideoInput(cfg.streamLibraryId, input.title), post, parse)
    case Failure(e) => TusStep(store, Failure(e))
    case Success(video) =>
      var ins := Insert(store, VideoRecord(input.title, video.guid));
      var signature := Bunny.ComputeTusUploadSignature(cfg, cfg.streamLibraryId, video.guid, cfg.streamExpirationTime, sha256);
      TusStep(ins.store, Success(TusResult(
        TusHeaders(signature, cfg.streamExpirationTime, video.guid, cfg.streamLibraryId),
        TusMetadata(input.filetype, input.title, input.userId))))
  }

  /** The stored record names the same video as the returned headers. */
  lemma VideoIdsAgree(store: Medias, cfg: Bunny.BunnyConfig, input: TusInput,
                      post: (string, string) -> Option<Bunny.Response>,
                      parse: string -> Option<Bunny.CreatedVideo>, sha256: string -> Bunny.Digest)
    requires UploadVideoViaTus(store, cfg, input, post, parse, sha256).result.Success?
    ensures var s := UploadVideoViaTus(store, cfg, input, post, parse, sha256);
            exists id :: id in s.store && id !in store
                         && s.store[id].data.VideoData? && s.store[id].data.provider == "bunny"
                         && s.store[id].data.videoId == s.result.value.headers.videoId
  {
  }
}

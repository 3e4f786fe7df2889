/** `mediaController`: the media list, the photo and video uploads.
    Finding, updating and deleting one media record are `Http.FindById`,
    `Http.UpdateById` and `Http.DeleteById` with the entity name "media". */
module MediaController {
  import opened Wrappers
  import opened Query
  import opened Jwt
  import opened KeyedStore
  import opened Http
  import Hex
  import Bunny
  import CurrentUser
  import MediaService
  import Listing
  import TableQuery

  /** The bound media filter: its clauses (the media filter DTO is not part
      of this model) and the paging fields. */
  datatype MediaQuery = MediaQuery(clauses: seq<Clause>, paging: Listing.Paging)

  /** `FindManyMedia`. `query` is `None` when binding fails. */
  function FindManyMedia(store: MediaService.Medias, query: Option<MediaQuery>)
    : (r: Reply<seq<Keyed<MediaService.Media>>>)
    ensures r.Reply?
    ensures query.None? ==> r == InvalidParams()
    ensures query.Some? ==>
              && (r == ServerError() <==> !AllAccepted(query.value.clauses))
              && (r.status == StatusOK <==> AllAccepted(query.value.clauses))
    ensures r.status == StatusOK ==>
              var p := Listing.WithDefaults(query.value.paging);
              && r.data.Some? && r.meta.Some?
              && r.meta.value.numItems == |Listing.Selected(TableQuery.Rows(store), MediaService.MediaRow, query.value.clauses)|
              && r.meta.value.page == p.page && r.meta.value.take == p.take
              && r.meta.value.numPages * r.meta.value.take >= r.meta.value.numItems
              && (r.meta.value.numPages > 0 ==> (r.meta.value.numPages - 1) * r.meta.value.take < r.meta.value.numItems)
              && |r.data.value| <= p.take
              && forall x :: x in r.data.value ==> x.id in store && store[x.id] == x.rec && AllHold(query.value.clauses, MediaService.MediaRow(x))
  {
    match query
    case None => InvalidParams()
    case Some(q) =>
      ListReply(MediaService.FindManyMedia(store, q.clauses, q.paging), Listing.WithDefaults(q.paging))
  }

  /** A page past `numPages` lists no media. */
  lemma FindManyMediaBeyond(store: MediaService.Medias, q: MediaQuery)
    requires var r := FindManyMedia(store, Some(q));
             r.status == StatusOK && r.meta.value.page > r.meta.value.numPages
    ensures FindManyMedia(store, Some(q)).data.value == []
  {
    TableQuery.PagesBeyondAreEmpty(store, MediaService.MediaRow, q.clauses, Listing.WithDefaults(q.paging));
  }

  /** The `file` form field: the client's file name, and whether its
      content decodes as an image. */
  datatype PhotoForm = PhotoForm(fileName: string, decodes: bool)

  /** `UploadPhoto`: a missing `file` field is answered before the service
      runs; any service error is a server error. `base` is the random file
      name, `encode` the resize-and-encode step and `put` the storage upload. */
  function UploadPhoto(store: MediaService.Medias, cfg: Bunny.BunnyConfig, form: Option<PhotoForm>, base: string,
                       encode: MediaService.ImageSize -> Option<seq<Hex.byte>>,
                       put: (string, seq<Hex.byte>) -> Option<nat>): (x: Exchange<MediaService.Media, Keyed<MediaService.Media>>)
    ensures x.reply.Reply?
    ensures form.None? ==> x == Exchange(store, InvalidParams())
    ensures x.reply == ServerError() <==>
              form.Some? && MediaService.UploadPhoto(store, cfg, form.value.fileName, base, form.value.decodes, encode, put).result.Failure?
    ensures x.reply.status != StatusOK ==> x.store == store
    ensures x.reply.status == StatusOK <==>
              form.Some? && MediaService.UploadPhoto(store, cfg, form.value.fileName, base, form.value.decodes, encode, put).result.Success?
    ensures x.reply.status == StatusOK ==>
              var s := MediaService.UploadPhoto(store, cfg, form.value.fileName, base, form.value.decodes, encode, put);
              x.reply.data == Some(s.result.value) && x.store == s.store
    ensures x.reply.status == StatusOK ==>
              && x.reply.message == Text("File uploaded successfully") && x.reply.data.Some?
              && var m := x.reply.data.value;
                 && m.id !in store && x.store == store[m.id := m.rec]
                 && m.rec.kind == MediaService.Image && m.rec.title == MediaService.Title(form.value.fileName)
  {
    match form
    case None => Exchange(store, InvalidParams())
    case Some(file) =>
      var s := MediaService.UploadPhoto(store, cfg, file.fileName, base, file.decodes, encode, put);
      match s.result
      case Failure(_) => Exchange(s.store, ServerError())
      case Success(m) => Exchange(s.store, Done(StatusOK, "File uploaded successfully", m))
  }

  /** The JSON body of `UploadVideoViaTus`; `userId == None` when the body
      has no `userId`. */
  datatype TusBody = TusBody(title: string, filetype: string, userId: Option<nat>)

  /** `UploadVideoViaTus`. The user id is preset from the current user before
      the body is bound, so a body without `userId` keeps it and a body with
      one overrides it; a failed read of the current user panics on the nil
      user. A service error is answered with status 400 but code
      `internal-server-error`. */
  function UploadVideoViaTus(store: MediaService.Medias, cfg: Bunny.BunnyConfig, user: Option<StoredValue>,
                             body: Option<TusBody>,
                             post: (string, string) -> Option<Bunny.Response>,
                             parse: string -> Option<Bunny.CreatedVideo>,
                             sha256: string -> Bunny.Digest): (x: Exchange<MediaService.Media, MediaService.TusResult>)
    ensures x.reply.Panicked? <==> CurrentUser.GetCurrentUser(user).Failure?
    ensures x.reply.Panicked? ==> x.store == store
    ensures x.reply.Reply? && body.None? ==> x == Exchange(store, InvalidParams())
    ensures x.reply.Reply? && body.Some? ==>
              var b := body.value;
              var userId := if b.userId.Some? then b.userId.value else CurrentUser.GetCurrentUser(user).value.id;
              var s := MediaService.UploadVideoViaTus(store, cfg, MediaService.TusInput(b.title, b.filetype, userId), post, parse, sha256);
              && x.store == s.store
              && (s.result.Failure? <==> x.reply == Reply(StatusBadRequest, "internal-server-error", ErrorText, None, None))
              && (s.result.Success? ==> x.reply == Done(StatusOK, "Success", s.result.value))
    ensures x.reply.Reply? && x.reply.status == StatusOK ==>
              x.reply.data.value.metadata.userId
              == if body.value.userId.Some? then body.value.userId.value else CurrentUser.GetCurrentUser(user).value.id
  {
    match CurrentUser.GetCurrentUser(user)
    case Failure(_) => Exchange(store, Panicked)
    case Success(current) =>
      match body
      case None => Exchange(store, InvalidParams())
      case Some(b) =>
        var input := MediaService.TusInput(b.title, b.filetype, if b.userId.Some? then b.userId.value else current.id);
        var s := MediaService.UploadVideoViaTus(store, cfg, input, post, parse, sha256);
        match s.result
        case Failure(_) => Exchange(s.store, Reply(StatusBadRequest, "internal-server-error", ErrorText, None, None))
        case Success(result) => Exchange(s.store, Done(StatusOK, "Success", result))
  }

  /** A token with a numeric `sub` and a body without `userId` uploads on
      behalf of the `sub` user. */
  lemma TusUserFromToken(store: MediaService.Medias, cfg: Bunny.BunnyConfig, claims: Claims, title: string, filetype: string,
                         post: (string, string) -> Option<Bunny.Response>,
                         parse: string -> Option<Bunny.CreatedVideo>, sha256: string -> Bunny.Digest)
    requires "sub" in claims && claims["sub"].CNum?
    requires UploadVideoViaTus(store, cfg, Some(MapClaims(claims)), Some(TusBody(title, filetype, None)), post, parse, sha256).reply.Reply?
    requires UploadVideoViaTus(store, cfg, Some(MapClaims(claims)), Some(TusBody(title, filetype, None)), post, parse, sha256).reply.status == StatusOK
    ensures UploadVideoViaTus(store, cfg, Some(MapClaims(claims)), Some(TusBody(title, filetype, None)), post, parse, sha256)
            .reply.data.value.metadata.userId == claims["sub"].n
  {
  }
}

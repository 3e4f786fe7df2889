/** The JSON replies the controllers write, and the steps the by-id
    handlers share: reading the path id as an unsigned decimal that fits 32
    bits, answering a bad id with 400, a service error with 500, and a
    success with the service's record. */
module Http {
  import opened Wrappers
  import opened KeyedStore
  import Decimal
  import Listing

  const StatusOK: nat := 200
  const StatusCreated: nat := 201
  const StatusNoContent: nat := 204
  const StatusBadRequest: nat := 400
  const StatusUnauthorized: nat := 401
  const StatusInternalServerError: nat := 500

  /** A fixed message, or the text of an error value (`err.Error()`), whose
      wording is not modelled. */
  datatype Message = Text(s: string) | ErrorText

  /** The `meta` object of a list reply. */
  datatype Meta = Meta(numItems: nat, page: nat, numPages: nat, take: nat)

  /** A JSON reply with its status, or a Go run-time panic inside the
      handler (answered by gin's recovery middleware, not by the handler). */
  datatype Reply<D> =
    | Reply(status: nat, code: string, message: Message, data: Option<D>, meta: Option<Meta>)
    | Panicked

  /** A reply together with the table as the handler leaves it. */
  datatype Exchange<T, D> = Exchange(store: Store<T>, reply: Reply<D>)

  /** `strconv.ParseUint(id, 10, 32)` on the `:id` path parameter. */
  function ParseId(text: string): (r: Option<nat>)
    ensures r.Some? <==> |text| > 0 && Decimal.AllDigits(text) && Decimal.ValueOf(text) < Decimal.Pow2(32)
    ensures r.Some? ==> r.value == Decimal.ValueOf(text)
  {
    Decimal.ParseUint(text, 32)
  }

  /** Every id below 2^32, written in decimal, is read back as itself. */
  lemma ParseIdOfDecimal(id: nat)
    requires id < Decimal.Pow2(32)
    ensures ParseId(Decimal.DecimalString(id)) == Some(id)
  {
    Decimal.ParseFormatRoundTrip(id, 32);
  }

  /** `{"code": code, "message": "Invalid <entity> ID"}` with status 400. */
  function InvalidId<D>(code: string, entity: string): Reply<D> {
    Reply(StatusBadRequest, code, Text("Invalid " + entity + " ID"), None, None)
  }

  /** A binding error: 400 `invalid-params`. */
  function InvalidParams<D>(): Reply<D> {
    Reply(StatusBadRequest, "invalid-params", ErrorText, None, None)
  }

  /** A service error: 500 `internal-server-error`. */
  function ServerError<D>(): Reply<D> {
    Reply(StatusInternalServerError, "internal-server-error", ErrorText, None, None)
  }

  /** A success: code `ok`, the message and the data. */
  function Done<D>(status: nat, message: string, data: D): Reply<D> {
    Reply(status, "ok", Text(message), Some(data), None)
  }

  /** The success of a service step, or a server error with the table as the
      service left it. */
  function StepReply<T>(s: Step<T>, status: nat, message: string): Exchange<T, Keyed<T>> {
    Exchange(s.store, if s.result.Success? then Done(status, message, s.result.value) else ServerError())
  }

  /** The reply of a list handler: the page as `data`, and `meta` with the
      count, the page and take the service defaulted, and
      `numPages = (count + take - 1) / take`. A panic while building the
      query propagates; a rejected query is a server error. */
  function ListReply<T>(r: Result<Listing.ListResult<T>, Listing.ListError>, paging: Listing.Paging): (reply: Reply<seq<T>>)
    requires paging.take >= 1
    ensures reply.Panicked? <==> r == Failure(Listing.BuildPanicked)
    ensures r == Failure(Listing.QueryRejected) <==> reply == ServerError()
    ensures reply.Reply? && reply.status == StatusOK <==> r.Success?
    ensures r.Success? ==> reply.data == Some(r.value.items)
    ensures r.Success? ==> reply.meta.Some? && reply.meta.value.numItems == r.value.count
                           && reply.meta.value.page == paging.page && reply.meta.value.take == paging.take
    ensures r.Success? ==> var m := reply.meta.value;
                           && m.numPages * m.take >= m.numItems
                           && (m.numPages > 0 ==> (m.numPages - 1) * m.take < m.numItems)
  {
    match r
    case Failure(BuildPanicked) => Panicked
    case Failure(QueryRejected) => ServerError()
    case Success(found) =>
      var numPages := Listing.NumPages(found.count, paging.take);
      Reply(StatusOK, "ok", Text("Success"), Some(found.items), Some(Meta(found.count, paging.page, numPages, paging.take)))
  }

  /** `Find<Entity>ByID`: parse the id, look the record up. Not found is a
      server error like any other. */
  function FindById<T>(store: Store<T>, entity: string, idText: string): (r: Reply<Keyed<T>>)
    ensures r.Reply?
    ensures ParseId(idText).None? <==> r == InvalidId("invalid-params", entity)
    ensures r == ServerError() <==> ParseId(idText).Some? && ParseId(idText).value !in store
    ensures r.status == StatusOK <==> ParseId(idText).Some? && ParseId(idText).value in store
    ensures r.status == StatusOK ==>
              var id := ParseId(idText).value;
              r == Done(StatusOK, "Success", Keyed(id, store[id]))
  {
    match ParseId(idText)
    case None => InvalidId("invalid-params", entity)
    case Some(id) =>
      match Find(store, id)
      case Failure(_) => ServerError()
      case Success(found) => Done(StatusOK, "Success", found)
  }

  /** `Delete<Entity>ByID`: parse the id, delete, answer 204 with the
      record as it was. `invalidCode` is the `code` of the bad-id reply. */
  function DeleteById<T>(store: Store<T>, entity: string, invalidCode: string, idText: string, message: string)
    : (x: Exchange<T, Keyed<T>>)
    ensures x.reply.Reply?
    ensures ParseId(idText).None? <==> x == Exchange(store, InvalidId(invalidCode, entity))
    ensures x.reply == ServerError() <==> ParseId(idText).Some? && ParseId(idText).value !in store
    ensures x.reply == ServerError() ==> x.store == store
    ensures x.reply.status == StatusNoContent <==> ParseId(idText).Some? && ParseId(idText).value in store
    ensures x.reply.status == StatusNoContent ==>
              var id := ParseId(idText).value;
              && x.reply == Done(StatusNoContent, message, Keyed(id, store[id]))
              && x.store == map k | k in store && k != id :: store[k]
  {
    match ParseId(idText)
    case None => Exchange(store, InvalidId(invalidCode, entity))
    case Some(id) =>
      var s := Delete(store, id);
      assert s.result.Success? ==> s.store == map k | k in store && k != id :: store[k];
      StepReply(s, StatusNoContent, message)
  }

  /** `Update<Entity>ByID` on a table with no other unique column: parse the
      id, bind the body (`patch` stands for what copying the bound input onto
      the found record does), then find, patch and save. */
  function UpdateById<T>(store: Store<T>, entity: string, idText: string, body: Option<T -> T>, message: string)
    : (x: Exchange<T, Keyed<T>>)
    ensures x.reply.Reply?
    ensures ParseId(idText).None? <==> x == Exchange(store, InvalidId("invalid-params", entity))
    ensures ParseId(idText).Some? && body.None? ==> x == Exchange(store, InvalidParams())
    ensures x.reply == ServerError() <==> ParseId(idText).Some? && body.Some? && ParseId(idText).value !in store
    ensures x.reply == ServerError() ==> x.store == store
    ensures x.reply.status == StatusOK <==> ParseId(idText).Some? && body.Some? && ParseId(idText).value in store
    ensures x.reply.status == StatusOK ==>
              var id := ParseId(idText).value;
              var rec := body.value(store[id]);
              x == Exchange(store[id := rec], Done(StatusOK, message, Keyed(id, rec)))
  {
    match ParseId(idText)
    case None => Exchange(store, InvalidId("invalid-params", entity))
    case Some(id) =>
      match body
      case None => Exchange(store, InvalidParams())
      case Some(patch) => StepReply(Patch(store, id, patch), StatusOK, message)
  }

  /** A record created through a handler is then found through the by-id
      handler under the decimal text of its id, as long as the id fits 32 bits. */
  lemma FindAfterInsert<T>(store: Store<T>, rec: T, entity: string)
    requires Insert(store, rec).result.value.id < Decimal.Pow2(32)
    ensures var s := Insert(store, rec);
            FindById(s.store, entity, Decimal.DecimalString(s.result.value.id))
            == Done(StatusOK, "Success", s.result.value)
  {
    ParseIdOfDecimal(Insert(store, rec).result.value.id);
  }

  /** After a successful delete handler, the by-id handler on the same id
      answers 500, and answers for every other id as before. */
  lemma FindAfterDeleteById<T>(store: Store<T>, entity: string, code: string, idText: string, message: string, other: string)
    requires DeleteById(store, entity, code, idText, message).reply.status == StatusNoContent
    ensures var x := DeleteById(store, entity, code, idText, message);
            && FindById(x.store, entity, idText) == ServerError()
            && (ParseId(other) != ParseId(idText) ==> FindById(x.store, entity, other) == FindById(store, entity, other))
  {
  }
}

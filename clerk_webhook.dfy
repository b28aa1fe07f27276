/**
 * The identity provider's webhook, `POST` in `app/api/webhooks/clerk/route.ts`:
 * one pass over the request that ends in an HTTP status and makes at most
 * one call into the user repository.
 *
 * The signature check is a parameter (`Verifier`), and so is whether the
 * write of the new record's `_id` into the provider's user metadata
 * succeeds; the repository is the `Table` of `UserActions`.
 */
module ClerkWebhook {
  import opened Wrappers
  import opened Utils
  import opened UserActions

  /** The fields of `evt.data` that the handler reads. */
  datatype EventData = EventData(
    id: JValue,
    emailAddresses: Option<seq<Option<string>>>,  // each entry's `email_address`
    imageUrl: Option<string>,
    firstName: Option<string>,
    lastName: Option<string>,
    username: Option<string>)

  datatype WebhookEvent = WebhookEvent(eventType: string, data: EventData)

  /** The three signature headers, the serialised body, and the event it holds. */
  datatype Request = Request(
    svixId: Option<string>,
    svixTimestamp: Option<string>,
    svixSignature: Option<string>,
    body: string,
    payload: WebhookEvent)

  /** Whether a signature is valid: secret, body, `svix-id`, `svix-timestamp`, `svix-signature`. */
  type Verifier = (string, string, string, string, string) -> bool

  /** A string that is present and not empty (JavaScript truthiness). */
  predicate Truthy(s: Option<string>) {
    s.Some? && s.value != ""
  }

  predicate HeadersPresent(req: Request) {
    Truthy(req.svixId) && Truthy(req.svixTimestamp) && Truthy(req.svixSignature)
  }

  predicate Verified(secret: string, verify: Verifier, req: Request)
    requires HeadersPresent(req)
  {
    verify(secret, req.body, req.svixId.value, req.svixTimestamp.value, req.svixSignature.value)
  }

  /** A user id that is present, a string, and not empty. */
  predicate ValidId(id: JValue) {
    id.JStr? && id.s != ""
  }

  /** `email_addresses?.[0]?.email_address`. */
  function FirstEmail(data: EventData): Option<string> {
    match data.emailAddresses
    case None => None
    case Some(addresses) => if |addresses| == 0 then None else addresses[0]
  }

  /** The record `user.created` asks to create; absent optional fields become "". */
  function CreatedUser(id: string, email: string, username: string, data: EventData): CreateUserParams {
    CreateUserParams(id, email, username, data.firstName.GetOr(""), data.lastName.GetOr(""),
                     data.imageUrl.GetOr(""))
  }

  /** The update `user.updated` sends: all four fields, absent ones as "". */
  function UpdatedFields(data: EventData): UpdateUserParams {
    UpdateUserParams(Some(data.firstName.GetOr("")), Some(data.lastName.GetOr("")),
                     Some(data.username.GetOr("")), Some(data.imageUrl.GetOr("")))
  }

  /** Where the early-return chain ends: a thrown error, a status, or one repository call. */
  datatype Decision =
    | Throw
    | Respond(status: int)
    | CallCreate(user: CreateUserParams)
    | CallUpdate(clerkId: string, patch: UpdateUserParams)
    | CallDelete(clerkId: string)

  /** The branches of the handler, up to the repository call. */
  function Classify(secret: Option<string>, verify: Verifier, req: Request): (d: Decision)
    ensures d.Throw? <==> !Truthy(secret)
    ensures d.CallCreate? || d.CallUpdate? || d.CallDelete? ==>
              && Truthy(secret) && HeadersPresent(req) && Verified(secret.value, verify, req)
              && ValidId(req.payload.data.id)
    ensures d.CallCreate? ==>
              req.payload.eventType == "user.created" && d.user.clerkId == req.payload.data.id.s
    ensures d.CallUpdate? ==>
              req.payload.eventType == "user.updated" && d.clerkId == req.payload.data.id.s
    ensures d.CallDelete? ==>
              req.payload.eventType == "user.deleted" && d.clerkId == req.payload.data.id.s
    ensures d.Respond? ==> d.status == 400 || d.status == 200
  {
    if !Truthy(secret) then Throw
    else if !HeadersPresent(req) then Respond(400)
    else if !Verified(secret.value, verify, req) then Respond(400)
    else
      var evt := req.payload;
      if !ValidId(evt.data.id) then Respond(400)
      else
        var id := evt.data.id.s;
        if evt.eventType == "user.created" then
          var email := FirstEmail(evt.data);
          if !Truthy(evt.data.username) || !Truthy(email) then Respond(400)
          else CallCreate(CreatedUser(id, email.value, evt.data.username.value, evt.data))
        else if evt.eventType == "user.updated" then CallUpdate(id, UpdatedFields(evt.data))
        else if evt.eventType == "user.deleted" then CallDelete(id)
        else Respond(200)
  }

  /** An HTTP response: its status and, for the JSON replies, the record it carries. */
  datatype Response = Response(status: int, user: Option<User>)

  datatype Outcome = Threw | Responded(response: Response)

  /** What `POST` yields, with the collection afterwards. */
  datatype Handled = Handled(outcome: Outcome, table: Table)

  function Reply(status: int): Outcome {
    Responded(Response(status, None))
  }

  /** The handler end to end: the decision, then the repository call and its mapping to a status. */
  function Post(secret: Option<string>, verify: Verifier, req: Request, t: Table,
                metadataWriteSucceeds: bool): (h: Handled)
    ensures h.outcome.Threw? <==> !Truthy(secret)
    ensures h.outcome.Responded? ==> h.outcome.response.status in {200, 400, 500}
    ensures h.outcome.Responded? && h.outcome.response.status == 400 ==> h.table == t
  {
    match Classify(secret, verify, req)
    case Throw => Handled(Threw, t)
    case Respond(status) => Handled(Reply(status), t)
    case CallCreate(user) =>
      var s := Create(t, user);
      if s.result.Failure? then Handled(Reply(500), s.table)
      else if !metadataWriteSucceeds then Handled(Reply(500), s.table)
      else Handled(Responded(Response(200, Some(s.result.value))), s.table)
    case CallUpdate(clerkId, patch) =>
      var s := Update(t, clerkId, patch);
      if s.result.Failure? then Handled(Reply(500), s.table)
      else Handled(Responded(Response(200, Some(s.result.value))), s.table)
    case CallDelete(clerkId) =>
      var s := Delete(t, clerkId);
      if s.result.Failure? then Handled(Reply(500), s.table)
      else Handled(Responded(Response(200, Some(s.result.value))), s.table)
  }

  // ---------------------------------------------------------------------
  // Properties of the handler
  // ---------------------------------------------------------------------

  /** The collection changes only through the one repository call the decision names. */
  lemma AtMostOneCall(secret: Option<string>, verify: Verifier, req: Request, t: Table, ok: bool)
    ensures var h := Post(secret, verify, req, t, ok);
            match Classify(secret, verify, req)
            case CallCreate(user) => h.table == Create(t, user).table
            case CallUpdate(clerkId, patch) => h.table == Update(t, clerkId, patch).table
            case CallDelete(clerkId) => h.table == Delete(t, clerkId).table
            case _ => h.table == t
  {
  }

  /** A missing or empty signature header gives 400 and no repository call. */
  lemma MissingHeadersRejected(secret: Option<string>, verify: Verifier, req: Request, t: Table, ok: bool)
    requires Truthy(secret) && !HeadersPresent(req)
    ensures Classify(secret, verify, req) == Respond(400)
    ensures Post(secret, verify, req, t, ok) == Handled(Reply(400), t)
  {
  }

  /** A signature that does not verify gives 400, whatever the event says. */
  lemma BadSignatureRejected(secret: Option<string>, verify: Verifier, req: Request, t: Table, ok: bool)
    requires Truthy(secret) && HeadersPresent(req) && !Verified(secret.value, verify, req)
    ensures Classify(secret, verify, req) == Respond(400)
    ensures Post(secret, verify, req, t, ok) == Handled(Reply(400), t)
  {
  }

  /** A verified event whose `data.id` is missing, empty or not a string gives 400, for every event type. */
  lemma InvalidIdRejected(secret: Option<string>, verify: Verifier, req: Request, t: Table, ok: bool)
    requires Truthy(secret) && HeadersPresent(req) && Verified(secret.value, verify, req)
    requires !ValidId(req.payload.data.id)
    ensures Classify(secret, verify, req) == Respond(400)
    ensures Post(secret, verify, req, t, ok) == Handled(Reply(400), t)
  {
  }

  /** The request is signed, verified and names a valid user id. */
  predicate Accepted(secret: Option<string>, verify: Verifier, req: Request) {
    Truthy(secret) && HeadersPresent(req) && Verified(secret.value, verify, req)
    && ValidId(req.payload.data.id)
  }

  /** `user.created` without a username or a first email address gives 400 and creates nothing. */
  lemma CreatedMissingFieldsRejected(secret: Option<string>, verify: Verifier, req: Request, t: Table,
                                     ok: bool)
    requires Accepted(secret, verify, req) && req.payload.eventType == "user.created"
    requires !Truthy(req.payload.data.username) || !Truthy(FirstEmail(req.payload.data))
    ensures Classify(secret, verify, req) == Respond(400)
    ensures Post(secret, verify, req, t, ok) == Handled(Reply(400), t)
  {
  }

  /**
   * A complete `user.created` asks for a record under the event's id with
   * blanks for the missing optional fields. It answers 200 with the new
   * record only when both the create and the metadata write succeed;
   * otherwise 500, and when only the metadata write failed the record
   * stays created.
   */
  lemma CreatedOutcome(secret: Option<string>, verify: Verifier, req: Request, t: Table, ok: bool)
    requires Accepted(secret, verify, req) && req.payload.eventType == "user.created"
    requires Truthy(req.payload.data.username) && Truthy(FirstEmail(req.payload.data))
    requires WellFormed(t)
    ensures var data := req.payload.data;
            var p := CreatedUser(data.id.s, FirstEmail(data).value, data.username.value, data);
            var h := Post(secret, verify, req, t, ok);
            && Classify(secret, verify, req) == CallCreate(p)
            && p.clerkId == data.id.s
            && p.firstName == data.firstName.GetOr("") && p.lastName == data.lastName.GetOr("")
            && p.photo == data.imageUrl.GetOr("")
            && h.table == Create(t, p).table
            && h.outcome.Responded?
            && (h.outcome.response.status == 200 <==> Create(t, p).result.Success? && ok)
            && (h.outcome.response.status != 200 ==> h.outcome.response.status == 500)
            && (h.outcome.response.status == 200 ==>
                  && h.outcome.response.user == Some(Create(t, p).result.value)
                  && h.outcome.response.user.value.creditBalance == DefaultCreditBalance)
            && (Create(t, p).result.Success? ==>
                  && |h.table.users| == |t.users| + 1
                  && data.id.s in h.table.users)
  {
    var data := req.payload.data;
    var p := CreatedUser(data.id.s, FirstEmail(data).value, data.username.value, data);
    CreateAddsOne(t, p);
  }

  /**
   * A `user.created` event without a first name always ends in 500 with
   * nothing created: the handler fills in "" and the schema requires a
   * non-empty `firstName`.
   */
  lemma CreatedWithoutFirstNameFails(secret: Option<string>, verify: Verifier, req: Request, t: Table,
                                     ok: bool)
    requires Accepted(secret, verify, req) && req.payload.eventType == "user.created"
    requires Truthy(req.payload.data.username) && Truthy(FirstEmail(req.payload.data))
    requires !Truthy(req.payload.data.firstName)
    ensures Post(secret, verify, req, t, ok) == Handled(Reply(500), t)
  {
  }

  /**
   * `user.updated` overwrites all four fields, absent ones with "", on the
   * record with the event's id; an unknown id gives 500 and changes nothing.
   */
  lemma UpdatedOutcome(secret: Option<string>, verify: Verifier, req: Request, t: Table, ok: bool)
    requires Accepted(secret, verify, req) && req.payload.eventType == "user.updated"
    ensures var data := req.payload.data;
            var id := data.id.s;
            var h := Post(secret, verify, req, t, ok);
            && Classify(secret, verify, req) == CallUpdate(id, UpdatedFields(data))
            && (id !in t.users ==> h == Handled(Reply(500), t))
            && (id in t.users ==>
                  && h.outcome.Responded? && h.outcome.response.status == 200
                  && h.table.users.Keys == t.users.Keys
                  && h.table.users[id].firstName == data.firstName.GetOr("")
                  && h.table.users[id].lastName == data.lastName.GetOr("")
                  && h.table.users[id].username == data.username.GetOr("")
                  && h.table.users[id].photo == data.imageUrl.GetOr("")
                  && h.table.users[id].creditBalance == t.users[id].creditBalance)
  {
  }

  /** `user.deleted` removes the record with the event's id; an unknown id gives 500 and changes nothing. */
  lemma DeletedOutcome(secret: Option<string>, verify: Verifier, req: Request, t: Table, ok: bool)
    requires Accepted(secret, verify, req) && req.payload.eventType == "user.deleted"
    ensures var id := req.payload.data.id.s;
            var h := Post(secret, verify, req, t, ok);
            && Classify(secret, verify, req) == CallDelete(id)
            && (id !in t.users ==> h == Handled(Reply(500), t))
            && (id in t.users ==>
                  && h.outcome == Responded(Response(200, Some(t.users[id])))
                  && h.table.users == t.users - {id})
  {
  }

  /** A signed `user.deleted` for `ext_123` when no such record exists gives 500. */
  lemma DeletedUnknownExample(secret: string, verify: Verifier, req: Request, t: Table, ok: bool)
    requires secret != "" && HeadersPresent(req) && Verified(secret, verify, req)
    requires req.payload.eventType == "user.deleted" && req.payload.data.id == JStr("ext_123")
    requires "ext_123" !in t.users
    ensures Post(Some(secret), verify, req, t, ok) == Handled(Reply(500), t)
  {
  }

  /** Any other event type is acknowledged with 200 and no repository call. */
  lemma OtherEventIgnored(secret: Option<string>, verify: Verifier, req: Request, t: Table, ok: bool)
    requires Accepted(secret, verify, req)
    requires req.payload.eventType !in {"user.created", "user.updated", "user.deleted"}
    ensures Classify(secret, verify, req) == Respond(200)
    ensures Post(secret, verify, req, t, ok) == Handled(Reply(200), t)
  {
  }

  /** A missing or empty webhook secret makes the handler throw before it reads the request. */
  lemma MissingSecretThrows(secret: Option<string>, verify: Verifier, req: Request, t: Table, ok: bool)
    requires !Truthy(secret)
    ensures Post(secret, verify, req, t, ok) == Handled(Threw, t)
  {
  }
}

/**
  The newsletters collection and its two handlers: POST /api/newsletters
  (guard, title check, insert, then hand the active subscribers to the
  email service without waiting for it) and GET (all newsletters, newest
  first).
 */
module NewsletterStore {
  import opened Wrappers
  import opened Records
  import AccessGuard
  import SubscriberStore
  import Dispatch
  import EmailRender
  import Sorting

  /** The fields of the request body the handler reads; any may be missing. */
  datatype Body = Body(
    title: Option<string>, description: Option<string>, content: Option<string>,
    author: Option<string>, imageUrl: Option<string>)

  /** A reply: status, and either a message or the created newsletter. */
  datatype Reply = Reply(status: int, message: string, created: Option<Newsletter>)

  /** `auth.error?.message || 'Unauthorized'` with `auth.error?.status || 401`. */
  function DenialReply(e: AccessGuard.AuthError): (r: Reply)
    ensures r.status == (if e.status != 0 then e.status else 401)
    ensures r.message == (if e.message != "" then e.message else "Unauthorized")
    ensures r.created.None?
  {
    Reply(if e.status != 0 then e.status else 401, if e.message != "" then e.message else "Unauthorized", None)
  }

  /** `Newsletter.create(...)`: missing fields take the schema's defaults, and `date` is now. */
  function Created(id: nat, body: Body, now: int): Newsletter
    requires body.title.Some?
  {
    Newsletter(id, body.title.value, body.description.GetOr(""), body.content.GetOr(""),
               body.author.GetOr(""), now, body.imageUrl.GetOr(""))
  }

  function DateOf(n: Newsletter): int { n.date }

  /** The reply and the new collection of one POST. Dispatch is not an input: the reply cannot depend on it. */
  datatype Posted = Posted(reply: Reply, items: seq<Newsletter>, nextId: nat)

  /** The catch block's reply, here for a body that is not JSON. */
  const ServerErrorReply := Reply(500, "Server Error", None)

  /**
    The guard comes first; `req.json()` is only reached when it passes, and
    a body that is not JSON throws into the catch block.
   */
  function PostSpec<U>(items: seq<Newsletter>, nextId: nat, auth: AccessGuard.AuthResult<U>, request: JsonBody<Body>, now: int): Posted {
    if auth.Denied? then Posted(DenialReply(auth.error), items, nextId)
    else if request.Malformed? then Posted(ServerErrorReply, items, nextId)
    else
      var body := request.fields;
      if body.title.None? || body.title.value == "" then Posted(Reply(400, "Title is required", None), items, nextId)
      else
        var created := Created(nextId, body, now);
        Posted(Reply(201, "", Some(created)), items + [created], nextId + 1)
  }

  /** A refused request creates nothing and passes the guard's status and message on. */
  lemma DeniedCreatesNothing<U>(items: seq<Newsletter>, nextId: nat, auth: AccessGuard.AuthResult<U>, body: JsonBody<Body>, now: int)
    requires auth.Denied?
    ensures var p := PostSpec(items, nextId, auth, body, now);
      && p.items == items && p.nextId == nextId
      && p.reply.created.None?
      && (auth.error.status != 0 ==> p.reply.status == auth.error.status)
      && (auth.error.message != "" ==> p.reply.message == auth.error.message)
  {
  }

  /** The guard comes first: an unauthorised request is refused whatever its body, even one without a title or not JSON at all. */
  lemma GuardBeforeBody<U>(items: seq<Newsletter>, nextId: nat, auth: AccessGuard.AuthResult<U>, b1: JsonBody<Body>, b2: JsonBody<Body>, now: int)
    requires auth.Denied?
    ensures PostSpec(items, nextId, auth, b1, now) == PostSpec(items, nextId, auth, b2, now)
  {
  }

  /** An authorised request whose body is not JSON is the catch block's 500 and creates nothing. */
  lemma MalformedBodyCreatesNothing<U>(items: seq<Newsletter>, nextId: nat, auth: AccessGuard.AuthResult<U>, now: int)
    requires auth.Authorized?
    ensures PostSpec(items, nextId, auth, Malformed, now) == Posted(ServerErrorReply, items, nextId)
  {
  }

  /** An authorised request without a title is refused with 400 and creates nothing. */
  lemma MissingTitleCreatesNothing<U>(items: seq<Newsletter>, nextId: nat, auth: AccessGuard.AuthResult<U>, body: Body, now: int)
    requires auth.Authorized? && (body.title.None? || body.title.value == "")
    ensures PostSpec(items, nextId, auth, Parsed(body), now) == Posted(Reply(400, "Title is required", None), items, nextId)
  {
  }

  /**
    An authorised request with a title appends exactly one newsletter,
    holding the supplied fields (missing ones empty) and the current date,
    and replies 201 with it.
   */
  lemma CreateStoresSuppliedFields<U>(items: seq<Newsletter>, nextId: nat, auth: AccessGuard.AuthResult<U>, body: Body, now: int)
    requires auth.Authorized? && body.title.Some? && body.title.value != ""
    ensures var p := PostSpec(items, nextId, auth, Parsed(body), now);
      && p.reply.status == 201 && p.reply.created.Some?
      && p.items == items + [p.reply.created.value]
      && |p.items| == |items| + 1
      && var n := p.reply.created.value;
      && n.title == body.title.value
      && n.description == body.description.GetOr("")
      && n.content == body.content.GetOr("")
      && n.author == body.author.GetOr("")
      && n.imageUrl == body.imageUrl.GetOr("")
      && n.date == now
  {
  }

  /** With the TypeScript guard, a request without a bearer token is a 401 that creates nothing. */
  lemma NoTokenNoNewsletter(items: seq<Newsletter>, nextId: nat, authorization: Option<string>,
                            verify: string -> AccessGuard.Verification, body: JsonBody<Body>, now: int)
    requires !AccessGuard.HasBearerToken(AccessGuard.HeaderValue(authorization))
    ensures PostSpec(items, nextId, AccessGuard.RequireAuthTs(authorization, verify), body, now)
      == Posted(Reply(401, "No token provided", None), items, nextId)
  {
    AccessGuard.TsNoTokenIff(authorization, verify);
  }

  /** With the JavaScript guard the same holds, whether or not the JWT library loaded. */
  lemma NoTokenNoNewsletterJs(items: seq<Newsletter>, nextId: nat, authorization: Option<string>, libraryLoaded: bool,
                              verify: string -> AccessGuard.Verification, body: JsonBody<Body>, now: int)
    requires !AccessGuard.HasBearerToken(AccessGuard.HeaderValue(authorization))
    ensures PostSpec(items, nextId, AccessGuard.RequireAuthJs(authorization, libraryLoaded, verify), body, now)
      == Posted(Reply(401, "No token provided", None), items, nextId)
  {
    AccessGuard.JsNoToken(authorization, libraryLoaded, verify);
  }

  /** Stored newsletters have distinct ids, all below the next one. */
  predicate IdsFresh(items: seq<Newsletter>, nextId: nat) {
    && (forall i :: 0 <= i < |items| ==> items[i].id < nextId)
    && (forall i, j :: 0 <= i < j < |items| ==> items[i].id != items[j].id)
  }

  /** Every POST keeps the ids distinct. */
  lemma PostKeepsIdsFresh<U>(items: seq<Newsletter>, nextId: nat, auth: AccessGuard.AuthResult<U>, body: JsonBody<Body>, now: int)
    requires IdsFresh(items, nextId)
    ensures var p := PostSpec(items, nextId, auth, body, now);
      IdsFresh(p.items, p.nextId)
  {
    var p := PostSpec(items, nextId, auth, body, now);
    if p.items != items {
      assert p.items == items + [p.items[|items|]] && p.items[|items|].id == nextId;
    }
  }

  class NewsletterCollection {
    var items: seq<Newsletter>
    var nextId: nat

    ghost predicate Valid()
      reads this
    {
      IdsFresh(items, nextId)
    }

    constructor ()
      ensures Valid() && items == [] && nextId == 0
    {
      items := [];
      nextId := 0;
    }

    /**
      POST /api/newsletters. After replying, the handler looks up the active
      subscribers and, when there is at least one, hands them to the email
      service; that outcome is discarded and does not reach the reply.
     */
    method Post<U>(auth: AccessGuard.AuthResult<U>, request: JsonBody<Body>, now: int,
                   subscribers: SubscriberStore.Store, mailer: Dispatch.EmailService, env: EmailRender.Env,
                   send: (nat, EmailRender.Mail) -> Dispatch.SendOutcome)
      returns (reply: Reply, recipients: seq<Subscriber>, dispatched: bool)
      requires Valid() && subscribers.Valid()
      modifies this
      ensures Valid()
      ensures Posted(reply, items, nextId) == PostSpec(old(items), old(nextId), auth, request, now)
      ensures dispatched <==> reply.created.Some? && |recipients| > 0
      ensures reply.created.Some? ==>
        && (forall i :: 0 <= i < |recipients| ==>
              recipients[i].status == Active && recipients[i].email in subscribers.records
              && subscribers.records[recipients[i].email] == recipients[i])
        && (forall k :: k in subscribers.records && subscribers.records[k].status == Active ==> subscribers.records[k] in recipients)
        && (forall i, j :: 0 <= i < j < |recipients| ==> recipients[i].email != recipients[j].email)
      ensures reply.created.None? ==> recipients == []
    {
      PostKeepsIdsFresh(items, nextId, auth, request, now);
      recipients := [];
      dispatched := false;
      if auth.Denied? {
        return DenialReply(auth.error), recipients, dispatched;
      }
      if request.Malformed? {
        return ServerErrorReply, recipients, dispatched;
      }
      var body := request.fields;
      if body.title.None? || body.title.value == "" {
        return Reply(400, "Title is required", None), recipients, dispatched;
      }
      var created := Created(nextId, body, now);
      items := items + [created];
      nextId := nextId + 1;
      reply := Reply(201, "", Some(created));
      recipients := subscribers.ActiveSubscribers();
      if |recipients| > 0 {
        var _ := mailer.SendNewsletter(created, recipients, env, send);
        dispatched := true;
      }
    }

    /** GET /api/newsletters: `find().sort({ date: -1 })`. */
    method ListByDate() returns (r: seq<Newsletter>)
      ensures Sorting.SortedDesc(r, DateOf)
      ensures multiset(r) == multiset(items)
    {
      r := Sorting.SortDesc(items, DateOf);
    }
  }
}

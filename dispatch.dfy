/**
  `EmailService.sendNewsletter`: one attempt per subscriber, in order, each
  ending in a result record; a failure is caught and recorded and the loop
  goes on. The mail transport is an oracle `send` from the attempt's
  position and the mail to a delivery outcome; it is consulted only when a
  transporter is configured.
 */
module Dispatch {
  import opened Wrappers
  import opened JsStrings
  import opened Records
  import opened EmailRender
  import AccessGuard

  /** What `transporter.sendMail` does: resolve with an info object (whose `messageId` may be absent), or throw. */
  datatype SendOutcome = Delivered(messageId: Option<string>) | Failed(error: AccessGuard.Thrown)

  /** One entry of the `results` array. */
  datatype EmailResult = EmailResult(email: string, success: bool, messageId: Option<string>, error: Option<string>)

  /** The credentials `nodemailer.createTransport` is given. */
  datatype Transport = Gmail(user: string, pass: string)

  /** `initialize()`: a transporter exists exactly when EMAIL_USER and EMAIL_PASS are both set. */
  function TransportFor(env: Env): (t: Option<Transport>)
    ensures t.Some? <==> Truthy(env.emailUser) && Truthy(env.emailPass)
    ensures t.Some? ==> t.value == Gmail(env.emailUser.value, env.emailPass.value)
  {
    if Truthy(env.emailUser) && Truthy(env.emailPass) then Some(Gmail(env.emailUser.value, env.emailPass.value)) else None
  }

  const NoTransporter := "No email transporter configured"

  // ---------------------------------------------------------------------
  // The TypeScript service (src/lib/newsletterBackend.ts)

  /** `error instanceof Error ? error.message : 'Unknown email error'`. */
  function TsFailureMessage(e: AccessGuard.Thrown): string {
    if e.ErrorInstance? then e.message else "Unknown email error"
  }

  /** The result the TypeScript loop records for one subscriber. */
  function TsResult(sub: Subscriber, configured: bool, outcome: SendOutcome): EmailResult {
    if !configured then EmailResult(sub.email, false, None, Some(NoTransporter))
    else match outcome
      case Delivered(id) => EmailResult(sub.email, true, id, None)
      case Failed(e) => EmailResult(sub.email, false, None, Some(TsFailureMessage(e)))
  }

  /** The whole result list, as a function of the inputs. */
  function TsResults(tpl: Template, nl: Newsletter, subs: seq<Subscriber>, env: Env, configured: bool, send: (nat, Mail) -> SendOutcome): (rs: seq<EmailResult>)
    ensures |rs| == |subs|
  {
    seq(|subs|, i requires 0 <= i < |subs| => TsResult(subs[i], configured, send(i, MailFor(tpl, nl, subs[i], env))))
  }

  class EmailService {
    var transporter: Option<Transport>
    /** The fixed text of the HTML template. */
    var template: Template

    constructor (env: Env)
      ensures transporter == TransportFor(env) && template == SourceTemplate
    {
      template := SourceTemplate;
      transporter := None;
      if Truthy(env.emailUser) && Truthy(env.emailPass) {
        transporter := Some(Gmail(env.emailUser.value, env.emailPass.value));
      }
    }

    /** Send `nl` to every subscriber in turn; the environment stands for the module's constants. */
    method SendNewsletter(nl: Newsletter, subs: seq<Subscriber>, env: Env, send: (nat, Mail) -> SendOutcome)
      returns (results: seq<EmailResult>)
      ensures results == TsResults(template, nl, subs, env, transporter.Some?, send)
    {
      results := [];
      var tpl, configured := template, transporter.Some?;
      for i := 0 to |subs|
        invariant |results| == i
        invariant results == TsResults(tpl, nl, subs[..i], env, configured, send)
      {
        var sub := subs[i];
        var mail := MailFor(tpl, nl, sub, env);
        ghost var expected := TsResult(sub, configured, send(i, mail));
        ghost var prev := results;
        if configured {
          var outcome := send(i, mail);
          match outcome {
            case Delivered(id) =>
              results := results + [EmailResult(sub.email, true, id, None)];
            case Failed(e) =>
              results := results + [EmailResult(sub.email, false, None, Some(TsFailureMessage(e)))];
          }
        } else {
          results := results + [EmailResult(sub.email, false, None, Some(NoTransporter))];
        }
        assert results == prev + [expected];
        TsResultsStep(tpl, nl, subs, env, configured, send, i);
      }
      assert subs[..|subs|] == subs;
    }
  }

  /** The results for the first `i + 1` subscribers extend those for the first `i`. */
  lemma TsResultsStep(tpl: Template, nl: Newsletter, subs: seq<Subscriber>, env: Env, configured: bool, send: (nat, Mail) -> SendOutcome, i: nat)
    requires i < |subs|
    ensures TsResults(tpl, nl, subs[..i + 1], env, configured, send)
      == TsResults(tpl, nl, subs[..i], env, configured, send) + [TsResult(subs[i], configured, send(i, MailFor(tpl, nl, subs[i], env)))]
  {
    var a := TsResults(tpl, nl, subs[..i + 1], env, configured, send);
    var b := TsResults(tpl, nl, subs[..i], env, configured, send);
    var last := TsResult(subs[i], configured, send(i, MailFor(tpl, nl, subs[i], env)));
    forall j | 0 <= j < i + 1 ensures a[j] == (b + [last])[j] {
      assert subs[..i + 1][j] == subs[j];
      if j < i {
        assert subs[..i][j] == subs[j];
        assert b[j] == TsResult(subs[j], configured, send(j, MailFor(tpl, nl, subs[j], env)));
      }
    }
  }

  /**
    One result per subscriber, in input order, each carrying that
    subscriber's email; a result is a success exactly when a transporter is
    configured and the transport delivered, and then records the transport's
    messageId; a failure records the thrown message.
   */
  lemma TsResultsAccounting(tpl: Template, nl: Newsletter, subs: seq<Subscriber>, env: Env, configured: bool, send: (nat, Mail) -> SendOutcome)
    ensures var rs := TsResults(tpl, nl, subs, env, configured, send);
      forall i :: 0 <= i < |subs| ==>
        var outcome := send(i, MailFor(tpl, nl, subs[i], env));
        && rs[i].email == subs[i].email
        && (rs[i].success <==> configured && outcome.Delivered?)
        && (rs[i].success ==> rs[i].messageId == outcome.messageId && rs[i].error.None?)
        && (!rs[i].success ==> rs[i].error.Some? && rs[i].messageId.None?)
        && (configured && outcome.Failed? ==> rs[i].error == Some(TsFailureMessage(outcome.error)))
  {
  }

  /** Without a transporter every result is a failure with the same message, and the transport is never consulted. */
  lemma TsUnconfiguredAllFail(tpl: Template, nl: Newsletter, subs: seq<Subscriber>, env: Env, send: (nat, Mail) -> SendOutcome, other: (nat, Mail) -> SendOutcome)
    ensures var rs := TsResults(tpl, nl, subs, env, false, send);
      forall i :: 0 <= i < |rs| ==> rs[i] == EmailResult(subs[i].email, false, None, Some(NoTransporter))
    ensures TsResults(tpl, nl, subs, env, false, send) == TsResults(tpl, nl, subs, env, false, other)
  {
    var rs := TsResults(tpl, nl, subs, env, false, send);
    forall i | 0 <= i < |rs| ensures rs[i] == EmailResult(subs[i].email, false, None, Some(NoTransporter)) {
      assert rs[i] == TsResult(subs[i], false, send(i, MailFor(tpl, nl, subs[i], env)));
    }
    var rs' := TsResults(tpl, nl, subs, env, false, other);
    forall i | 0 <= i < |rs| ensures rs[i] == rs'[i] {
      assert rs'[i] == TsResult(subs[i], false, other(i, MailFor(tpl, nl, subs[i], env)));
    }
  }

  /**
    A subscriber's result depends only on its own attempt: changing what
    the transport does for other attempts changes nothing for it. In this
    model that holds by construction, since the transport is a pure oracle
    of (index, mail) and `TsResults` is built pointwise from it. The
    isolation the source gets from catching each send's error inside the
    loop is what `TsResultsAccounting` and the proof of `SendNewsletter`
    state: a failed send becomes that subscriber's failure entry and the
    loop goes on.
   */
  lemma TsFailureIsolation(tpl: Template, nl: Newsletter, subs: seq<Subscriber>, env: Env, configured: bool,
                           send: (nat, Mail) -> SendOutcome, other: (nat, Mail) -> SendOutcome, i: nat)
    requires i < |subs|
    requires send(i, MailFor(tpl, nl, subs[i], env)) == other(i, MailFor(tpl, nl, subs[i], env))
    ensures TsResults(tpl, nl, subs, env, configured, send)[i] == TsResults(tpl, nl, subs, env, configured, other)[i]
  {
  }

  /** Dispatching to a longer list extends the result list of the shorter one. */
  lemma TsResultsPrefix(tpl: Template, nl: Newsletter, subs: seq<Subscriber>, more: seq<Subscriber>, env: Env, configured: bool, send: (nat, Mail) -> SendOutcome)
    ensures TsResults(tpl, nl, subs + more, env, configured, send)[..|subs|] == TsResults(tpl, nl, subs, env, configured, send)
  {
    var long := TsResults(tpl, nl, subs + more, env, configured, send);
    var short := TsResults(tpl, nl, subs, env, configured, send);
    forall i | 0 <= i < |subs| ensures long[i] == short[i] {
      assert (subs + more)[i] == subs[i];
    }
  }

  // ---------------------------------------------------------------------
  // The JavaScript service (src/lib/newsletterBackend.js)

  /** `result.messageId || 'sent'`. */
  function JsMessageId(id: Option<string>): (r: string)
    ensures r != ""
    ensures Truthy(id) ==> r == id.value
  {
    if Truthy(id) then id.value else "sent"
  }

  /** `error.message`: whatever the thrown value carries, possibly nothing. */
  function JsFailureMessage(e: AccessGuard.Thrown): Option<string> {
    match e
    case ErrorInstance(m) => Some(m)
    case OtherValue(p) => p
  }

  function JsResult(sub: Subscriber, configured: bool, outcome: SendOutcome): EmailResult {
    if !configured then EmailResult(sub.email, false, None, Some(NoTransporter))
    else match outcome
      case Delivered(id) => EmailResult(sub.email, true, Some(JsMessageId(id)), None)
      case Failed(e) => EmailResult(sub.email, false, None, JsFailureMessage(e))
  }

  function JsResults(tpl: Template, nl: Newsletter, subs: seq<Subscriber>, env: Env, configured: bool, send: (nat, Mail) -> SendOutcome): (rs: seq<EmailResult>)
    ensures |rs| == |subs|
  {
    seq(|subs|, i requires 0 <= i < |subs| => JsResult(subs[i], configured, send(i, MailFor(tpl, nl, subs[i], env))))
  }

  class EmailServiceJs {
    var useSendGrid: bool
    var transporter: Option<Transport>
    var template: Template

    constructor (env: Env)
      ensures !useSendGrid && transporter == TransportFor(env) && template == SourceTemplate
    {
      useSendGrid := false;
      template := SourceTemplate;
      transporter := None;
      if Truthy(env.emailUser) && Truthy(env.emailPass) {
        transporter := Some(Gmail(env.emailUser.value, env.emailPass.value));
      }
    }

    method SendNewsletter(nl: Newsletter, subs: seq<Subscriber>, env: Env, send: (nat, Mail) -> SendOutcome)
      returns (results: seq<EmailResult>)
      ensures results == JsResults(template, nl, subs, env, transporter.Some?, send)
    {
      results := [];
      var tpl, configured := template, transporter.Some?;
      for i := 0 to |subs|
        invariant |results| == i
        invariant results == JsResults(tpl, nl, subs[..i], env, configured, send)
      {
        var sub := subs[i];
        var mail := MailFor(tpl, nl, sub, env);
        ghost var expected := JsResult(sub, configured, send(i, mail));
        ghost var prev := results;
        var outcome: SendOutcome;
        if configured {
          outcome := send(i, mail);
        } else {
          outcome := Failed(AccessGuard.ErrorInstance(NoTransporter));
        }
        match outcome {
          case Delivered(id) =>
            results := results + [EmailResult(sub.email, true, Some(JsMessageId(id)), None)];
          case Failed(e) =>
            results := results + [EmailResult(sub.email, false, None, JsFailureMessage(e))];
        }
        assert results == prev + [expected];
        JsResultsStep(tpl, nl, subs, env, configured, send, i);
      }
      assert subs[..|subs|] == subs;
    }
  }

  /** The results for the first `i + 1` subscribers extend those for the first `i`. */
  lemma JsResultsStep(tpl: Template, nl: Newsletter, subs: seq<Subscriber>, env: Env, configured: bool, send: (nat, Mail) -> SendOutcome, i: nat)
    requires i < |subs|
    ensures JsResults(tpl, nl, subs[..i + 1], env, configured, send)
      == JsResults(tpl, nl, subs[..i], env, configured, send) + [JsResult(subs[i], configured, send(i, MailFor(tpl, nl, subs[i], env)))]
  {
    var a := JsResults(tpl, nl, subs[..i + 1], env, configured, send);
    var b := JsResults(tpl, nl, subs[..i], env, configured, send);
    var last := JsResult(subs[i], configured, send(i, MailFor(tpl, nl, subs[i], env)));
    forall j | 0 <= j < i + 1 ensures a[j] == (b + [last])[j] {
      assert subs[..i + 1][j] == subs[j];
      if j < i {
        assert subs[..i][j] == subs[j];
        assert b[j] == JsResult(subs[j], configured, send(j, MailFor(tpl, nl, subs[j], env)));
      }
    }
  }

  /**
    The JavaScript service accounts in the same way, but a success always
    records a non-empty messageId: the transport's, or "sent" when it gave
    none.
   */
  lemma JsResultsAccounting(tpl: Template, nl: Newsletter, subs: seq<Subscriber>, env: Env, configured: bool, send: (nat, Mail) -> SendOutcome)
    ensures var rs := JsResults(tpl, nl, subs, env, configured, send);
      forall i :: 0 <= i < |subs| ==>
        var outcome := send(i, MailFor(tpl, nl, subs[i], env));
        && rs[i].email == subs[i].email
        && (rs[i].success <==> configured && outcome.Delivered?)
        && (rs[i].success ==> rs[i].messageId.Some? && rs[i].messageId.value != "")
        && (rs[i].success && Truthy(outcome.messageId) ==> rs[i].messageId == outcome.messageId)
        && (rs[i].success && !Truthy(outcome.messageId) ==> rs[i].messageId == Some("sent"))
        && (!configured ==> rs[i].error == Some(NoTransporter))
  {
  }

  /** The two services agree on who succeeded, and differ only in the recorded ids and messages. */
  lemma TwinsAgreeOnSuccess(tpl: Template, nl: Newsletter, subs: seq<Subscriber>, env: Env, configured: bool, send: (nat, Mail) -> SendOutcome)
    ensures var ts, js := TsResults(tpl, nl, subs, env, configured, send), JsResults(tpl, nl, subs, env, configured, send);
      forall i :: 0 <= i < |subs| ==> ts[i].email == js[i].email && ts[i].success == js[i].success
  {
    var ts, js := TsResults(tpl, nl, subs, env, configured, send), JsResults(tpl, nl, subs, env, configured, send);
    forall i | 0 <= i < |subs| ensures ts[i].email == js[i].email && ts[i].success == js[i].success {
      var outcome := send(i, MailFor(tpl, nl, subs[i], env));
      assert ts[i] == TsResult(subs[i], configured, outcome);
      assert js[i] == JsResult(subs[i], configured, outcome);
    }
  }
}

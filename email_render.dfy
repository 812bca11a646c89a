/**
  The newsletter email as `EmailService` renders it for one subscriber: the
  HTML template (greeting, optional description and image blocks, the
  unsubscribe link), the plain-text body and the envelope. The TypeScript
  and JavaScript services share the same template; the environment
  variables they read are the `Env` parameter.
 */
module EmailRender {
  import opened Wrappers
  import opened JsStrings
  import opened Records

  /** The environment variables the email service reads. */
  datatype Env = Env(
    emailUser: Option<string>, emailPass: Option<string>, fromEmail: Option<string>,
    frontendUrl: Option<string>, backendUrl: Option<string>)

  /** `${o}` in a template literal: an unset variable renders as "undefined". */
  function Interpolate(o: Option<string>): (r: string)
    ensures o.Some? ==> r == o.value
    ensures o.None? ==> r == "undefined"
  {
    if o.Some? then o.value else "undefined"
  }

  const DefaultFrom := "noreply@visiontech.com"
  const TokenQuery := "/?token="

  /** The link at the foot of the email: the homepage with the subscriber's token, or the backend URL. */
  function UnsubscribeLink(env: Env, token: string): string {
    if Truthy(env.frontendUrl) then env.frontendUrl.value + TokenQuery + token
    else Interpolate(env.backendUrl)
  }

  /**
    With FRONTEND_URL set, the link is that URL followed by "/?token=" and the
    token, and the token can be read back from it. Without it, the link is
    BACKEND_URL (or "undefined") for every subscriber alike.
   */
  lemma LinkCarriesToken(env: Env, token: string, other: string)
    ensures Truthy(env.frontendUrl) ==>
      var link := UnsubscribeLink(env, token);
      var n := |env.frontendUrl.value| + |TokenQuery|;
      && StartsWith(link, env.frontendUrl.value + TokenQuery)
      && |link| == n + |token|
      && link[n..] == token
    ensures !Truthy(env.frontendUrl) ==>
      UnsubscribeLink(env, token) == UnsubscribeLink(env, other) == Interpolate(env.backendUrl)
  {
    if Truthy(env.frontendUrl) {
      var p := env.frontendUrl.value + TokenQuery;
      var link := UnsubscribeLink(env, token);
      assert link == p + token;
      assert link[..|p|] == p;
      assert link[|p|..] == token;
    }
  }

  function Greeting(name: string): string {
    if name != "" then "Hi " + name + "," else "Hello,"
  }

  /** The greeting names the subscriber exactly when a name is stored. */
  lemma GreetingIff(name: string)
    ensures Greeting(name) == "Hello," <==> name == ""
    ensures name != "" ==> Greeting(name) == "Hi " + name + ","
  {
    if name != "" {
      assert Greeting(name)[1] == 'i';
    }
  }

  function DescriptionBlock(description: string): (r: string)
    ensures r == "" <==> description == ""
  {
    if description != "" then "<p>" + description + "</p>" else ""
  }

  function ImageBlock(imageUrl: string, title: string): (r: string)
    ensures r == "" <==> imageUrl == ""
  {
    if imageUrl != "" then "<img src=\"" + imageUrl + "\" alt=\"" + title + "\" style=\"max-width: 100%; height: auto;\">" else ""
  }

  function GreetingParagraph(name: string): string {
    "<p>" + Greeting(name) + "</p>"
  }

  function Anchor(link: string): string {
    "<a href=\"" + link + "\">Unsubscribe</a>"
  }

  /**
    The fixed text of the template, between the inserted values. The
    service renders with the text it holds; `SourceTemplate` is the text of
    `generateEmailHTML`, and the properties below hold for any fixed text.
   */
  datatype Template = Template(
    open: string, afterTitle: string, afterHeading: string, beforeGreeting: string,
    afterGreeting: string, afterContent: string, beforeLink: string, close: string)

  const SourceTemplate := Template(
    "\n      <!DOCTYPE html>\n      <html>\n      <head>\n        <meta charset=\"utf-8\">\n        <title>",
    "</title>\n        <style>\n          body { font-family: Arial, sans-serif; line-height: 1.6; color: #333; }\n          .container { max-width: 600px; margin: 0 auto; padding: 20px; }\n          .header { background: #f8f9fa; padding: 20px; text-align: center; }\n          .content { padding: 20px 0; }\n          .footer { background: #f8f9fa; padding: 20px; text-align: center; font-size: 12px; color: #666; }\n        </style>\n      </head>\n      <body>\n        <div class=\"container\">\n          <div class=\"header\">\n            <h1>",
    "</h1>\n            ",
    "\n          </div>\n          <div class=\"content\">\n            ",
    "\n            ",
    "\n            ",
    "\n          </div>\n          <div class=\"footer\">\n            <p>You're receiving this because you subscribed to VisionTech Newsletter.</p>\n            <p>",
    "</p>\n          </div>\n        </div>\n      </body>\n      </html>\n    ")

  // Positions of the inserted values among the template's parts.
  const DescriptionPart := 5
  const GreetingPart := 7
  const ContentPart := 9
  const ImagePart := 11
  const LinkPart := 13

  /** The template's parts in order: fixed text alternating with the inserted values. */
  function HtmlParts(tpl: Template, nl: Newsletter, name: string, link: string): (ps: seq<string>)
    ensures |ps| == 15
    ensures ps[DescriptionPart] == DescriptionBlock(nl.description) && ps[GreetingPart] == GreetingParagraph(name)
    ensures ps[ContentPart] == nl.content && ps[ImagePart] == ImageBlock(nl.imageUrl, nl.title)
    ensures ps[LinkPart] == Anchor(link)
  {
    [tpl.open, nl.title, tpl.afterTitle, nl.title, tpl.afterHeading,
     DescriptionBlock(nl.description),
     tpl.beforeGreeting, GreetingParagraph(name), tpl.afterGreeting,
     nl.content, tpl.afterContent,
     ImageBlock(nl.imageUrl, nl.title),
     tpl.beforeLink, Anchor(link), tpl.close]
  }

  /** `generateEmailHTML(newsletter, subscriber)`. */
  function EmailHtml(tpl: Template, nl: Newsletter, sub: Subscriber, env: Env): string {
    Join(HtmlParts(tpl, nl, sub.name, UnsubscribeLink(env, sub.token)))
  }

  /** The greeting paragraph, the content and the unsubscribe anchor all appear in the HTML. */
  lemma HtmlShowsGreetingContentAndLink(tpl: Template, nl: Newsletter, sub: Subscriber, env: Env)
    ensures Contains(EmailHtml(tpl, nl, sub, env), GreetingParagraph(sub.name))
    ensures Contains(EmailHtml(tpl, nl, sub, env), nl.content)
    ensures Contains(EmailHtml(tpl, nl, sub, env), Anchor(UnsubscribeLink(env, sub.token)))
  {
    var ps := HtmlParts(tpl, nl, sub.name, UnsubscribeLink(env, sub.token));
    JoinContainsPart(ps, GreetingPart);
    JoinContainsPart(ps, ContentPart);
    JoinContainsPart(ps, LinkPart);
  }

  /** A non-empty description appears as a paragraph, and an empty one leaves no trace. */
  lemma DescriptionShownIffPresent(tpl: Template, nl: Newsletter, sub: Subscriber, env: Env)
    ensures nl.description != "" ==> Contains(EmailHtml(tpl, nl, sub, env), "<p>" + nl.description + "</p>")
    ensures |EmailHtml(tpl, nl, sub, env)| == |EmailHtml(tpl, nl.(description := ""), sub, env)|
              + (if nl.description != "" then |nl.description| + 7 else 0)
  {
    var link := UnsubscribeLink(env, sub.token);
    var ps := HtmlParts(tpl, nl, sub.name, link);
    assert HtmlParts(tpl, nl.(description := ""), sub.name, link) == ps[DescriptionPart := ""];
    JoinReplaceLength(ps, DescriptionPart, "");
    JoinContainsPart(ps, DescriptionPart);
  }

  /** A non-empty image URL appears as an image tag, and an empty one leaves no trace. */
  lemma ImageShownIffPresent(tpl: Template, nl: Newsletter, sub: Subscriber, env: Env)
    ensures nl.imageUrl != "" ==>
      Contains(EmailHtml(tpl, nl, sub, env), "<img src=\"" + nl.imageUrl + "\" alt=\"" + nl.title + "\" style=\"max-width: 100%; height: auto;\">")
    ensures |EmailHtml(tpl, nl, sub, env)| == |EmailHtml(tpl, nl.(imageUrl := ""), sub, env)|
              + (if nl.imageUrl != "" then |ImageBlock(nl.imageUrl, nl.title)| else 0)
  {
    var link := UnsubscribeLink(env, sub.token);
    var ps := HtmlParts(tpl, nl, sub.name, link);
    assert HtmlParts(tpl, nl.(imageUrl := ""), sub.name, link) == ps[ImagePart := ""];
    JoinReplaceLength(ps, ImagePart, "");
    JoinContainsPart(ps, ImagePart);
  }

  /**
    Two subscribers with the same name but different tokens get different
    emails when FRONTEND_URL is set: each email carries its own link.
   */
  lemma EachSubscriberGetsOwnLink(tpl: Template, nl: Newsletter, s1: Subscriber, s2: Subscriber, env: Env)
    requires Truthy(env.frontendUrl) && s1.name == s2.name && s1.token != s2.token
    ensures EmailHtml(tpl, nl, s1, env) != EmailHtml(tpl, nl, s2, env)
  {
    var l1, l2 := UnsubscribeLink(env, s1.token), UnsubscribeLink(env, s2.token);
    var ps := HtmlParts(tpl, nl, s1.name, l1);
    assert HtmlParts(tpl, nl, s2.name, l2) == ps[LinkPart := Anchor(l2)];
    assert ps == ps[LinkPart := Anchor(l1)];
    if EmailHtml(tpl, nl, s1, env) == EmailHtml(tpl, nl, s2, env) {
      JoinCancel(ps, LinkPart, Anchor(l1), Anchor(l2));
      CancelAround("<a href=\"", l1, l2, "\">Unsubscribe</a>");
      var f := env.frontendUrl.value + TokenQuery;
      assert l1 == f + s1.token + "" && l2 == f + s2.token + "";
      CancelAround(f, s1.token, s2.token, "");
    }
  }

  /** `generateEmailText(newsletter)`: title, description (or nothing) and content, separated by blank lines. */
  function EmailText(nl: Newsletter): string {
    nl.title + "\n\n" + nl.description + "\n\n" + nl.content
  }

  /** The text up to its first line break. */
  function FirstLine(s: string): (r: string)
    ensures |r| <= |s| && r == s[..|r|]
    ensures '\n' !in r
  {
    if s == [] || s[0] == '\n' then [] else [s[0]] + FirstLine(s[1..])
  }

  lemma {:induction false} FirstLineOfJoin(a: string, b: string)
    requires '\n' !in a
    ensures FirstLine(a + "\n" + b) == a
  {
    if a != [] {
      assert (a + "\n" + b)[1..] == a[1..] + "\n" + b;
      assert a[0] != '\n';
      FirstLineOfJoin(a[1..], b);
    } else {
      assert (a + "\n" + b)[0] == '\n';
    }
  }

  /**
    The plain text opens with the title as its first line (for a one-line
    title) and closes with the content.
   */
  lemma TextStartsWithTitleEndsWithContent(nl: Newsletter)
    ensures '\n' !in nl.title ==> FirstLine(EmailText(nl)) == nl.title
    ensures var t := EmailText(nl); |t| >= |nl.content| && t[|t| - |nl.content|..] == nl.content
  {
    var t := EmailText(nl);
    assert t == nl.title + "\n" + ("\n" + nl.description + "\n\n" + nl.content);
    if '\n' !in nl.title {
      FirstLineOfJoin(nl.title, "\n" + nl.description + "\n\n" + nl.content);
    }
  }

  /** The `emailData` object handed to the transport. */
  datatype Mail = Mail(to: string, from: string, subject: string, html: string, text: string)

  function MailFor(tpl: Template, nl: Newsletter, sub: Subscriber, env: Env): (m: Mail)
    ensures m.to == sub.email && m.subject == nl.title
    ensures m.from == if Truthy(env.fromEmail) then env.fromEmail.value else DefaultFrom
  {
    Mail(sub.email, OrElse(env.fromEmail, DefaultFrom), nl.title, EmailHtml(tpl, nl, sub, env), EmailText(nl))
  }
}

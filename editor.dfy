/**
  The admin "create newsletter" page: the form record and its change
  handler, the content string built from the visual editor's CSS and HTML
  for both submit and preview, the request submit sends, and the
  normalisation of uploaded image URLs.
 */
module NewsletterEditor {
  import opened Wrappers
  import opened JsStrings
  import AccessGuard
  import Excerpts

  /** `process.env.NEXT_PUBLIC_API_BASE_URL || ''`. */
  function ApiBase(configured: Option<string>): (base: string)
    ensures Truthy(configured) ==> base == configured.value
    ensures !Truthy(configured) ==> base == ""
  {
    OrElse(configured, "")
  }

  // ---------------------------------------------------------------------
  // Content

  /**
    What the editor's getters yield: `None` when the getter is missing or
    returns nothing. Without an editor at all, both are `None`.
   */
  datatype EditorView = EditorView(html: Option<string>, css: Option<string>)

  /** `editor?.getHtml?.() || ''` and `editor?.getCss?.() || ''`. */
  function HtmlOf(editor: Option<EditorView>): string {
    if editor.Some? then OrElse(editor.value.html, "") else ""
  }

  function CssOf(editor: Option<EditorView>): string {
    if editor.Some? then OrElse(editor.value.css, "") else ""
  }

  const StyleOpen := "<style>"
  const StyleClose := "</style>"

  /** `<style>${css}</style>${html}`. */
  function Compose(css: string, html: string): string {
    StyleOpen + css + StyleClose + html
  }

  /** The content both submit and preview build. */
  function ContentOf(editor: Option<EditorView>): (content: string)
    ensures editor.None? ==> content == "<style></style>"
    ensures StartsWith(content, StyleOpen)
  {
    Compose(CssOf(editor), HtmlOf(editor))
  }

  /** The first index at which `t` occurs in `s`. */
  function Find(s: string, t: string): (r: Option<nat>)
    ensures r.Some? ==> OccursAt(s, t, r.value) && forall j :: 0 <= j < r.value ==> !OccursAt(s, t, j)
    ensures r.None? ==> forall j :: !OccursAt(s, t, j)
    decreases |s|
  {
    if StartsWith(s, t) then Some(0)
    else if |s| == 0 then None
    else match Find(s[1..], t)
      case None =>
        assert forall j :: j >= 1 ==> (OccursAt(s, t, j) <==> OccursAt(s[1..], t, j - 1)) by {
          forall j | j >= 1 { OccursShift(s, t, j); }
        }
        assert !OccursAt(s, t, 0);
        None
      case Some(k) =>
        OccursShift(s, t, k + 1);
        assert forall j :: 1 <= j <= k ==> (OccursAt(s, t, j) <==> OccursAt(s[1..], t, j - 1)) by {
          forall j | 1 <= j <= k { OccursShift(s, t, j); }
        }
        Some(k + 1)
  }

  /** Split stored content back into its CSS and HTML: the CSS runs to the first `</style>`. */
  function Split(content: string): Option<(string, string)> {
    if !StartsWith(content, StyleOpen) then None
    else
      var rest := content[|StyleOpen|..];
      match Find(rest, StyleClose)
      case None => None
      case Some(k) => Some((rest[..k], rest[k + |StyleClose|..]))
  }

  /** A style sheet without `</style>` in it, and any HTML, can be read back from the content. */
  lemma ComposeSplitRoundTrip(css: string, html: string)
    requires forall j :: !OccursAt(css, StyleClose, j)
    ensures Split(Compose(css, html)) == Some((css, html))
  {
    var c := Compose(css, html);
    assert c[..|StyleOpen|] == StyleOpen;
    var rest := c[|StyleOpen|..];
    assert rest == css + StyleClose + html;
    assert OccursAt(rest, StyleClose, |css|) by {
      assert rest[|css|..|css| + |StyleClose|] == StyleClose;
    }
    forall j | 0 <= j < |css| ensures !OccursAt(rest, StyleClose, j) {
      if OccursAt(rest, StyleClose, j) {
        // An occurrence starting inside the CSS would need "</style>" to
        // begin with a suffix of the CSS followed by a prefix of itself.
        OccursInsideStyle(css, html, j);
      }
    }
    assert rest[..|css|] == css;
    assert rest[|css| + |StyleClose|..] == html;
  }

  /**
    "</style>" cannot overlap itself: an occurrence in
    `css + "</style>" + html` that starts inside `css` lies wholly inside
    `css`, because its only "<" is its first character and "/" follows it.
   */
  lemma OccursInsideStyle(css: string, html: string, j: int)
    requires 0 <= j < |css| && OccursAt(css + StyleClose + html, StyleClose, j)
    ensures OccursAt(css, StyleClose, j)
  {
    var rest := css + StyleClose + html;
    // Only the first character of "</style>" is a "<", and `rest` has one
    // at index |css|, so the occurrence cannot straddle that index.
    assert forall d :: 1 <= d < |StyleClose| ==> rest[j + d] == StyleClose[d] != '<';
    assert rest[|css|] == '<';
    assert j + |StyleClose| <= |css|;
    assert css[j..j + |StyleClose|] == rest[j..j + |StyleClose|];
  }

  /** Different editor contents give different stored content, as long as the CSS holds no `</style>`. */
  lemma ComposeInjective(css1: string, html1: string, css2: string, html2: string)
    requires forall j :: !OccursAt(css1, StyleClose, j)
    requires forall j :: !OccursAt(css2, StyleClose, j)
    requires Compose(css1, html1) == Compose(css2, html2)
    ensures css1 == css2 && html1 == html2
  {
    ComposeSplitRoundTrip(css1, html1);
    ComposeSplitRoundTrip(css2, html2);
  }

  /**
    A card excerpt of editor-made content starts with the style sheet's
    text: the tag pass removes `<style>` and `</style>` but keeps what lies
    between them.
   */
  lemma ExcerptKeepsStyleText(css: string, html: string)
    requires '<' !in css
    ensures Excerpts.StripTags(Compose(css, html)) == css + Excerpts.StripTags(html)
  {
    var t := StyleClose + html;
    assert Compose(css, html) == StyleOpen + (css + t);
    assert Excerpts.IsTag(StyleOpen) by {
      assert StyleOpen[..6] == "<style";
    }
    Excerpts.StripLeadingTag(StyleOpen, css + t);
    StripKeepsPlainPrefix(css, t);
    assert Excerpts.IsTag(StyleClose) by {
      assert StyleClose[..7] == "</style";
    }
    Excerpts.StripLeadingTag(StyleClose, html);
  }

  /** Text without a "<" in front of anything is kept, and the pass goes on with what follows. */
  lemma {:induction false} StripKeepsPlainPrefix(a: string, b: string)
    requires '<' !in a
    ensures Excerpts.StripTags(a + b) == a + Excerpts.StripTags(b)
    decreases |a|
  {
    if a != [] {
      var s := a + b;
      assert s[0] == a[0] && !Excerpts.TagAt(s, 0);
      assert s[1..] == a[1..] + b;
      StripKeepsPlainPrefix(a[1..], b);
      assert a == [a[0]] + a[1..];
    } else {
      assert a + b == b;
    }
  }

  // ---------------------------------------------------------------------
  // The form and the requests

  /** The form state: an object whose keys start as title, description, author and imageUrl. */
  type Form = map<string, string>

  const InitialForm: Form := map["title" := "", "description" := "", "author" := "", "imageUrl" := ""]

  /** `setForm({ ...form, [e.target.name]: e.target.value })`. */
  function HandleChange(form: Form, name: string, value: string): (r: Form)
    ensures r.Keys == form.Keys + {name}
  {
    form[name := value]
  }

  /** The named field takes the new value and every other field keeps its own. */
  lemma ChangeTouchesOneField(form: Form, name: string, value: string)
    ensures var r := HandleChange(form, name, value);
      && r[name] == value
      && forall k :: k in form && k != name ==> k in r && r[k] == form[k]
  {
  }

  /** The three text inputs are named after fields the form already has, so typing never adds a field. */
  lemma InputsKeepFormShape(form: Form, name: string, value: string)
    requires form.Keys == InitialForm.Keys
    requires name in {"title", "author", "description"}
    ensures HandleChange(form, name, value).Keys == InitialForm.Keys
  {
  }

  /** What submit sends: an optional Authorization header and the JSON body `{ ...form, content }`. */
  datatype Request = Request(authorization: Option<string>, body: map<string, string>)

  function SubmitRequest(form: Form, editor: Option<EditorView>, token: Option<string>): (req: Request)
    ensures "content" in req.body && req.body["content"] == ContentOf(editor)
    ensures forall k :: k in form && k != "content" ==> k in req.body && req.body[k] == form[k]
    ensures req.body.Keys == form.Keys + {"content"}
  {
    Request(if Truthy(token) then Some("Bearer " + token.value) else None, form["content" := ContentOf(editor)])
  }

  /** Preview writes exactly the content submit would send, to a new window when one opens. */
  function PreviewDocument(editor: Option<EditorView>, windowOpened: bool): (doc: Option<string>)
    ensures doc.Some? <==> windowOpened
  {
    if windowOpened then Some(ContentOf(editor)) else None
  }

  lemma PreviewMatchesSubmit(form: Form, editor: Option<EditorView>, token: Option<string>)
    ensures PreviewDocument(editor, true) == Some(SubmitRequest(form, editor, token).body["content"])
  {
  }

  /** The token the page holds reaches the server's guard unchanged; without one no header is sent and the guard refuses. */
  lemma SubmitCarriesToken(form: Form, editor: Option<EditorView>, token: Option<string>, verify: string -> AccessGuard.Verification)
    ensures var req := SubmitRequest(form, editor, token);
      && (Truthy(token) ==> AccessGuard.BearerToken(AccessGuard.HeaderValue(req.authorization)) == Some(token.value))
      && (!Truthy(token) ==> AccessGuard.RequireAuthTs(req.authorization, verify) == AccessGuard.Denied(AccessGuard.NoToken))
  {
    if Truthy(token) {
      AccessGuard.BearerRoundTrip(token.value);
    } else {
      AccessGuard.TsNoTokenIff(None, verify);
    }
  }

  // ---------------------------------------------------------------------
  // Upload URLs

  /** The asset-manager upload handler: a truthy `url` is added, made absolute with the API base unless it starts with "http". */
  function AssetSrc(apiBase: string, url: Option<string>): (src: Option<string>)
    ensures src.Some? <==> Truthy(url)
  {
    if Truthy(url) then Some(if StartsWith(url.value, "http") then url.value else apiBase + url.value) else None
  }

  /** The cover image: `url` when it starts with "http", else the API base followed by `url || ''`. */
  function CoverUrl(apiBase: string, url: Option<string>): string {
    if url.Some? && StartsWith(url.value, "http") then url.value else apiBase + OrElse(url, "")
  }

  /**
    Both handlers keep an absolute URL and prefix anything else with the
    API base; they agree on every URL the asset handler accepts, and a
    missing cover URL leaves the API base alone.
   */
  lemma UploadUrlsAgree(apiBase: string, url: Option<string>)
    ensures url.Some? && StartsWith(url.value, "http") ==> CoverUrl(apiBase, url) == url.value
    ensures !(url.Some? && StartsWith(url.value, "http")) ==> CoverUrl(apiBase, url) == apiBase + url.GetOr("")
    ensures Truthy(url) ==> AssetSrc(apiBase, url) == Some(CoverUrl(apiBase, url))
    ensures !Truthy(url) ==> CoverUrl(apiBase, url) == apiBase
  {
  }

  /** With an absolute (or empty) API base, normalising a cover URL a second time changes nothing. */
  lemma CoverUrlIdempotent(apiBase: string, url: Option<string>)
    requires StartsWith(apiBase, "http") || apiBase == ""
    ensures CoverUrl(apiBase, Some(CoverUrl(apiBase, url))) == CoverUrl(apiBase, url)
  {
    var once := CoverUrl(apiBase, url);
    if !(url.Some? && StartsWith(url.value, "http")) && apiBase != "" {
      assert once == apiBase + OrElse(url, "");
      assert once[..4] == apiBase[..4];
    }
  }
}

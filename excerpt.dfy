/**
  What a newsletter card shows besides its title: an excerpt (the
  description, or the content with its HTML tags removed and cut short)
  and the image source with its fallback. The home feed and the
  newsletter list page use the same rule with different lengths and
  fallbacks.
 */
module Excerpts {
  import opened Wrappers
  import opened JsStrings

  /** The first index of `c` in `s`. */
  function IndexOf(s: string, c: char): (r: Option<nat>)
    ensures r.Some? <==> c in s
    ensures r.Some? ==> r.value < |s| && s[r.value] == c && c !in s[..r.value]
  {
    if s == [] then None
    else if s[0] == c then Some(0)
    else match IndexOf(s[1..], c)
      case None => None
      case Some(k) => assert s[..k + 1] == [s[0]] + s[1..][..k]; Some(k + 1)
  }

  /**
    `/<[^>]+>/` matches at index `i`: a "<", then at least one character
    other than ">", up to a ">". The class excludes ">", so the match ends
    at the first ">" after the "<", and there is one exactly when the very
    next character is not ">" and a ">" comes later.
   */
  predicate TagAt(s: string, i: int) {
    0 <= i && i + 1 < |s| && s[i] == '<' && s[i + 1] != '>' && '>' in s[i + 2..]
  }

  /** No match of the tag pattern anywhere. */
  predicate NoTag(s: string) {
    forall i :: 0 <= i < |s| ==> !TagAt(s, i)
  }

  /**
    `s.replace(/<[^>]+>/g, '')`: scanning from the left, a match is
    dropped and the scan resumes after it; anything else is kept.
   */
  function StripTags(s: string): (r: string)
    ensures |r| <= |s|
    ensures forall i :: 0 <= i < |r| ==> r[i] in s
    decreases |s|
  {
    if s == [] then []
    else if TagAt(s, 0) then
      var k := IndexOf(s[2..], '>').value + 2;
      StripTags(s[k + 1..])
    else [s[0]] + StripTags(s[1..])
  }

  /** A ">" in a string occurs in any string it came from by dropping characters. */
  lemma NoCloseInDerived(r: string, s: string)
    requires forall i :: 0 <= i < |r| ==> r[i] in s
    requires '>' !in s
    ensures '>' !in r
  {
  }

  /** The global replace leaves no match behind: the stripped text holds no tag. */
  lemma {:induction false} StripTagsLeavesNoTag(s: string)
    ensures NoTag(StripTags(s))
    decreases |s|
  {
    if s == [] {
    } else if TagAt(s, 0) {
      var k := IndexOf(s[2..], '>').value + 2;
      StripTagsLeavesNoTag(s[k + 1..]);
    } else {
      var rest := StripTags(s[1..]);
      var r := [s[0]] + rest;
      StripTagsLeavesNoTag(s[1..]);
      forall i | 0 <= i < |r| ensures !TagAt(r, i) {
        if i == 0 {
          if s[0] == '<' && |rest| > 0 {
            if |s| >= 2 && s[1] == '>' {
              assert !TagAt(s[1..], 0);
              assert rest == [s[1]] + StripTags(s[2..]);
              assert r[1] == '>';
            } else {
              assert '>' !in s[1..] by {
                if |s| >= 2 {
                  assert s[1..] == [s[1]] + s[2..];
                }
              }
              NoCloseInDerived(rest, s[1..]);
              assert r[2..] == rest[1..];
            }
          }
        } else {
          assert !TagAt(rest, i - 1);
          assert r[i + 1..] == rest[i..] by {
            if i + 1 <= |r| {
              assert r[i + 1..] == rest[i..];
            }
          }
        }
      }
    }
  }

  /** Text without a "<" is left as it is. */
  lemma {:induction false} StripTagsPlainText(s: string)
    requires '<' !in s
    ensures StripTags(s) == s
    decreases |s|
  {
    if s != [] {
      StripTagsPlainText(s[1..]);
      assert s == [s[0]] + s[1..];
    }
  }

  /** A prefix of text without tags has none either. */
  lemma NoTagPrefix(s: string, n: int)
    requires NoTag(s) && 0 <= n <= |s|
    ensures NoTag(s[..n])
  {
    forall i | 0 <= i < n ensures !TagAt(s[..n], i) {
      assert !TagAt(s, i);
      if i + 2 <= n {
        assert s[i + 2..] == s[..n][i + 2..] + s[n..];
      }
    }
  }

  /**
    `description || (typeof content === 'string' ? `${stripped.slice(0, limit)}...` : fallback)`.
    A content that is absent or not a string is `None`.
   */
  function Excerpt(description: Option<string>, content: Option<string>, limit: nat, fallback: string): string {
    if Truthy(description) then description.value
    else if content.Some? then JsSlice(StripTags(content.value), 0, limit) + "..."
    else fallback
  }

  /**
    The excerpt is the description when there is one; otherwise, for string
    content, at most `limit` leading characters of the content with its
    tags removed, followed by "...", and holding no tag; otherwise the
    fallback.
   */
  lemma ExcerptShape(description: Option<string>, content: Option<string>, limit: nat, fallback: string)
    ensures var e := Excerpt(description, content, limit, fallback);
      && (Truthy(description) ==> e == description.value)
      && (!Truthy(description) && content.None? ==> e == fallback)
      && (!Truthy(description) && content.Some? ==>
            exists p :: e == p + "..." && |p| <= limit && NoTag(p)
                     && p == StripTags(content.value)[..|p|]
                     && (|p| < limit ==> p == StripTags(content.value)))
  {
    if !Truthy(description) && content.Some? {
      var t := StripTags(content.value);
      var p := JsSlice(t, 0, limit);
      StripTagsLeavesNoTag(content.value);
      assert p == t[..|p|];
      NoTagPrefix(t, |p|);
      assert Excerpt(description, content, limit, fallback) == p + "...";
    }
  }

  /** The home feed card (the 120-character rule). */
  function FeedExcerpt(description: Option<string>, content: Option<string>): (e: string)
    ensures Truthy(description) ==> e == description.value
    ensures !Truthy(description) && content.None? ==> e == "No description available"
  {
    Excerpt(description, content, 120, "No description available")
  }

  /** The newsletter list card (the 160-character rule). */
  function ListExcerpt(description: Option<string>, content: Option<string>): (e: string)
    ensures Truthy(description) ==> e == description.value
    ensures !Truthy(description) && content.None? ==> e == ""
  {
    Excerpt(description, content, 160, "")
  }

  /** One complete match of the tag pattern: "<", at least one character other than ">", then ">". */
  predicate IsTag(tag: string) {
    |tag| >= 3 && tag[0] == '<' && tag[|tag| - 1] == '>' && '>' !in tag[..|tag| - 1]
  }

  /** A complete tag in front is dropped as one match, and the pass goes on after it. */
  lemma StripLeadingTag(tag: string, rest: string)
    requires IsTag(tag)
    ensures StripTags(tag + rest) == StripTags(rest)
  {
    var s := tag + rest;
    var n := |tag|;
    assert tag[1] in tag[..n - 1];
    assert s[2..][n - 3] == '>';
    assert TagAt(s, 0);
    assert s[2..][..n - 3] == tag[2..n - 1];
    assert '>' !in s[2..][..n - 3];
    assert IndexOf(s[2..], '>') == Some(n - 3);
    assert s[n..] == rest;
  }

  /** Markup written as a sequence of pieces, one after another. */
  function Concat(pieces: seq<string>): (s: string)
    ensures pieces != [] ==> s == pieces[0] + Concat(pieces[1..])
  {
    if pieces == [] then [] else pieces[0] + Concat(pieces[1..])
  }

  /** Markup made only of tags leaves nothing once they are removed. */
  lemma {:induction false} StripTagsOnlyTags(tags: seq<string>)
    requires forall i :: 0 <= i < |tags| ==> IsTag(tags[i])
    ensures StripTags(Concat(tags)) == []
    decreases |tags|
  {
    if tags != [] {
      StripLeadingTag(tags[0], Concat(tags[1..]));
      StripTagsOnlyTags(tags[1..]);
    }
  }

  /**
    A card whose content is only markup (such as "<p></p>", where `<p>` and
    `</p>` are both removed) and which has no description has the excerpt
    "..." on both pages.
   */
  lemma MarkupOnlyContent(description: Option<string>, tags: seq<string>)
    requires !Truthy(description)
    requires forall i :: 0 <= i < |tags| ==> IsTag(tags[i])
    ensures ListExcerpt(description, Some(Concat(tags))) == "..."
    ensures FeedExcerpt(description, Some(Concat(tags))) == "..."
  {
    var c := Concat(tags);
    StripTagsOnlyTags(tags);
    EmptySliceIsEmpty(StripTags(c), 160);
    EmptySliceIsEmpty(StripTags(c), 120);
  }

  lemma EmptySliceIsEmpty(s: string, limit: nat)
    requires s == []
    ensures JsSlice(s, 0, limit) + "..." == "..."
  {
  }

  /** The placeholder image. */
  const Placeholder := "/next.svg"

  /** The home feed card: `imageUrl || '/next.svg'`. */
  function FeedImageSrc(imageUrl: Option<string>): (src: string)
    ensures src != ""
    ensures Truthy(imageUrl) ==> src == imageUrl.value
    ensures !Truthy(imageUrl) ==> src == Placeholder
  {
    OrElse(imageUrl, Placeholder)
  }

  /** The list card: the image URL only when it is an absolute "http" URL, otherwise the placeholder. */
  function ListImageSrc(imageUrl: Option<string>): (src: string)
    ensures StartsWith(src, "http") || src == Placeholder
    ensures src == (if imageUrl.Some? && StartsWith(imageUrl.value, "http") then imageUrl.value else Placeholder)
  {
    if Truthy(imageUrl) && StartsWith(imageUrl.value, "http") then imageUrl.value else Placeholder
  }

  /** The list card is stricter than the feed card: whenever it shows the URL, so does the feed. */
  lemma ListImageStricter(imageUrl: Option<string>)
    ensures ListImageSrc(imageUrl) != Placeholder ==> FeedImageSrc(imageUrl) == ListImageSrc(imageUrl)
  {
  }
}

/**
 * How `loadBlogPosts` (scripts.js) turns the fetched list of posts into the
 * cards of the full blog page and of the three-card homepage preview: which
 * link each card gets, whether it opens in a new tab, which posts are shown
 * and how the preview shortens a summary. The HTML markup, the date
 * formatting and the fetch itself are outside the model.
 */
module Blog {
  import opened Wrappers

  /** An entry of `data/blog-posts.json`; `filePath` may be absent. */
  datatype Post = Post(title: string, date: string, summary: string, filePath: Option<string>)

  const FullPageFallback: string := "#"
  const PreviewFallback: string := "blog.html"
  const RelativePrefix: string := "../"
  const ExternalScheme: string := "http"
  const PreviewCount: nat := 3
  const ExcerptLength: nat := 100
  const Ellipsis: string := "..."

  const NoPostsMessage: string := "No posts yet. Stay tuned!"
  const NoRecentPostsMessage: string := "No recent posts."
  const PostsErrorMessage: string := "Error loading posts. Please try again later."
  const PreviewErrorMessage: string := "Could not load blog previews."

  predicate StartsWith(s: string, prefix: string)
  {
    |prefix| <= |s| && s[..|prefix|] == prefix
  }

  /** JavaScript truthiness of `post.filePath`: present and not the empty string. */
  predicate HasPath(p: Post)
  {
    p.filePath.Some? && p.filePath.value != ""
  }

  /** The post points at an absolute URL; exactly these links get `target="_blank"`. */
  predicate IsExternal(p: Post)
  {
    HasPath(p) && StartsWith(p.filePath.value, ExternalScheme)
  }

  /** The card's link: an absolute URL as it is, a relative path one directory up, no path the fallback. */
  function Link(p: Post, fallback: string): string
  {
    if HasPath(p) then
      if StartsWith(p.filePath.value, ExternalScheme) then p.filePath.value else RelativePrefix + p.filePath.value
    else
      fallback
  }

  /**
   * The three link rules, with the fallback recognisable: a fallback that is
   * neither an absolute URL nor a relative link (both "#" and "blog.html")
   * is produced by exactly the posts without a path.
   */
  lemma LinkCases(p: Post, fallback: string)
    requires !StartsWith(fallback, ExternalScheme) && !StartsWith(fallback, RelativePrefix)
    ensures IsExternal(p) ==> Link(p, fallback) == p.filePath.value
    ensures HasPath(p) && !IsExternal(p) ==> Link(p, fallback) == RelativePrefix + p.filePath.value
    ensures Link(p, fallback) == fallback <==> !HasPath(p)
  {
    if HasPath(p) {
      var path := p.filePath.value;
      if StartsWith(path, ExternalScheme) {
        assert Link(p, fallback)[..|ExternalScheme|] == ExternalScheme;
      } else {
        assert Link(p, fallback)[..|RelativePrefix|] == RelativePrefix;
      }
    }
  }

  lemma FallbacksAreRecognisable()
    ensures !StartsWith(FullPageFallback, ExternalScheme) && !StartsWith(FullPageFallback, RelativePrefix)
    ensures !StartsWith(PreviewFallback, ExternalScheme) && !StartsWith(PreviewFallback, RelativePrefix)
  {
    assert PreviewFallback[0] != ExternalScheme[0] && PreviewFallback[0] != RelativePrefix[0];
  }

  lemma RelativeIsNotExternal(path: string)
    ensures !StartsWith(RelativePrefix + path, ExternalScheme)
  {
    assert (RelativePrefix + path)[0] != ExternalScheme[0];
  }

  /** Two posts with paths get the same link only when their paths are equal. */
  lemma LinkInjective(p: Post, q: Post, fallback: string)
    requires HasPath(p) && HasPath(q)
    requires Link(p, fallback) == Link(q, fallback)
    ensures p.filePath == q.filePath
  {
    var a, b := p.filePath.value, q.filePath.value;
    if IsExternal(p) != IsExternal(q) {
      RelativeIsNotExternal(if IsExternal(p) then b else a);
    } else if !IsExternal(p) {
      assert a == (RelativePrefix + a)[|RelativePrefix|..];
      assert b == (RelativePrefix + b)[|RelativePrefix|..];
    }
  }

  /** The full page and the preview link a post with a path identically; they differ only in the fallback. */
  lemma PagesAgreeOnPaths(p: Post)
    ensures HasPath(p) <==> Link(p, FullPageFallback) == Link(p, PreviewFallback)
  {
    FallbacksAreRecognisable();
    LinkCases(p, FullPageFallback);
    LinkCases(p, PreviewFallback);
  }

  /** The preview's summary: its first 100 characters, then "...". */
  function Excerpt(summary: string): (r: string)
    ensures |r| == (if |summary| < ExcerptLength then |summary| else ExcerptLength) + |Ellipsis|
    ensures StartsWith(summary, r[..|r| - |Ellipsis|])
    ensures r[|r| - |Ellipsis|..] == Ellipsis
    ensures |summary| <= ExcerptLength ==> r == summary + Ellipsis
  {
    var cut := if |summary| < ExcerptLength then |summary| else ExcerptLength;
    var r := summary[..cut] + Ellipsis;
    assert r[..|r| - |Ellipsis|] == summary[..cut];
    r
  }

  /** The posts the preview shows: `posts.slice(0, 3)`. */
  function PreviewPosts(posts: seq<Post>): (r: seq<Post>)
    ensures |r| == if |posts| < PreviewCount then |posts| else PreviewCount
    ensures forall i :: 0 <= i < |r| ==> r[i] == posts[i]
  {
    posts[..if |posts| < PreviewCount then |posts| else PreviewCount]
  }

  /** What one `blog-post-summary` article of the full page shows. */
  datatype FullCard = FullCard(
    title: string,
    date: string,
    summary: string,
    link: string,
    newTab: bool,
    /** the title link carries `onclick="return false;"` */
    titleDisabled: bool,
    /** the "Read More" button is present */
    readMore: bool)

  /** What one `blog-card` article of the preview shows. */
  datatype PreviewCard = PreviewCard(title: string, excerpt: string, link: string, newTab: bool, buttonText: string)

  /** What a container ends up holding: a one-line message or the cards in order. */
  datatype View<C> = Message(text: string) | Cards(cards: seq<C>)

  function FullCardOf(p: Post): (c: FullCard)
    ensures c.readMore == HasPath(p) && c.titleDisabled == !HasPath(p)
    ensures c.newTab == IsExternal(p)
    ensures c.link == Link(p, FullPageFallback)
    ensures c.summary == p.summary
  {
    FullCard(p.title, p.date, p.summary, Link(p, FullPageFallback), IsExternal(p), !HasPath(p), HasPath(p))
  }

  function PreviewCardOf(p: Post): (c: PreviewCard)
    ensures c.link == Link(p, PreviewFallback) && c.newTab == IsExternal(p)
    ensures c.excerpt == Excerpt(p.summary)
    ensures HasPath(p) ==> c.buttonText == "Read More →"
    ensures !HasPath(p) ==> c.buttonText == "View Post →"
  {
    PreviewCard(p.title, Excerpt(p.summary), Link(p, PreviewFallback), IsExternal(p),
                if HasPath(p) then "Read More →" else "View Post →")
  }

  /** The full page's view of `posts`: the empty-list message, or one card per post, in order. */
  predicate IsFullView(posts: seq<Post>, v: View<FullCard>)
  {
    if posts == [] then v == Message(NoPostsMessage)
    else v.Cards? && |v.cards| == |posts| && forall i :: 0 <= i < |posts| ==> v.cards[i] == FullCardOf(posts[i])
  }

  /** The preview's view of `posts`: the empty-list message, or cards for the first three posts, in order. */
  predicate IsPreviewView(posts: seq<Post>, v: View<PreviewCard>)
  {
    if posts == [] then v == Message(NoRecentPostsMessage)
    else
      && v.Cards? && |v.cards| == (if |posts| < PreviewCount then |posts| else PreviewCount)
      && forall i :: 0 <= i < |v.cards| ==> v.cards[i] == PreviewCardOf(posts[i])
  }

  /** The full blog page: a message for no posts, else one card per post, appended in order. */
  method RenderFullPage(posts: seq<Post>) returns (v: View<FullCard>)
    ensures IsFullView(posts, v)
  {
    if |posts| == 0 {
      return Message(NoPostsMessage);
    }
    var cards: seq<FullCard> := [];
    var i := 0;
    while i < |posts|
      invariant 0 <= i <= |posts|
      invariant |cards| == i
      invariant forall j :: 0 <= j < i ==> cards[j] == FullCardOf(posts[j])
    {
      cards := cards + [FullCardOf(posts[i])];
      i := i + 1;
    }
    v := Cards(cards);
  }

  /** The homepage preview: a message for no posts, else cards for the first three posts in order. */
  method RenderPreview(posts: seq<Post>) returns (v: View<PreviewCard>)
    ensures IsPreviewView(posts, v)
  {
    var shown := PreviewPosts(posts);
    if |shown| == 0 {
      return Message(NoRecentPostsMessage);
    }
    var cards: seq<PreviewCard> := [];
    var i := 0;
    while i < |shown|
      invariant 0 <= i <= |shown|
      invariant |cards| == i
      invariant forall j :: 0 <= j < i ==> cards[j] == PreviewCardOf(shown[j])
    {
      cards := cards + [PreviewCardOf(shown[i])];
      i := i + 1;
    }
    v := Cards(cards);
  }

  /**
   * The whole of `loadBlogPosts`. `fetched` is the parsed JSON, or None when
   * the request or the parse failed; `hasFull` and `hasPreview` say which
   * containers the page has. A result of None means that container is left
   * as it was. An empty list returns early after filling the full page, so
   * then the preview is not touched.
   */
  method LoadBlogPosts(fetched: Option<seq<Post>>, hasFull: bool, hasPreview: bool)
    returns (full: Option<View<FullCard>>, preview: Option<View<PreviewCard>>)
    ensures !hasFull ==> full == None
    ensures !hasPreview ==> preview == None
    ensures hasFull && fetched == None ==> full == Some(Message(PostsErrorMessage))
    ensures hasPreview && fetched == None ==> preview == Some(Message(PreviewErrorMessage))
    ensures hasFull && fetched.Some? ==> full.Some? && IsFullView(fetched.value, full.value)
    ensures hasFull && fetched == Some([]) ==> preview == None
    ensures hasPreview && fetched.Some? && !(hasFull && fetched.value == []) ==>
      preview.Some? && IsPreviewView(fetched.value, preview.value)
  {
    full, preview := None, None;
    if !hasFull && !hasPreview {
      return;
    }
    if fetched.None? {
      if hasFull {
        full := Some(Message(PostsErrorMessage));
      }
      if hasPreview {
        preview := Some(Message(PreviewErrorMessage));
      }
      return;
    }
    var posts := fetched.value;
    if hasFull {
      var v := RenderFullPage(posts);
      full := Some(v);
      if |posts| == 0 {
        return;
      }
    }
    if hasPreview {
      var v := RenderPreview(posts);
      preview := Some(v);
    }
  }
}

/** The Reddit fetch handler of backend/server.js (`POST /api/reddit/fetch`):
    for each requested subreddit it fetches a listing and turns every post
    into zero or more media descriptors. A post is dropped when it is NSFW
    and the filter is "block", or when its score is below the minimum;
    otherwise a direct image URL gives one descriptor, an imgur page gives
    one descriptor with a rewritten URL, and a gallery gives one descriptor
    per media entry that has a source URL.

    The network is a parameter: `fetch` maps a listing URL to the posts it
    returns or to the message of the error it raised. */
module RedditFeed {
  import opened Descriptors
  import opened Text

  /** One entry of a post's `media_metadata`; `sourceUrl` is `s.u`, or ""
      when the entry has no `s` or no `s.u`. */
  datatype GalleryItem = GalleryItem(id: string, sourceUrl: string)

  /** The fields of a post (`post.data`) the handler reads. A URL of ""
      stands for a missing one. `mediaMetadata` lists the entries in the
      order `Object.entries` yields them, or is None when absent. */
  datatype Post = Post(
    over18: bool,
    score: int,
    url: string,
    title: string,
    author: string,
    permalink: string,
    isGallery: bool,
    mediaMetadata: Option<seq<GalleryItem>>)

  /** A descriptor the handler returns. */
  datatype RedditImage = RedditImage(
    url: string,
    title: string,
    subreddit: string,
    score: int,
    nsfw: bool,
    author: string,
    permalink: string)

  /** What fetching one listing gives: its posts, or a failure (a non-OK
      HTTP status or a network error) with its message. */
  datatype Listing = Listing(posts: seq<Post>) | FetchFailed(message: string)

  datatype FetchError = FetchError(subreddit: string, error: string)

  /** The request options, with the handler's defaults already applied
      (sort "hot", period "week", 50 posts, filter "block", minimum 0). */
  datatype Query = Query(
    sort: string,
    topPeriod: string,
    postsPerSub: int,
    nsfwFilter: string,
    minScore: int)

  datatype FetchResponse =
    | Fetched(images: seq<RedditImage>, errors: seq<FetchError>, count: nat)
    | BadRequest(error: string)

  /** The listing URL requested for a subreddit. */
  function ListingUrl(sub: string, q: Query): string
  {
    var sortPath :=
      if q.sort == "top" then "top.json?t=" + q.topPeriod + "&limit=" + IntText(q.postsPerSub)
      else q.sort + ".json?limit=" + IntText(q.postsPerSub);
    "https://www.reddit.com/r/" + sub + "/" + sortPath
  }

  /** The listing URL is the subreddit's path under
      `https://www.reddit.com/r/`, and it ends with a `limit` parameter whose
      value reads back as the requested number of posts. */
  lemma ListingUrlShape(sub: string, q: Query)
    ensures var r := ListingUrl(sub, q); var prefix := "https://www.reddit.com/r/";
      |prefix| + |sub| < |r| && r[..|prefix|] == prefix && r[|prefix|..|prefix| + |sub|] == sub &&
      r[|prefix| + |sub|] == '/'
    ensures var r := ListingUrl(sub, q); var t := IntText(q.postsPerSub);
      |t| + 7 <= |r| && (r[|r| - |t| - 7..|r| - |t|] == "&limit=" || r[|r| - |t| - 7..|r| - |t|] == "?limit=")
    ensures var r := ListingUrl(sub, q); var t := IntText(q.postsPerSub);
      |t| <= |r| && ParseInt(r[|r| - |t|..]) == q.postsPerSub
  {
    IntTextRoundTrip(q.postsPerSub);
    var head := if q.sort == "top" then "top.json?t=" + q.topPeriod else q.sort + ".json";
    var limit := if q.sort == "top" then "&limit=" else "?limit=";
    assert ListingUrl(sub, q) == "https://www.reddit.com/r/" + sub + "/" + head + limit + IntText(q.postsPerSub);
    UrlParts("https://www.reddit.com/r/", sub, head, limit, IntText(q.postsPerSub));
  }

  /** The parts of a URL built as prefix, path segment, `/`, rest, query
      key and value can be read back from it. */
  lemma UrlParts(prefix: string, sub: string, head: string, limit: string, t: string)
    ensures var r := prefix + sub + "/" + head + limit + t;
      |prefix| + |sub| < |r| && r[..|prefix|] == prefix && r[|prefix|..|prefix| + |sub|] == sub &&
      r[|prefix| + |sub|] == '/' &&
      |t| + |limit| <= |r| && r[|r| - |t|..] == t && r[|r| - |t| - |limit|..|r| - |t|] == limit
  {
    var r := prefix + sub + "/" + head + limit + t;
    assert r == prefix + (sub + "/" + head + limit + t);
    assert r == (prefix + sub + "/" + head) + limit + t;
  }

  /** `/\.(jpg|jpeg|png|gif|webp)$/i`: the URL ends with one of the five
      extensions, in any letter case. */
  predicate IsDirectImageUrl(u: string)
  {
    var l := Lower(u);
    EndsWith(l, ".jpg") || EndsWith(l, ".jpeg") || EndsWith(l, ".png") ||
    EndsWith(l, ".gif") || EndsWith(l, ".webp")
  }

  /** An imgur link that is not an album or a gallery. */
  predicate IsImgurPage(u: string)
  {
    Contains(u, "imgur.com") && !Contains(u, "/a/") && !Contains(u, "/gallery/")
  }

  /** An imgur page is a link where `imgur.com` occurs somewhere, and
      neither `/a/` nor `/gallery/` occurs anywhere. */
  lemma ImgurPageMeans(u: string)
    ensures IsImgurPage(u) <==>
      (exists k: nat :: MatchAt(u, "imgur.com", k)) &&
      (forall k: nat :: !MatchAt(u, "/a/", k)) &&
      (forall k: nat :: !MatchAt(u, "/gallery/", k))
  {
    ContainsIff(u, "imgur.com");
    ContainsIff(u, "/a/");
    ContainsIff(u, "/gallery/");
  }

  /** The first `imgur.com` becomes `i.imgur.com`, and `.jpg` is appended,
      so the result always passes the image-extension test. */
  function ImgurDirectUrl(u: string): (r: string)
    ensures var k := IndexOf(u, "imgur.com");
      k != -1 ==> 0 <= k && k + 9 <= |u| && r == u[..k] + "i.imgur.com" + u[k + 9..] + ".jpg"
    ensures IndexOf(u, "imgur.com") == -1 ==> r == u + ".jpg"
    ensures IsDirectImageUrl(r)
  {
    var w := ReplaceFirst(u, "imgur.com", "i.imgur.com");
    ExtensionSuffixIsDirect(w, ".jpg");
    w + ".jpg"
  }

  function Describe(sub: string, p: Post, url: string): RedditImage
  {
    RedditImage(url, p.title, sub, p.score, p.over18, p.author, "https://reddit.com" + p.permalink)
  }

  /** The post is kept by the NSFW filter and the score filter. */
  predicate PassesFilters(p: Post, q: Query)
  {
    !(p.over18 && q.nsfwFilter == "block") && !(p.score < q.minScore)
  }

  /** The descriptors of the first gallery entries, in order. */
  function GalleryImages(sub: string, p: Post, items: seq<GalleryItem>): seq<RedditImage>
  {
    if items == [] then []
    else
      var last := items[|items| - 1];
      GalleryImages(sub, p, items[..|items| - 1]) +
      (if last.sourceUrl != "" then [Describe(sub, p, ReplaceAll(last.sourceUrl, "&amp;", "&"))] else [])
  }

  /** The descriptors one post yields; the three URL forms are tried in
      this order and the first that applies wins. Only a post that passes
      both filters yields any, every descriptor carries the post's
      subreddit, title, score, NSFW flag, author and permalink, and only a
      gallery yields more than one. */
  function PostImages(sub: string, p: Post, q: Query): (r: seq<RedditImage>)
    ensures r != [] ==> PassesFilters(p, q)
    ensures forall x :: x in r ==>
      x.subreddit == sub && x.title == p.title && x.score == p.score && x.nsfw == p.over18 &&
      x.author == p.author && x.permalink == "https://reddit.com" + p.permalink
    ensures |r| > 1 ==> p.isGallery && p.mediaMetadata.Some?
  {
    GalleryOfPost(sub, p, if p.mediaMetadata.Some? then p.mediaMetadata.value else []);
    if p.over18 && q.nsfwFilter == "block" then []
    else if p.score < q.minScore then []
    else if p.url != "" && IsDirectImageUrl(p.url) then [Describe(sub, p, p.url)]
    else if p.url != "" && IsImgurPage(p.url) then [Describe(sub, p, ImgurDirectUrl(p.url))]
    else if p.isGallery && p.mediaMetadata.Some? then GalleryImages(sub, p, p.mediaMetadata.value)
    else []
  }

  /** The descriptors of a run of posts, in order. */
  function SubImages(sub: string, posts: seq<Post>, q: Query): seq<RedditImage>
  {
    if posts == [] then []
    else SubImages(sub, posts[..|posts| - 1], q) + PostImages(sub, posts[|posts| - 1], q)
  }

  function ListingImages(sub: string, l: Listing, q: Query): seq<RedditImage>
  {
    if l.FetchFailed? then [] else SubImages(sub, l.posts, q)
  }

  /** The parts of a run of values, concatenated in order (`flatMap`). */
  function ConcatMap<X, Y>(xs: seq<X>, part: X -> seq<Y>): seq<Y>
  {
    if xs == [] then [] else ConcatMap(xs[..|xs| - 1], part) + part(xs[|xs| - 1])
  }

  /** Splitting the values splits the concatenation. */
  lemma {:induction false} ConcatMapSplit<X, Y>(xs: seq<X>, ys: seq<X>, part: X -> seq<Y>)
    ensures ConcatMap(xs + ys, part) == ConcatMap(xs, part) + ConcatMap(ys, part)
    decreases |ys|
  {
    if ys == [] {
      assert xs + ys == xs;
    } else {
      var init := ys[..|ys| - 1];
      assert (xs + ys)[..|xs + ys| - 1] == xs + init;
      assert (xs + ys)[|xs + ys| - 1] == ys[|ys| - 1];
      ConcatMapSplit(xs, init, part);
    }
  }

  /** What one subreddit contributes to the feed: its listing's descriptors. */
  function SubFeed(q: Query, fetch: string -> Listing): string -> seq<RedditImage>
  {
    sub => ListingImages(sub, fetch(ListingUrl(sub, q)), q)
  }

  /** What one subreddit contributes to the errors: one error when its
      listing failed. */
  function SubErrors(q: Query, fetch: string -> Listing): string -> seq<FetchError>
  {
    sub =>
      var l := fetch(ListingUrl(sub, q));
      if l.FetchFailed? then [FetchError(sub, l.message)] else []
  }

  /** The descriptors of all subreddits, subreddit after subreddit. */
  function FeedImages(subs: seq<string>, q: Query, fetch: string -> Listing): seq<RedditImage>
  {
    ConcatMap(subs, SubFeed(q, fetch))
  }

  /** One error per subreddit whose listing failed, in order. */
  function FeedErrors(subs: seq<string>, q: Query, fetch: string -> Listing): seq<FetchError>
  {
    ConcatMap(subs, SubErrors(q, fetch))
  }

  /** The handler. A missing or empty subreddit list is refused before
      anything is fetched; otherwise the subreddits are fetched in order and
      every descriptor and every error is collected. */
  method FetchImages(subreddits: Option<seq<string>>, q: Query, fetch: string -> Listing)
    returns (r: FetchResponse)
    ensures subreddits.None? || subreddits.value == [] ==> r == BadRequest("Subreddits required")
    ensures subreddits.Some? && subreddits.value != [] ==>
      var images := FeedImages(subreddits.value, q, fetch);
      r == Fetched(images, FeedErrors(subreddits.value, q, fetch), |images|)
  {
    if subreddits.None? || |subreddits.value| == 0 {
      return BadRequest("Subreddits required");
    }
    var subs := subreddits.value;
    var images: seq<RedditImage> := [];
    var errors: seq<FetchError> := [];
    for i := 0 to |subs|
      invariant images == FeedImages(subs[..i], q, fetch)
      invariant errors == FeedErrors(subs[..i], q, fetch)
    {
      assert subs[..i + 1][..i] == subs[..i] && subs[..i + 1][i] == subs[i];
      images, errors := CollectSub(subs[i], q, fetch, images, errors);
    }
    assert subs[..|subs|] == subs;
    r := Fetched(images, errors, |images|);
  }

  /** The body of the loop over the subreddits: fetches one listing and
      appends its descriptors, or its error. */
  method CollectSub(sub: string, q: Query, fetch: string -> Listing,
                    images: seq<RedditImage>, errors: seq<FetchError>)
    returns (images': seq<RedditImage>, errors': seq<FetchError>)
    ensures images' == images + SubFeed(q, fetch)(sub)
    ensures errors' == errors + SubErrors(q, fetch)(sub)
  {
    images', errors' := images, errors;
    var listing := fetch(ListingUrl(sub, q));
    match listing {
      case FetchFailed(message) =>
        errors' := errors' + [FetchError(sub, message)];
      case Listing(posts) =>
        var subImages := 0;
        for j := 0 to |posts|
          invariant images' == images + SubImages(sub, posts[..j], q)
          invariant subImages == |SubImages(sub, posts[..j], q)|
        {
          assert posts[..j + 1][..j] == posts[..j];
          ghost var done := SubImages(sub, posts[..j], q);
          images', subImages := CollectPost(sub, posts[j], q, images', subImages);
          AppendAssoc(images, done, PostImages(sub, posts[j], q));
        }
        assert posts[..|posts|] == posts;
    }
  }

  /** The body of the loop over one listing's posts: appends the post's
      descriptors and counts them. */
  method CollectPost(sub: string, p: Post, q: Query, images: seq<RedditImage>, subImages: nat)
    returns (images': seq<RedditImage>, subImages': nat)
    ensures images' == images + PostImages(sub, p, q)
    ensures subImages' == subImages + |PostImages(sub, p, q)|
  {
    images', subImages' := images, subImages;
    if p.over18 && q.nsfwFilter == "block" {
      return;
    }
    if p.score < q.minScore {
      return;
    }
    var imgUrl := p.url;
    if imgUrl != "" && IsDirectImageUrl(imgUrl) {
      images' := images' + [Describe(sub, p, imgUrl)];
      subImages' := subImages' + 1;
    } else if imgUrl != "" && IsImgurPage(imgUrl) {
      var imgurUrl := ImgurDirectUrl(imgUrl);
      images' := images' + [Describe(sub, p, imgurUrl)];
      subImages' := subImages' + 1;
    } else if p.isGallery && p.mediaMetadata.Some? {
      images', subImages' := CollectGallery(sub, p, p.mediaMetadata.value, images', subImages');
    }
  }

  /** The loop over a gallery's `media_metadata` entries: appends one
      descriptor per entry with a source URL, and counts them. */
  method CollectGallery(sub: string, p: Post, items: seq<GalleryItem>, images: seq<RedditImage>, subImages: nat)
    returns (images': seq<RedditImage>, subImages': nat)
    ensures images' == images + GalleryImages(sub, p, items)
    ensures subImages' == subImages + |GalleryImages(sub, p, items)|
  {
    images', subImages' := images, subImages;
    for k := 0 to |items|
      invariant images' == images + GalleryImages(sub, p, items[..k])
      invariant subImages' == subImages + |GalleryImages(sub, p, items[..k])|
    {
      assert items[..k + 1][..k] == items[..k];
      var media := items[k];
      if media.sourceUrl != "" {
        images' := images' + [Describe(sub, p, ReplaceAll(media.sourceUrl, "&amp;", "&"))];
        subImages' := subImages' + 1;
      }
    }
    assert items[..|items|] == items;
  }

  lemma AppendAssoc<T>(a: seq<T>, b: seq<T>, c: seq<T>)
    ensures (a + b) + c == a + (b + c)
  {
  }

  // ---------------------------------------------------------------------
  // Properties of the filter

  /** An NSFW post is dropped when the filter is "block". */
  lemma NsfwBlocked(sub: string, p: Post, q: Query)
    requires p.over18 && q.nsfwFilter == "block"
    ensures PostImages(sub, p, q) == []
  {
  }

  /** With any other filter value, being NSFW changes nothing but the
      descriptors' `nsfw` flag: the post yields descriptors with the same
      URLs as the same post marked safe. */
  lemma {:induction false} NsfwOnlyFlagsWhenNotBlocked(sub: string, p: Post, q: Query)
    requires q.nsfwFilter != "block"
    ensures var a := PostImages(sub, p, q);
      var b := PostImages(sub, p.(over18 := false), q);
      |a| == |b| &&
      forall k :: 0 <= k < |a| ==> a[k] == b[k].(nsfw := p.over18)
  {
    var s := p.(over18 := false);
    if !(p.score < q.minScore) && !(p.url != "" && IsDirectImageUrl(p.url)) &&
       !(p.url != "" && IsImgurPage(p.url)) && p.isGallery && p.mediaMetadata.Some? {
      GalleryNsfwFlag(sub, p, p.mediaMetadata.value);
    }
  }

  lemma {:induction false} GalleryNsfwFlag(sub: string, p: Post, items: seq<GalleryItem>)
    ensures var a := GalleryImages(sub, p, items);
      var b := GalleryImages(sub, p.(over18 := false), items);
      |a| == |b| &&
      forall k :: 0 <= k < |a| ==> a[k] == b[k].(nsfw := p.over18)
  {
    if items != [] {
      GalleryNsfwFlag(sub, p, items[..|items| - 1]);
    }
  }

  /** A post scoring below the minimum is dropped. */
  lemma ScoreFiltered(sub: string, p: Post, q: Query)
    requires p.score < q.minScore
    ensures PostImages(sub, p, q) == []
  {
  }

  /** A kept post with a direct image URL yields exactly one descriptor,
      with the URL unchanged, whatever gallery data it carries. */
  lemma DirectImageKept(sub: string, p: Post, q: Query)
    requires PassesFilters(p, q) && p.url != "" && IsDirectImageUrl(p.url)
    ensures PostImages(sub, p, q) == [Describe(sub, p, p.url)]
  {
  }

  /** The extension test ignores letter case. */
  lemma DirectImageIgnoresCase(u: string)
    ensures IsDirectImageUrl(Lower(u)) == IsDirectImageUrl(u)
  {
    LowerIdempotent(u);
  }

  /** A kept imgur page (not a direct image) yields exactly one descriptor,
      whose URL has `i.imgur.com` where the page URL first had `imgur.com`
      and ends with `.jpg`, so it counts as a direct image URL itself. */
  lemma ImgurPageRewritten(sub: string, p: Post, q: Query)
    requires PassesFilters(p, q) && p.url != "" && !IsDirectImageUrl(p.url) && IsImgurPage(p.url)
    ensures var k := IndexOf(p.url, "imgur.com");
      0 <= k &&
      PostImages(sub, p, q) ==
        [Describe(sub, p, p.url[..k] + "i.imgur.com" + p.url[k + 9..] + ".jpg")]
    ensures IsDirectImageUrl(ImgurDirectUrl(p.url))
  {
    assert PostImages(sub, p, q) == [Describe(sub, p, ImgurDirectUrl(p.url))];
  }

  /** Appending any of the five extensions gives a direct image URL. */
  lemma ExtensionSuffixIsDirect(w: string, e: string)
    requires e == ".jpg" || e == ".jpeg" || e == ".png" || e == ".gif" || e == ".webp"
    ensures IsDirectImageUrl(w + e)
  {
    LowerKeepsLowercase(e);
    LowerEndsWith(w, e);
  }

  /** Lower-casing keeps a suffix that is already lower case. */
  lemma LowerEndsWith(w: string, e: string)
    requires Lower(e) == e
    ensures EndsWith(Lower(w + e), e)
  {
    var v := w + e;
    assert v[|w|..] == e;
    LowerSuffix(v, |w|);
  }

  /** A string with no upper-case letter is its own lower-case form. */
  lemma LowerKeepsLowercase(e: string)
    requires e == ".jpg" || e == ".jpeg" || e == ".png" || e == ".gif" || e == ".webp"
    ensures Lower(e) == e
  {
    assert forall i :: 0 <= i < |e| ==> !('A' <= e[i] <= 'Z');
  }

  /** The URLs the extension test accepts: whatever precedes them, the
      five extensions pass; a URL whose last character is not a `g`, `f`
      or `p` in either case does not. */
  lemma DirectImageEndings(w: string, u: string)
    ensures IsDirectImageUrl(w + ".jpg") && IsDirectImageUrl(w + ".jpeg") && IsDirectImageUrl(w + ".png") &&
      IsDirectImageUrl(w + ".gif") && IsDirectImageUrl(w + ".webp")
    ensures u == [] || LowerChar(u[|u| - 1]) !in "gfp" ==> !IsDirectImageUrl(u)
  {
    ExtensionSuffixIsDirect(w, ".jpg");
    ExtensionSuffixIsDirect(w, ".jpeg");
    ExtensionSuffixIsDirect(w, ".png");
    ExtensionSuffixIsDirect(w, ".gif");
    ExtensionSuffixIsDirect(w, ".webp");
    if IsDirectImageUrl(u) {
      var l := Lower(u);
      assert l[|l| - 1] == LowerChar(u[|u| - 1]);
      assert l[|l| - 1] in "gfp" by {
        if EndsWith(l, ".jpg") { assert l[|l| - 4..][3] == 'g'; }
        else if EndsWith(l, ".jpeg") { assert l[|l| - 5..][4] == 'g'; }
        else if EndsWith(l, ".png") { assert l[|l| - 4..][3] == 'g'; }
        else if EndsWith(l, ".gif") { assert l[|l| - 4..][3] == 'f'; }
        else { assert l[|l| - 5..][4] == 'p'; }
      }
    }
  }

  /** A kept gallery post whose URL is neither a direct image nor an imgur
      page yields one descriptor per entry with a source URL, in order, each
      URL with every `&amp;` turned back into `&`. */
  lemma {:induction false} GalleryEntriesKept(sub: string, p: Post, q: Query)
    requires PassesFilters(p, q)
    requires !(p.url != "" && IsDirectImageUrl(p.url)) && !(p.url != "" && IsImgurPage(p.url))
    requires p.isGallery && p.mediaMetadata.Some?
    ensures var items := p.mediaMetadata.value;
      var out := PostImages(sub, p, q);
      |out| == |Sources(items)| &&
      forall k :: 0 <= k < |out| ==>
        out[k] == Describe(sub, p, ReplaceAll(Sources(items)[k], "&amp;", "&"))
  {
    GalleryIsSources(sub, p, p.mediaMetadata.value);
  }

  /** The source URLs of the entries that have one, in order. */
  function Sources(items: seq<GalleryItem>): seq<string>
  {
    if items == [] then []
    else
      var last := items[|items| - 1];
      Sources(items[..|items| - 1]) + (if last.sourceUrl != "" then [last.sourceUrl] else [])
  }

  lemma {:induction false} GalleryIsSources(sub: string, p: Post, items: seq<GalleryItem>)
    ensures var out := GalleryImages(sub, p, items);
      |out| == |Sources(items)| &&
      forall k :: 0 <= k < |out| ==>
        out[k] == Describe(sub, p, ReplaceAll(Sources(items)[k], "&amp;", "&"))
  {
    if items != [] {
      GalleryIsSources(sub, p, items[..|items| - 1]);
    }
  }

  /** The feed's `&amp;` escaping of a gallery URL is undone exactly. */
  lemma GalleryUrlUnescaped(sub: string, p: Post, u: string)
    ensures Describe(sub, p, ReplaceAll(EscapeAmp(u), "&amp;", "&")).url == u
  {
    UnescapeEscapeAmp(u);
  }

  /** A post yields gallery descriptors only when neither URL form applies:
      a post whose URL is recognised yields at most one descriptor. */
  lemma AtMostOneUrlDescriptor(sub: string, p: Post, q: Query)
    requires p.url != "" && (IsDirectImageUrl(p.url) || IsImgurPage(p.url))
    ensures |PostImages(sub, p, q)| <= 1
  {
  }

  /** A post with no direct image URL, no imgur page and no gallery
      metadata (a text post, a hosted video, an imgur album) yields
      nothing, whatever the filters say. */
  lemma OtherPostsDropped(sub: string, p: Post, q: Query)
    requires !(p.url != "" && IsDirectImageUrl(p.url))
    requires !(p.url != "" && IsImgurPage(p.url))
    requires !(p.isGallery && p.mediaMetadata.Some?)
    ensures PostImages(sub, p, q) == []
  {
  }

  // ---------------------------------------------------------------------
  // Properties of the whole feed

  /** Every descriptor of the feed passed both filters and belongs to a
      requested subreddit. */
  lemma {:induction false} FeedImagesPassFilters(subs: seq<string>, q: Query, fetch: string -> Listing)
    ensures forall x :: x in FeedImages(subs, q, fetch) ==>
      x.score >= q.minScore && (q.nsfwFilter == "block" ==> !x.nsfw) && x.subreddit in subs
  {
    if subs != [] {
      var init := subs[..|subs| - 1];
      var sub := subs[|subs| - 1];
      FeedImagesPassFilters(init, q, fetch);
      var l := fetch(ListingUrl(sub, q));
      if l.Listing? {
        SubImagesPassFilters(sub, l.posts, q);
      }
      assert forall s :: s in init ==> s in subs;
    }
  }

  lemma {:induction false} SubImagesPassFilters(sub: string, posts: seq<Post>, q: Query)
    ensures forall x :: x in SubImages(sub, posts, q) ==>
      x.score >= q.minScore && (q.nsfwFilter == "block" ==> !x.nsfw) && x.subreddit == sub
  {
    if posts != [] {
      SubImagesPassFilters(sub, posts[..|posts| - 1], q);
      var p := posts[|posts| - 1];
      if PassesFilters(p, q) && !(p.url != "" && IsDirectImageUrl(p.url)) &&
         !(p.url != "" && IsImgurPage(p.url)) && p.isGallery && p.mediaMetadata.Some? {
        GalleryOfPost(sub, p, p.mediaMetadata.value);
      }
    }
  }

  lemma {:induction false} GalleryOfPost(sub: string, p: Post, items: seq<GalleryItem>)
    ensures forall x :: x in GalleryImages(sub, p, items) ==>
      x.score == p.score && x.nsfw == p.over18 && x.subreddit == sub &&
      x.title == p.title && x.author == p.author && x.permalink == "https://reddit.com" + p.permalink
  {
    if items != [] {
      GalleryOfPost(sub, p, items[..|items| - 1]);
    }
  }

  /** The feed is the concatenation of the subreddits' descriptors in the
      order requested: splitting the list splits the feed. */
  lemma FeedConcatenates(s1: seq<string>, s2: seq<string>, q: Query, fetch: string -> Listing)
    ensures FeedImages(s1 + s2, q, fetch) == FeedImages(s1, q, fetch) + FeedImages(s2, q, fetch)
  {
    ConcatMapSplit(s1, s2, SubFeed(q, fetch));
  }

  /** The same for the errors. */
  lemma FeedErrorsConcatenate(s1: seq<string>, s2: seq<string>, q: Query, fetch: string -> Listing)
    ensures FeedErrors(s1 + s2, q, fetch) == FeedErrors(s1, q, fetch) + FeedErrors(s2, q, fetch)
  {
    ConcatMapSplit(s1, s2, SubErrors(q, fetch));
  }

  /** Every error names a requested subreddit whose listing failed, with
      that failure's message, and there is one error per such subreddit. */
  lemma {:induction false} FeedErrorsAreFailures(subs: seq<string>, q: Query, fetch: string -> Listing)
    ensures forall e :: e in FeedErrors(subs, q, fetch) ==>
      e.subreddit in subs && fetch(ListingUrl(e.subreddit, q)) == FetchFailed(e.error)
    ensures |FeedErrors(subs, q, fetch)| == |FailedSubs(subs, q, fetch)|
  {
    if subs != [] {
      var init := subs[..|subs| - 1];
      FeedErrorsAreFailures(init, q, fetch);
      assert forall s :: s in init ==> s in subs;
    }
  }

  /** The requested subreddits whose listing failed, in order. */
  function FailedSubs(subs: seq<string>, q: Query, fetch: string -> Listing): seq<string>
  {
    if subs == [] then []
    else
      var sub := subs[|subs| - 1];
      FailedSubs(subs[..|subs| - 1], q, fetch) +
      (if fetch(ListingUrl(sub, q)).FetchFailed? then [sub] else [])
  }

  /** The first `imgur.com` of an `i.imgur.com` link is the one after `i.`. */
  lemma FirstImgurMatch(id: string)
    ensures IndexOf("https://i.imgur.com/" + id, "imgur.com") == 10
  {
    var u := "https://i.imgur.com/" + id;
    var pat := "imgur.com";
    assert u[..20] == "https://i.imgur.com/";
    assert u[10..19] == u[..20][10..19] == pat;
    forall k: nat | k < 10
      ensures !MatchAt(u, pat, k)
    {
      assert u[k] == u[..20][k] && u[k + 1] == u[..20][k + 1];
      assert u[k] != 'i' || u[k + 1] != 'm';
      assert u[k..k + 9][0] == u[k] && u[k..k + 9][1] == u[k + 1];
    }
    assert MatchAt(u, pat, 10);
  }

  /** An `i.imgur.com` direct link without an image extension (and with no
      `/a/` or `/gallery/` in it) is taken for an imgur page, and the
      rewrite gives its host a second `i.`. */
  lemma DirectImgurLinkRewritten(id: string)
    requires var u := "https://i.imgur.com/" + id;
      !IsDirectImageUrl(u) && !Contains(u, "/a/") && !Contains(u, "/gallery/")
    ensures var u := "https://i.imgur.com/" + id;
      IsImgurPage(u) && ImgurDirectUrl(u) == "https://i.i.imgur.com/" + id + ".jpg"
  {
    FirstImgurMatch(id);
    ImgurLinkRewrite(id);
  }

  /** The rewrite of an `i.imgur.com` link, whatever follows the host. */
  lemma ImgurLinkRewrite(id: string)
    requires IndexOf("https://i.imgur.com/" + id, "imgur.com") == 10
    ensures ImgurDirectUrl("https://i.imgur.com/" + id) == "https://i.i.imgur.com/" + id + ".jpg"
  {
    var u := "https://i.imgur.com/" + id;
    assert u[..10] == "https://i.";
    assert u[19..] == "/" + id;
    assert "https://i." + "i.imgur.com" + ("/" + id) + ".jpg" == "https://i.i.imgur.com/" + id + ".jpg";
  }
}

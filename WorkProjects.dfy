/**
 * The `Projects` list of the work page: the project posts without the
 * excluded slugs, sorted newest first in place, cut to a one-based range,
 * and turned into cards with localized content and avatar fallbacks.
 * Dates are millisecond timestamps.
 */
module WorkProjects {
  import opened Options
  import opened JsStrings
  import opened Sorting
  import opened ProjectContent

  /** A project post with the metadata the list uses; `team` holds the members' avatar paths. */
  datatype Post = Post(
    slug: string,
    publishedAt: int,
    title: string,
    summary: string,
    images: seq<string>,
    content: string,
    link: Option<string>,
    team: Option<seq<string>>)

  /** The properties a `ProjectCard` receives. */
  datatype Card = Card(
    priority: bool,
    href: string,
    images: seq<string>,
    title: string,
    description: string,
    content: string,
    avatars: seq<string>,
    link: string)

  /** `range?: [number, number?]`. */
  datatype Range = Range(first: int, last: Option<int>)

  function PublishedAt(p: Post): int {
    p.publishedAt
  }

  /** `filter(post => !exclude.includes(post.slug))`. */
  function WithoutSlugs(posts: seq<Post>, exclude: seq<string>): (r: seq<Post>)
    ensures |r| <= |posts|
    ensures forall p :: p in r <==> p in posts && p.slug !in exclude
    ensures multiset(r) <= multiset(posts)
  {
    if posts == [] then []
    else
      var rest := WithoutSlugs(posts[1..], exclude);
      assert posts == [posts[0]] + posts[1..];
      if posts[0].slug in exclude then rest else [posts[0]] + rest
  }

  /** The posts left after the exclusion, which applies only to a present, non-empty list. */
  function Excluded(posts: seq<Post>, exclude: Option<seq<string>>): seq<Post> {
    if exclude.Some? && |exclude.value| > 0 then WithoutSlugs(posts, exclude.value) else posts
  }

  /** A position argument of `Array.prototype.slice`: negative counts from the end, then clamped. */
  function SliceIndex(k: int, len: nat): (r: nat)
    ensures r <= len
    ensures 0 <= k <= len ==> r == k
    ensures k < 0 && 0 <= len + k ==> r == len + k
    ensures len + k < 0 ==> r == 0
    ensures k > len ==> r == len
  {
    if k < 0 then (if len + k < 0 then 0 else len + k) else if k > len then len else k
  }

  /** `s.slice(start, end)`. */
  function JsSlice<T>(s: seq<T>, start: int, end: int): (r: seq<T>)
    ensures exists i, j :: 0 <= i <= j <= |s| && r == s[i..j]
    ensures 0 <= start <= end <= |s| ==> r == s[start..end]
  {
    var i := SliceIndex(start, |s|);
    var j := SliceIndex(end, |s|);
    if i <= j then s[i..j] else s[i..i]
  }

  /** `range ? sorted.slice(range[0] - 1, range[1] ?? sorted.length) : sorted`. */
  function Displayed(sorted: seq<Post>, range: Option<Range>): (r: seq<Post>)
    ensures exists i, j :: 0 <= i <= j <= |sorted| && r == sorted[i..j]
    ensures range.None? ==> r == sorted
  {
    match range
    case None =>
      assert sorted == sorted[0..|sorted|];
      sorted
    case Some(Range(first, last)) => JsSlice(sorted, first - 1, last.GetOr(|sorted|))
  }

  /** The range `[a, b]` shows positions `a` to `b` of the sorted list, counted from one. */
  lemma RangeIsOneBased(sorted: seq<Post>, a: int, b: int)
    requires 1 <= a <= b <= |sorted|
    ensures var r := Displayed(sorted, Some(Range(a, Some(b))));
            r == sorted[a - 1..b] && |r| == b - a + 1
  {
  }

  /** A range without an end shows from position `a`, counted from one, to the end of the list. */
  lemma OpenRangeToEnd(sorted: seq<Post>, a: int)
    requires 1 <= a <= |sorted| + 1
    ensures Displayed(sorted, Some(Range(a, None))) == sorted[a - 1..]
  {
  }

  /** A range starting at 0 slices from -1, that is from the last project, so `[0]` shows only the last one. */
  lemma ZeroStartShowsLast(sorted: seq<Post>)
    requires sorted != []
    ensures Displayed(sorted, Some(Range(0, None))) == [sorted[|sorted| - 1]]
  {
  }

  /**
   * The selection: exclusion, an in-place sort by date, newest first, and
   * the range. Projects with equal dates may come in any order.
   */
  method SelectProjects(posts: seq<Post>, range: Option<Range>, exclude: Option<seq<string>>)
    returns (sorted: seq<Post>, shown: seq<Post>)
    ensures multiset(sorted) == multiset(Excluded(posts, exclude))
    ensures SortedDesc(sorted, PublishedAt)
    ensures shown == Displayed(sorted, range)
  {
    var allProjects := posts;
    if exclude.Some? && |exclude.value| > 0 {
      allProjects := WithoutSlugs(allProjects, exclude.value);
    }
    var a := new Post[|allProjects|](i requires 0 <= i < |allProjects| => allProjects[i]);
    assert a[..] == allProjects;
    SortDescending(a, PublishedAt);
    sorted := a[..];
    shown := Displayed(sorted, range);
  }

  lemma InSlice<T>(s: seq<T>, i: nat, j: nat, x: T)
    requires i <= j <= |s| && x in s[i..j]
    ensures x in s
  {
    var k :| 0 <= k < j - i && s[i..j][k] == x;
    assert s[i + k] == x;
  }

  lemma InExcluded(posts: seq<Post>, exclude: seq<string>, p: Post)
    requires p in Excluded(posts, Some(exclude))
    ensures p in posts && p.slug !in exclude
  {
  }

  /** An excluded slug shows up nowhere in the list, whatever the range. */
  lemma ExcludedNeverShown(posts: seq<Post>, range: Option<Range>, exclude: seq<string>,
                           sorted: seq<Post>, shown: seq<Post>)
    requires multiset(sorted) == multiset(Excluded(posts, Some(exclude)))
    requires shown == Displayed(sorted, range)
    ensures forall p :: p in shown ==> p in posts && p.slug !in exclude
  {
    var i, j :| 0 <= i <= j <= |sorted| && shown == sorted[i..j];
    forall p | p in shown
      ensures p in posts && p.slug !in exclude
    {
      InSlice(sorted, i, j, p);
      assert p in multiset(sorted);
      InExcluded(posts, exclude, p);
    }
  }

  /** `contributorAvatarsBySlug[slug]` when it is non-empty, else the team's avatars, else none. */
  function AvatarsFor(post: Post, avatarsBySlug: map<string, seq<string>>): (r: seq<string>)
    ensures post.slug in avatarsBySlug && avatarsBySlug[post.slug] != [] ==> r == avatarsBySlug[post.slug]
    ensures !(post.slug in avatarsBySlug && avatarsBySlug[post.slug] != []) && post.team.None? ==> r == []
    ensures !(post.slug in avatarsBySlug && avatarsBySlug[post.slug] != []) && post.team.Some? ==> r == post.team.value
  {
    if post.slug in avatarsBySlug && |avatarsBySlug[post.slug]| > 0 then avatarsBySlug[post.slug]
    else post.team.GetOr([])
  }

  /** The card of the post shown at `index`. */
  function CardFor(post: Post, index: nat, locale: Locale, texts: ProjectSlug -> Bilingual,
                   avatarsBySlug: map<string, seq<string>>): Card {
    Card(
      index < 2,
      "/work/" + post.slug,
      post.images,
      post.title,
      post.summary,
      Or(Some(GetProjectContent(post.slug, locale, texts)), Some(post.content)).value,
      AvatarsFor(post, avatarsBySlug),
      post.link.GetOr(""))
  }

  /** The cards of the shown posts, in order; only the first two load with priority. */
  function Cards(shown: seq<Post>, locale: Locale, texts: ProjectSlug -> Bilingual,
                 avatarsBySlug: map<string, seq<string>>): (r: seq<Card>)
    ensures |r| == |shown|
    ensures forall i :: 0 <= i < |shown| ==> r[i] == CardFor(shown[i], i, locale, texts, avatarsBySlug)
    ensures forall i :: 0 <= i < |r| ==> (r[i].priority <==> i < 2)
    ensures forall i :: 0 <= i < |r| ==> r[i].href == "/work/" + shown[i].slug
  {
    seq(|shown|, i requires 0 <= i < |shown| => CardFor(shown[i], i, locale, texts, avatarsBySlug))
  }

  /** A post the content table does not know keeps its own content. */
  lemma UnknownProjectKeepsOwnContent(post: Post, index: nat, locale: Locale, texts: ProjectSlug -> Bilingual,
                                      avatarsBySlug: map<string, seq<string>>)
    requires forall p :: SlugName(p) != post.slug
    ensures CardFor(post, index, locale, texts, avatarsBySlug).content == post.content
  {
  }

  /** A known project with a text in the locale shows that text instead of the post's content. */
  lemma KnownProjectShowsLocalizedText(post: Post, index: nat, locale: Locale, texts: ProjectSlug -> Bilingual,
                                       avatarsBySlug: map<string, seq<string>>, p: ProjectSlug)
    requires SlugName(p) == post.slug && Localized(texts(p), locale) != ""
    ensures CardFor(post, index, locale, texts, avatarsBySlug).content == Localized(texts(p), locale)
  {
  }
}

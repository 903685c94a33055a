/**
 * `sitemap`: one entry per enabled route, then one per blog post, then one
 * per work project. Priorities are in hundredths (100 is 1.0); the route
 * configuration is the list of `[route, enabled]` pairs in key order, and
 * the generation time is a parameter.
 */
module Sitemap {
  import opened JsStrings

  datatype ChangeFrequency = Weekly | Monthly

  /** One sitemap entry. */
  datatype Entry = Entry(url: string, lastModified: string, changeFrequency: ChangeFrequency, priority: nat)

  /** The two fields of a post the sitemap reads. */
  datatype PostRef = PostRef(slug: string, publishedAt: string)

  const HomeRoute: string := "/"

  /** `Object.keys(routes).filter(route => routes[route])`. */
  function ActiveRoutes(routes: seq<(string, bool)>): (r: seq<string>)
    ensures |r| <= |routes|
    ensures forall route :: route in r <==> (route, true) in routes
  {
    if routes == [] then []
    else
      var rest := ActiveRoutes(routes[1..]);
      assert forall x :: x in routes <==> x == routes[0] || x in routes[1..];
      if routes[0].1 then [routes[0].0] + rest else rest
  }

  /**
   * The filter keeps key order: the active routes of two parts of the
   * configuration are those of the first followed by those of the second.
   */
  lemma {:induction false} ActiveRoutesAppend(a: seq<(string, bool)>, b: seq<(string, bool)>)
    ensures ActiveRoutes(a + b) == ActiveRoutes(a) + ActiveRoutes(b)
  {
    if a == [] {
      assert a + b == b;
    } else {
      assert (a + b)[0] == a[0];
      assert (a + b)[1..] == a[1..] + b;
      ActiveRoutesAppend(a[1..], b);
    }
  }

  /** Each route is listed as many times as it is enabled in the configuration: once, for an object's keys. */
  lemma {:induction false} ActiveRoutesMultiplicity(routes: seq<(string, bool)>)
    ensures forall route :: multiset(ActiveRoutes(routes))[route] == multiset(routes)[(route, true)]
  {
    if routes != [] {
      ActiveRoutesMultiplicity(routes[1..]);
      assert routes == [routes[0]] + routes[1..];
      assert multiset(routes) == multiset([routes[0]]) + multiset(routes[1..]);
    }
  }

  /** The entry of one route: the home page is the base URL itself, weekly, at full priority. */
  function RouteEntry(baseUrl: string, route: string, now: string): (e: Entry)
    ensures e.changeFrequency == Weekly <==> route == HomeRoute
    ensures route == HomeRoute ==> e.url == baseUrl && e.priority == 100
    ensures route != HomeRoute ==> e.url == baseUrl + route && e.priority == 90
    ensures e.lastModified == now
  {
    var isHome := route == HomeRoute;
    Entry(baseUrl + (if !isHome then route else ""), now,
          if isHome then Weekly else Monthly, if isHome then 100 else 90)
  }

  function RouteEntries(baseUrl: string, routes: seq<string>, now: string): (r: seq<Entry>)
    ensures |r| == |routes|
    ensures forall i :: 0 <= i < |routes| ==> r[i] == RouteEntry(baseUrl, routes[i], now)
  {
    seq(|routes|, i requires 0 <= i < |routes| => RouteEntry(baseUrl, routes[i], now))
  }

  /** The entries of one kind of post, under `baseUrl/section/slug`, monthly, dated by publication. */
  function PostEntries(baseUrl: string, section: string, priority: nat, posts: seq<PostRef>): (r: seq<Entry>)
    ensures |r| == |posts|
    ensures forall i :: 0 <= i < |posts| ==>
              r[i] == Entry(baseUrl + "/" + section + "/" + posts[i].slug, posts[i].publishedAt, Monthly, priority)
  {
    seq(|posts|, i requires 0 <= i < |posts| =>
      Entry(baseUrl + "/" + section + "/" + posts[i].slug, posts[i].publishedAt, Monthly, priority))
  }

  /** The whole sitemap. */
  function Sitemap(baseUrl: string, routes: seq<(string, bool)>, blogs: seq<PostRef>, works: seq<PostRef>,
                   now: string): (r: seq<Entry>)
    ensures |r| == |ActiveRoutes(routes)| + |blogs| + |works|
  {
    RouteEntries(baseUrl, ActiveRoutes(routes), now)
    + PostEntries(baseUrl, "blog", 80, blogs)
    + PostEntries(baseUrl, "work", 70, works)
  }

  lemma ThreeWayIndex<T>(a: seq<T>, b: seq<T>, c: seq<T>)
    ensures forall i :: 0 <= i < |a| ==> (a + b + c)[i] == a[i]
    ensures forall i :: 0 <= i < |b| ==> (a + b + c)[|a| + i] == b[i]
    ensures forall i :: 0 <= i < |c| ==> (a + b + c)[|a| + |b| + i] == c[i]
  {
  }

  /** The entries of one kind of post, with the path written out. */
  lemma SectionUrls(baseUrl: string, section: string, priority: nat, posts: seq<PostRef>)
    ensures forall i :: 0 <= i < |posts| ==>
              PostEntries(baseUrl, section, priority, posts)[i]
              == Entry(baseUrl + ("/" + section + "/") + posts[i].slug, posts[i].publishedAt, Monthly, priority)
  {
    forall i | 0 <= i < |posts|
      ensures baseUrl + "/" + section + "/" + posts[i].slug == baseUrl + ("/" + section + "/") + posts[i].slug
    {
    }
  }

  /** Route entries come first, then the blog posts at 0.8, then the work projects at 0.7, each in input order. */
  lemma SitemapLayout(baseUrl: string, routes: seq<(string, bool)>, blogs: seq<PostRef>, works: seq<PostRef>,
                      now: string)
    ensures var r := Sitemap(baseUrl, routes, blogs, works, now);
            var active := ActiveRoutes(routes);
            var n := |active|;
            (forall i :: 0 <= i < n ==> r[i] == RouteEntry(baseUrl, active[i], now))
            && (forall i :: 0 <= i < |blogs| ==>
                  r[n + i] == Entry(baseUrl + "/blog/" + blogs[i].slug, blogs[i].publishedAt, Monthly, 80))
            && (forall i :: 0 <= i < |works| ==>
                  r[n + |blogs| + i] == Entry(baseUrl + "/work/" + works[i].slug, works[i].publishedAt, Monthly, 70))
  {
    LayoutRoutes(baseUrl, routes, blogs, works, now);
    LayoutSection(baseUrl, routes, blogs, works, now);
  }

  lemma LayoutRoutes(baseUrl: string, routes: seq<(string, bool)>, blogs: seq<PostRef>, works: seq<PostRef>,
                     now: string)
    ensures var r := Sitemap(baseUrl, routes, blogs, works, now);
            var active := ActiveRoutes(routes);
            forall i :: 0 <= i < |active| ==> r[i] == RouteEntry(baseUrl, active[i], now)
  {
    ThreeWayIndex(RouteEntries(baseUrl, ActiveRoutes(routes), now),
                  PostEntries(baseUrl, "blog", 80, blogs),
                  PostEntries(baseUrl, "work", 70, works));
  }

  lemma LayoutSection(baseUrl: string, routes: seq<(string, bool)>, blogs: seq<PostRef>, works: seq<PostRef>,
                      now: string)
    ensures var r := Sitemap(baseUrl, routes, blogs, works, now);
            var n := |ActiveRoutes(routes)|;
            (forall i :: 0 <= i < |blogs| ==>
               r[n + i] == Entry(baseUrl + "/blog/" + blogs[i].slug, blogs[i].publishedAt, Monthly, 80))
            && (forall i :: 0 <= i < |works| ==>
                  r[n + |blogs| + i] == Entry(baseUrl + "/work/" + works[i].slug, works[i].publishedAt, Monthly, 70))
  {
    ThreeWayIndex(RouteEntries(baseUrl, ActiveRoutes(routes), now),
                  PostEntries(baseUrl, "blog", 80, blogs),
                  PostEntries(baseUrl, "work", 70, works));
    SectionUrls(baseUrl, "blog", 80, blogs);
    SectionUrls(baseUrl, "work", 70, works);
    assert "/" + "blog" + "/" == "/blog/";
    assert "/" + "work" + "/" == "/work/";
  }

  lemma RouteUrlsUnderBase(baseUrl: string, routes: seq<string>, now: string)
    ensures forall e :: e in RouteEntries(baseUrl, routes, now) ==> StartsWith(e.url, baseUrl)
  {
    var a := RouteEntries(baseUrl, routes, now);
    forall e | e in a
      ensures StartsWith(e.url, baseUrl)
    {
      var k :| 0 <= k < |a| && a[k] == e;
      if routes[k] == HomeRoute {
        StartsWithJoin(baseUrl, "");
        assert baseUrl + "" == baseUrl;
      } else {
        StartsWithJoin(baseUrl, routes[k]);
      }
    }
  }

  lemma PostUrlsUnderBase(baseUrl: string, section: string, priority: nat, posts: seq<PostRef>)
    ensures forall e :: e in PostEntries(baseUrl, section, priority, posts) ==> StartsWith(e.url, baseUrl)
  {
    var b := PostEntries(baseUrl, section, priority, posts);
    forall e | e in b
      ensures StartsWith(e.url, baseUrl)
    {
      var k :| 0 <= k < |b| && b[k] == e;
      assert e.url == baseUrl + ("/" + section + "/" + posts[k].slug);
      StartsWithJoin(baseUrl, "/" + section + "/" + posts[k].slug);
    }
  }

  /** Every URL of the sitemap lies under the base URL. */
  lemma AllUrlsUnderBase(baseUrl: string, routes: seq<(string, bool)>, blogs: seq<PostRef>, works: seq<PostRef>,
                         now: string)
    ensures forall e :: e in Sitemap(baseUrl, routes, blogs, works, now) ==> StartsWith(e.url, baseUrl)
  {
    RouteUrlsUnderBase(baseUrl, ActiveRoutes(routes), now);
    PostUrlsUnderBase(baseUrl, "blog", 80, blogs);
    PostUrlsUnderBase(baseUrl, "work", 70, works);
  }

  /** Among the route entries, the weekly one is the one at full priority, and it exists iff the home route does. */
  lemma RouteFrequencies(baseUrl: string, routes: seq<string>, now: string)
    ensures forall e :: e in RouteEntries(baseUrl, routes, now) ==> (e.changeFrequency == Weekly <==> e.priority == 100)
    ensures HomeRoute in routes <==> exists e :: e in RouteEntries(baseUrl, routes, now) && e.changeFrequency == Weekly
  {
    var a := RouteEntries(baseUrl, routes, now);
    if HomeRoute in routes {
      var k :| 0 <= k < |routes| && routes[k] == HomeRoute;
      assert a[k] in a;
    }
    if exists e :: e in a && e.changeFrequency == Weekly {
      var e :| e in a && e.changeFrequency == Weekly;
      var k :| 0 <= k < |a| && a[k] == e;
      assert routes[k] in routes;
    }
  }

  lemma PostFrequencies(baseUrl: string, section: string, priority: nat, posts: seq<PostRef>)
    ensures forall e :: e in PostEntries(baseUrl, section, priority, posts) ==>
              e.changeFrequency == Monthly && e.priority == priority
  {
  }

  /** Exactly the home route is weekly, and exactly it has full priority. */
  lemma OnlyHomeIsWeekly(baseUrl: string, routes: seq<(string, bool)>, blogs: seq<PostRef>, works: seq<PostRef>,
                         now: string)
    ensures forall e :: e in Sitemap(baseUrl, routes, blogs, works, now) ==>
              (e.changeFrequency == Weekly <==> e.priority == 100)
    ensures (HomeRoute, true) in routes <==>
              exists e :: e in Sitemap(baseUrl, routes, blogs, works, now) && e.changeFrequency == Weekly
  {
    var active := ActiveRoutes(routes);
    var a := RouteEntries(baseUrl, active, now);
    var b := PostEntries(baseUrl, "blog", 80, blogs);
    var c := PostEntries(baseUrl, "work", 70, works);
    RouteFrequencies(baseUrl, active, now);
    PostFrequencies(baseUrl, "blog", 80, blogs);
    PostFrequencies(baseUrl, "work", 70, works);
    assert Sitemap(baseUrl, routes, blogs, works, now) == a + b + c;
  }
}

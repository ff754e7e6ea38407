/**
 * src/components/layout/Header.jsx: the page title shown for the current
 * route, looked up by the route's first path segment.
 */
module Header {
  import opened Strings

  /** The known page titles, keyed by base path. */
  const PageTitles: map<string, string> := map[
    "/" := "Dashboard",
    "/inbox" := "Inbox",
    "/reading" := "Paper lesen",
    "/review" := "Spaced Repetition",
    "/search" := "Suche",
    "/settings" := "Einstellungen"
  ]

  /** The title of a route nobody listed. */
  const FallbackTitle := "LitLearn"

  /** `'/' + (pathname.split('/')[1] || '')`. */
  function BasePath(pathname: string): (b: string)
    ensures |b| >= 1 && b[0] == '/'
    ensures forall i :: 1 <= i < |b| ==> b[i] != '/'
  {
    var parts := Split(pathname, '/');
    var segment := if |parts| >= 2 then parts[1] else "";
    assert forall i :: 0 <= i < |segment| ==> segment[i] in segment;
    "/" + segment
  }

  /** `pageTitles[basePath] || 'LitLearn'`. */
  function Title(pathname: string): (t: string)
    ensures BasePath(pathname) in PageTitles ==> t == PageTitles[BasePath(pathname)]
    ensures BasePath(pathname) !in PageTitles ==> t == FallbackTitle
  {
    var b := BasePath(pathname);
    if b in PageTitles then PageTitles[b] else FallbackTitle
  }

  /** The pieces of `/seg` and of `/seg/rest` start with an empty piece and then `seg`. */
  lemma SplitRoute(segment: string, tail: string)
    requires '/' !in segment
    requires tail == [] || tail[0] == '/'
    ensures var parts := Split("/" + segment + tail, '/');
      |parts| >= 2 && parts[1] == segment
  {
    var s := "/" + segment + tail;
    assert s[1..] == segment + tail;
    SplitSolid(segment, tail, '/');
    assert segment + "" == segment;
  }

  /** A route nested below a page keeps that page's base path. */
  lemma BasePathOfNested(segment: string, rest: string)
    requires '/' !in segment
    ensures BasePath("/" + segment + "/" + rest) == "/" + segment
    ensures BasePath("/" + segment) == "/" + segment
  {
    SplitRoute(segment, "/" + rest);
    assert "/" + segment + "/" + rest == "/" + segment + ("/" + rest);
    SplitRoute(segment, []);
    assert "/" + segment + [] == "/" + segment;
  }

  /** A base path is its own base path. */
  lemma BasePathIdempotent(pathname: string)
    ensures BasePath(BasePath(pathname)) == BasePath(pathname)
  {
    var b := BasePath(pathname);
    assert '/' !in b[1..];
    assert b == "/" + b[1..];
    BasePathOfNested(b[1..], []);
  }

  /** Every route below a page shows that page's title. */
  lemma TitleOfNested(segment: string, rest: string)
    requires '/' !in segment
    ensures Title("/" + segment + "/" + rest) == Title("/" + segment)
  {
    BasePathOfNested(segment, rest);
  }

  /**
   * Every listed page shows its own title, on its route and on every route
   * below it, such as a paper's reading route `/reading/<id>`.
   */
  lemma ListedRouteTitle(b: string, rest: string)
    requires b in PageTitles
    ensures Title(b) == PageTitles[b]
    ensures Title(b + "/" + rest) == PageTitles[b]
  {
    assert b == "/" || b == "/inbox" || b == "/reading" || b == "/review" || b == "/search" || b == "/settings";
    var segment := b[1..];
    assert b == "/" + segment;
    assert '/' !in segment;
    BasePathOfNested(segment, rest);
  }
}

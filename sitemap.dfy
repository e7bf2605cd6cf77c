/**
 * `scripts/generate-sitemap.mjs`: the list of sitemap entries and the XML
 * text built from it inside `generate`.
 *
 * The posts query is a parameter; so are the clock's ISO text (every
 * `new Date().toISOString()` of one run is taken to read the same instant)
 * and the normalisation `new Date(t).toISOString()` of a stored timestamp.
 * The file write and the process exits are left out: `Generate` returns the
 * text that would be written, or None when the script would exit.
 */
module Sitemap {
  import opened Base
  import opened Lists

  const DefaultSiteUrl := "https://avinashsingh.info"

  const StaticRoutes: seq<string> := ["/", "/projects", "/contact", "/blog", "/auth"]

  const Header := "<?xml version=\"1.0\" encoding=\"UTF-8\"?>\n<urlset xmlns=\"http://www.sitemaps.org/schemas/sitemap/0.9\">\n"

  const Footer := "\n</urlset>"

  /** A row of the `slug, published_at` query. */
  datatype PostRow = PostRow(slug: Option<string>, publishedAt: Option<string>)

  /** What the query resolved to: an error, or its `data`, which may fail
      `Array.isArray`. */
  datatype QueryResult = QueryFailed | QueryData(rows: Option<seq<PostRow>>)

  datatype UrlEntry = UrlEntry(loc: string, lastmod: string)

  /** `process.env.SITE_URL || 'https://avinashsingh.info'`. */
  function SiteUrl(env: Option<string>): string {
    if Truthy(env) then env.value else DefaultSiteUrl
  }

  /** `SITE_URL.replace(/\/$/, '')`: removes one trailing slash, no more. */
  function WithoutTrailingSlash(s: string): (r: string)
    ensures s == r || s == r + "/"
    ensures s == r <==> (s == [] || s[|s| - 1] != '/')
  {
    if s != [] && s[|s| - 1] == '/' then s[..|s| - 1] else s
  }

  predicate HasSlug(p: PostRow) {
    Truthy(p.slug)
  }

  function StaticEntry(base: string, route: string, nowIso: string): UrlEntry {
    UrlEntry(base + route, nowIso)
  }

  function PostEntry(base: string, p: PostRow, nowIso: string, iso: string -> string): UrlEntry
    requires HasSlug(p)
  {
    UrlEntry(base + "/blog/" + p.slug.value,
      if Truthy(p.publishedAt) then iso(p.publishedAt.value) else nowIso)
  }

  /** What the first loop pushes for `routes`. */
  function StaticEntries(base: string, routes: seq<string>, nowIso: string): (r: seq<UrlEntry>)
    ensures |r| == |routes|
  {
    seq(|routes|, i requires 0 <= i < |routes| => StaticEntry(base, routes[i], nowIso))
  }

  /** What the second loop pushes for `posts`. */
  function PostEntries(base: string, posts: seq<PostRow>, nowIso: string, iso: string -> string): seq<UrlEntry> {
    if posts == [] then []
    else
      var p := posts[|posts| - 1];
      PostEntries(base, posts[..|posts| - 1], nowIso, iso) + (if HasSlug(p) then [PostEntry(base, p, nowIso, iso)] else [])
  }

  /** `urls` after both loops. */
  function Entries(siteUrl: string, rows: Option<seq<PostRow>>, nowIso: string, iso: string -> string): seq<UrlEntry> {
    var base := WithoutTrailingSlash(siteUrl);
    StaticEntries(base, StaticRoutes, nowIso) + (if rows.Some? then PostEntries(base, rows.value, nowIso, iso) else [])
  }

  /** The independent description of the post entries: the posts that have a
      slug, each turned into its entry. */
  function EntriesOf(base: string, posts: seq<PostRow>, nowIso: string, iso: string -> string): (r: seq<UrlEntry>)
    requires forall i :: 0 <= i < |posts| ==> HasSlug(posts[i])
    ensures |r| == |posts|
  {
    seq(|posts|, i requires 0 <= i < |posts| => PostEntry(base, posts[i], nowIso, iso))
  }

  /** The second loop skips exactly the posts without a slug and keeps the
      others in query order. */
  lemma {:induction false} PostEntriesSkipSluglessPosts(base: string, posts: seq<PostRow>, nowIso: string, iso: string -> string)
    ensures PostEntries(base, posts, nowIso, iso) == EntriesOf(base, Filter(posts, HasSlug), nowIso, iso)
  {
    if posts != [] {
      var init := posts[..|posts| - 1];
      var p := posts[|posts| - 1];
      assert posts == init + [p];
      FilterConcat(init, [p], HasSlug);
      PostEntriesSkipSluglessPosts(base, init, nowIso, iso);
      assert Filter([p], HasSlug) == if HasSlug(p) then [p] else [];
    }
  }

  /** The five static routes come first, in their listed order, under the
      site address without its trailing slash. */
  lemma StaticRoutesComeFirst(siteUrl: string, rows: Option<seq<PostRow>>, nowIso: string, iso: string -> string)
    ensures var e := Entries(siteUrl, rows, nowIso, iso);
      && |e| >= 5
      && forall i :: 0 <= i < 5 ==> e[i] == UrlEntry(WithoutTrailingSlash(siteUrl) + StaticRoutes[i], nowIso)
  {
  }

  /** There is one entry per route and one per post with a slug. */
  lemma EntryCount(siteUrl: string, rows: seq<PostRow>, nowIso: string, iso: string -> string)
    ensures |Entries(siteUrl, Some(rows), nowIso, iso)| == 5 + |Filter(rows, HasSlug)|
  {
    PostEntriesSkipSluglessPosts(WithoutTrailingSlash(siteUrl), rows, nowIso, iso);
  }

  /** The two loops of `generate`. */
  method BuildUrls(siteUrl: string, rows: Option<seq<PostRow>>, nowIso: string, iso: string -> string)
    returns (urls: seq<UrlEntry>)
    ensures urls == Entries(siteUrl, rows, nowIso, iso)
  {
    var base := WithoutTrailingSlash(siteUrl);
    urls := [];
    var i := 0;
    while i < |StaticRoutes|
      invariant 0 <= i <= |StaticRoutes|
      invariant urls == StaticEntries(base, StaticRoutes[..i], nowIso)
    {
      urls := urls + [UrlEntry(base + StaticRoutes[i], nowIso)];
      i := i + 1;
    }
    assert StaticRoutes[..i] == StaticRoutes;
    if rows.Some? {
      var data := rows.value;
      var statics := urls;
      var j := 0;
      while j < |data|
        invariant 0 <= j <= |data|
        invariant urls == statics + PostEntries(base, data[..j], nowIso, iso)
      {
        var post := data[j];
        assert data[..j + 1][..j] == data[..j];
        if !Truthy(post.slug) {
          j := j + 1;
          continue;
        }
        var lastmod := if Truthy(post.publishedAt) then iso(post.publishedAt.value) else nowIso;
        urls := urls + [UrlEntry(base + "/blog/" + post.slug.value, lastmod)];
        j := j + 1;
      }
      assert data[..j] == data;
    }
  }

  // ---------------------------------------------------------------------------
  // The XML text

  function UrlBlock(u: UrlEntry): string {
    "  <url>\n    <loc>" + u.loc + "</loc>\n    <lastmod>" + u.lastmod + "</lastmod>\n  </url>"
  }

  /** `xs.join(sep)`. */
  function Join(xs: seq<string>, sep: string): string {
    if xs == [] then ""
    else if |xs| == 1 then xs[0]
    else Join(xs[..|xs| - 1], sep) + sep + xs[|xs| - 1]
  }

  function Blocks(urls: seq<UrlEntry>): (r: seq<string>)
    ensures |r| == |urls|
  {
    seq(|urls|, i requires 0 <= i < |urls| => UrlBlock(urls[i]))
  }

  /** `header + body + footer`. */
  function Document(urls: seq<UrlEntry>): string {
    Header + Join(Blocks(urls), "\n") + Footer
  }

  function SumLengths(xs: seq<string>): nat {
    if xs == [] then 0 else SumLengths(xs[..|xs| - 1]) + |xs[|xs| - 1]|
  }

  /** The joined text is the parts plus one separator between each pair of
      neighbours. */
  lemma {:induction false} JoinLength(xs: seq<string>, sep: string)
    requires xs != []
    ensures |Join(xs, sep)| == SumLengths(xs) + (|xs| - 1) * |sep|
  {
    if |xs| > 1 {
      var init := xs[..|xs| - 1];
      JoinLength(init, sep);
      assert |Join(xs, sep)| == |Join(init, sep)| + |sep| + |xs[|xs| - 1]|;
      assert (|xs| - 1) * |sep| == (|init| - 1) * |sep| + |sep|;
    }
  }

  /** Appending an entry appends a newline and its block just before the
      footer: the document lists the entries in order. */
  lemma DocumentAppend(urls: seq<UrlEntry>, u: UrlEntry)
    requires urls != []
    ensures Document(urls + [u]) == Header + Join(Blocks(urls), "\n") + "\n" + UrlBlock(u) + Footer
  {
    assert Blocks(urls + [u])[..|urls|] == Blocks(urls);
  }

  /** With no entries the document is the header and the footer. */
  lemma EmptyDocument()
    ensures Document([]) == Header + Footer
  {
  }

  /** `generate`, given the environment's `SITE_URL`, the query result and the
      clock. None stands for the exit on a failed query. */
  method Generate(siteUrlEnv: Option<string>, result: QueryResult, nowIso: string, iso: string -> string)
    returns (content: Option<string>)
    ensures result.QueryFailed? ==> content == None
    ensures result.QueryData? ==>
      content == Some(Document(Entries(SiteUrl(siteUrlEnv), result.rows, nowIso, iso)))
  {
    if result.QueryFailed? {
      return None;
    }
    var urls := BuildUrls(SiteUrl(siteUrlEnv), result.rows, nowIso, iso);
    content := Some(Document(urls));
  }
}

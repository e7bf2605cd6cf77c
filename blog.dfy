/**
 * `src/pages/Blog.tsx`: the blog index's search filter and the join of the
 * fetched posts with their authors' public profiles.
 *
 * The posts query and the `get_public_profile` call are parameters: the rows
 * the query returned (none when it failed) and, per author id, the list the
 * call returned (none when it returned null). `toLowerCase` is a parameter
 * too, since it is Unicode case mapping.
 */
module Blog {
  import opened Base
  import opened JsText
  import opened Lists

  datatype Category = Category(name: string, slug: string)

  /** A row of the `blog_posts` query. */
  datatype PostRow = PostRow(
    id: string, title: string, slug: string, excerpt: Option<string>,
    featuredImage: Option<string>, publishedAt: Option<string>, authorId: string,
    category: Option<Category>)

  datatype Profile = Profile(fullName: Option<string>)

  /** A post as the page holds it: the row's fields and the joined profile. */
  datatype Post = Post(row: PostRow, profile: Option<Profile>)

  // ---------------------------------------------------------------------------
  // The search filter

  /** The title, or the excerpt when there is one, contains the query, both
      lower-cased. */
  predicate Matches(p: Post, query: string, lower: string -> string) {
    || Contains(lower(p.row.title), lower(query))
    || (p.row.excerpt.Some? && Contains(lower(p.row.excerpt.value), lower(query)))
  }

  /** The search effect's `filteredPosts`. */
  function FilterPosts(posts: seq<Post>, query: string, lower: string -> string): seq<Post> {
    if query == "" then posts else Filter(posts, p => Matches(p, query, lower))
  }

  /** An empty query shows every post. */
  lemma EmptyQueryShowsAll(posts: seq<Post>, lower: string -> string)
    ensures FilterPosts(posts, "", lower) == posts
  {
  }

  /** A query keeps exactly the matching posts. */
  lemma QueryKeepsExactlyMatches(posts: seq<Post>, query: string, lower: string -> string)
    requires query != ""
    ensures forall i :: 0 <= i < |FilterPosts(posts, query, lower)| ==>
      FilterPosts(posts, query, lower)[i] in posts && Matches(FilterPosts(posts, query, lower)[i], query, lower)
    ensures forall i :: 0 <= i < |posts| && Matches(posts[i], query, lower) ==> posts[i] in FilterPosts(posts, query, lower)
  {
  }

  /** The search keeps the posts in their original order. */
  lemma QueryKeepsOrder(a: seq<Post>, b: seq<Post>, query: string, lower: string -> string)
    ensures FilterPosts(a + b, query, lower) == FilterPosts(a, query, lower) + FilterPosts(b, query, lower)
  {
    if query != "" {
      FilterConcat(a, b, p => Matches(p, query, lower));
    }
  }

  // ---------------------------------------------------------------------------
  // The author join

  function AuthorIdsOf(rows: seq<PostRow>): seq<string> {
    seq(|rows|, i requires 0 <= i < |rows| => rows[i].authorId)
  }

  /** `authorIds`: each author once, in order of first appearance. */
  function AuthorIds(rows: seq<PostRow>): seq<string> {
    Dedupe(AuthorIdsOf(rows))
  }

  /** The lookup gave a non-empty list. */
  predicate HasProfile(lookup: string -> Option<seq<Profile>>, id: string) {
    lookup(id).Some? && |lookup(id).value| > 0
  }

  /** `profilesMap` after the loop over `ids`. */
  function ProfilesMap(ids: seq<string>, lookup: string -> Option<seq<Profile>>): map<string, Profile> {
    map id | id in ids && HasProfile(lookup, id) :: lookup(id).value[0]
  }

  /** The `for (const authorId of authorIds)` loop. */
  method FetchProfiles(ids: seq<string>, lookup: string -> Option<seq<Profile>>) returns (profiles: map<string, Profile>)
    ensures profiles == ProfilesMap(ids, lookup)
  {
    profiles := map[];
    var i := 0;
    while i < |ids|
      invariant 0 <= i <= |ids|
      invariant profiles == ProfilesMap(ids[..i], lookup)
    {
      var authorId := ids[i];
      var profileData := lookup(authorId);
      if profileData.Some? && |profileData.value| > 0 {
        profiles := profiles[authorId := profileData.value[0]];
      }
      assert ids[..i + 1] == ids[..i] + [authorId];
      i := i + 1;
    }
    assert ids[..i] == ids;
  }

  /** `postsWithProfiles`. */
  function Combine(rows: seq<PostRow>, profiles: map<string, Profile>): seq<Post> {
    seq(|rows|, i requires 0 <= i < |rows| =>
      Post(rows[i], if rows[i].authorId in profiles then Some(profiles[rows[i].authorId]) else None))
  }

  /** Every post keeps its row, in query order, and carries its author's first
      profile exactly when the lookup for that author gave a non-empty list. */
  lemma JoinGivesEachPostItsProfile(rows: seq<PostRow>, lookup: string -> Option<seq<Profile>>)
    ensures var posts := Combine(rows, ProfilesMap(AuthorIds(rows), lookup));
      && |posts| == |rows|
      && (forall i :: 0 <= i < |rows| ==> posts[i].row == rows[i])
      && (forall i :: 0 <= i < |rows| ==>
            (posts[i].profile.Some? <==> HasProfile(lookup, rows[i].authorId))
            && (posts[i].profile.Some? ==> posts[i].profile.value == lookup(rows[i].authorId).value[0]))
  {
    var ids := AuthorIdsOf(rows);
    forall i | 0 <= i < |rows|
      ensures rows[i].authorId in AuthorIds(rows)
    {
      assert ids[i] == rows[i].authorId;
    }
  }

  // ---------------------------------------------------------------------------
  // The page

  class BlogPage {
    var posts: seq<Post>
    var filteredPosts: seq<Post>
    var searchQuery: string
    var loading: bool

    constructor ()
      ensures posts == [] && filteredPosts == [] && searchQuery == "" && loading
    {
      posts := [];
      filteredPosts := [];
      searchQuery := "";
      loading := true;
    }

    /** `fetchPosts`, given the rows the query returned (None when it failed)
        and the profile lookup. */
    method FetchPosts(queryResult: Option<seq<PostRow>>, lookup: string -> Option<seq<Profile>>)
      modifies this
      ensures !loading && searchQuery == old(searchQuery)
      ensures queryResult.None? ==> posts == old(posts) && filteredPosts == old(filteredPosts)
      ensures queryResult.Some? ==>
        && posts == Combine(queryResult.value, ProfilesMap(AuthorIds(queryResult.value), lookup))
        && filteredPosts == posts
    {
      if queryResult.Some? {
        var rows := queryResult.value;
        var authorIds := AuthorIds(rows);
        var profilesMap := FetchProfiles(authorIds, lookup);
        posts := Combine(rows, profilesMap);
        filteredPosts := posts;
      }
      loading := false;
    }

    /** The search effect, which runs when the query or the posts change. */
    method SearchEffect(lower: string -> string)
      modifies this
      ensures filteredPosts == FilterPosts(posts, searchQuery, lower)
      ensures posts == old(posts) && searchQuery == old(searchQuery) && loading == old(loading)
    {
      filteredPosts := FilterPosts(posts, searchQuery, lower);
    }

    /** Typing into the search box, followed by the effect. */
    method SetSearchQuery(q: string, lower: string -> string)
      modifies this
      ensures searchQuery == q
      ensures filteredPosts == FilterPosts(posts, q, lower)
      ensures posts == old(posts) && loading == old(loading)
    {
      searchQuery := q;
      SearchEffect(lower);
    }
  }
}

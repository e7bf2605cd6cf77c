/**
 * `src/components/admin/CreateEditPost.tsx`: the post editor's slug generator
 * and its title, slug and save handlers.
 *
 * The database write is a parameter (the error message it fails with, if
 * any); so is the clock's `toISOString()` text. Writes, toasts and calls of
 * `onClose` are recorded in fields.
 */
module CreateEditPost {
  import opened Base
  import opened JsText

  // ---------------------------------------------------------------------------
  // generateSlug

  /** The length of the run of characters outside `[a-z0-9]` that `s` starts with. */
  function RunLength(s: string): (n: nat)
    ensures n <= |s|
    ensures n < |s| ==> IsLowerAlnum(s[n])
    ensures forall i :: 0 <= i < n ==> !IsLowerAlnum(s[i])
  {
    if s != [] && !IsLowerAlnum(s[0]) then 1 + RunLength(s[1..]) else 0
  }

  /** Skips the rest of a run of characters outside `[a-z0-9]`. */
  function DropRun(s: string): string {
    s[RunLength(s)..]
  }

  predicate SlugChars(s: string) {
    forall i :: 0 <= i < |s| ==> IsLowerAlnum(s[i]) || s[i] == '-'
  }

  predicate NoDoubleDash(s: string) {
    forall i :: 0 <= i < |s| - 1 ==> s[i] != '-' || s[i + 1] != '-'
  }

  /** `.replace(/[^a-z0-9]+/g, "-")`: every maximal run outside `[a-z0-9]`
      becomes one dash. */
  function CollapseRuns(s: string): (r: string)
    ensures SlugChars(r) && NoDoubleDash(r)
    ensures r == [] <==> s == []
    ensures r != [] ==> (r[0] == '-' <==> !IsLowerAlnum(s[0]))
    decreases |s|
  {
    if s == [] then []
    else if IsLowerAlnum(s[0]) then [s[0]] + CollapseRuns(s[1..])
    else "-" + CollapseRuns(DropRun(s[1..]))
  }

  /** `.replace(/(^-|-$)/g, "")`: a leading dash and a trailing dash go. */
  function StripEdgeDashes(s: string): string {
    var a := if s != [] && s[0] == '-' then s[1..] else s;
    if a != [] && a[|a| - 1] == '-' then a[..|a| - 1] else a
  }

  function GenerateSlug(text: string): string {
    StripEdgeDashes(CollapseRuns(UnicodeLower(text)))
  }

  /** The shape of a slug: lower-case letters, digits and single dashes, with
      no dash at either end. */
  predicate IsSlug(s: string) {
    && SlugChars(s) && NoDoubleDash(s)
    && (s != [] ==> s[0] != '-' && s[|s| - 1] != '-')
  }

  lemma StripKeepsShape(s: string)
    requires SlugChars(s) && NoDoubleDash(s)
    ensures IsSlug(StripEdgeDashes(s))
  {
    var a := if s != [] && s[0] == '-' then s[1..] else s;
    assert SlugChars(a) && NoDoubleDash(a);
    if a != [] && a[|a| - 1] == '-' {
      var b := a[..|a| - 1];
      if b != [] {
        assert b[|b| - 1] == a[|a| - 2];
      }
    }
  }

  /** Every generated slug has the slug shape. */
  lemma GenerateSlugIsSlug(text: string)
    ensures IsSlug(GenerateSlug(text))
  {
    StripKeepsShape(CollapseRuns(UnicodeLower(text)));
  }

  lemma {:induction false} CollapseKeepsSlugChars(s: string)
    requires SlugChars(s) && NoDoubleDash(s)
    ensures CollapseRuns(s) == s
    decreases |s|
  {
    if s != [] {
      if IsLowerAlnum(s[0]) {
        CollapseKeepsSlugChars(s[1..]);
      } else {
        assert DropRun(s[1..]) == s[1..];
        CollapseKeepsSlugChars(s[1..]);
      }
    }
  }

  /** A slug is its own slug. */
  lemma SlugIsFixed(s: string)
    requires IsSlug(s)
    ensures GenerateSlug(s) == s
  {
    UnicodeLowerKeepsLowerText(s);
    CollapseKeepsSlugChars(s);
  }

  /** `generateSlug` is idempotent, so re-applying it to the slug field's own
      value changes nothing. */
  lemma GenerateSlugIdempotent(text: string)
    ensures GenerateSlug(GenerateSlug(text)) == GenerateSlug(text)
  {
    GenerateSlugIsSlug(text);
    SlugIsFixed(GenerateSlug(text));
  }

  /** The letters and digits of a string, in order. */
  function Alnums(s: string): (r: string)
    ensures |r| <= |s|
  {
    if s == [] then [] else (if IsLowerAlnum(s[0]) then [s[0]] else []) + Alnums(s[1..])
  }

  lemma {:induction false} AlnumsConcat(a: string, b: string)
    ensures Alnums(a + b) == Alnums(a) + Alnums(b)
  {
    if a != [] {
      assert (a + b)[0] == a[0];
      assert (a + b)[1..] == a[1..] + b;
      AlnumsConcat(a[1..], b);
    } else {
      assert a + b == b;
    }
  }

  lemma {:induction false} AlnumsOfDropRun(s: string)
    ensures Alnums(DropRun(s)) == Alnums(s)
  {
    if s != [] && !IsLowerAlnum(s[0]) {
      assert DropRun(s) == DropRun(s[1..]);
      AlnumsOfDropRun(s[1..]);
    }
  }

  lemma {:induction false} AlnumsOfCollapse(s: string)
    ensures Alnums(CollapseRuns(s)) == Alnums(s)
    decreases |s|
  {
    if s != [] {
      if IsLowerAlnum(s[0]) {
        AlnumsConcat([s[0]], CollapseRuns(s[1..]));
        AlnumsOfCollapse(s[1..]);
      } else {
        AlnumsConcat("-", CollapseRuns(DropRun(s[1..])));
        AlnumsOfCollapse(DropRun(s[1..]));
        AlnumsOfDropRun(s[1..]);
      }
    }
  }

  lemma AlnumsOfStrip(s: string)
    ensures Alnums(StripEdgeDashes(s)) == Alnums(s)
  {
    var a := if s != [] && s[0] == '-' then s[1..] else s;
    if s != [] && s[0] == '-' {
      assert s == "-" + a;
      AlnumsConcat("-", a);
    }
    if a != [] && a[|a| - 1] == '-' {
      assert a == a[..|a| - 1] + "-";
      AlnumsConcat(a[..|a| - 1], "-");
    }
  }

  /** No letter or digit of the lower-cased title is lost or reordered: the
      slug only drops and merges the other characters into dashes. */
  lemma SlugKeepsLettersAndDigits(text: string)
    ensures Alnums(GenerateSlug(text)) == Alnums(UnicodeLower(text))
  {
    AlnumsOfStrip(CollapseRuns(UnicodeLower(text)));
    AlnumsOfCollapse(UnicodeLower(text));
  }

  // ---------------------------------------------------------------------------
  // The editor

  /** The object written by `handleSave`. */
  datatype PostData = PostData(
    title: string, slug: string, excerpt: string, content: string,
    featuredImage: Option<string>, published: bool, authorId: string, publishedAt: Option<string>)

  /** A write to `blog_posts`: an update by id or an insert. */
  datatype PostWrite = Update(id: string, data: PostData) | Insert(data: PostData)

  datatype Toast = Toast(title: string, description: string, destructive: bool)

  const MissingFieldsToast := Toast("Missing fields", "Please fill in all required fields.", true)
  const UpdatedToast := Toast("Post updated", "Your blog post has been updated successfully.", false)
  const CreatedToast := Toast("Post created", "Your blog post has been created successfully.", false)

  function SaveErrorToast(message: string): Toast {
    Toast("Error saving post", message, true)
  }

  /** `postData`, given the clock's ISO text. */
  function PostDataOf(title: string, slug: string, excerpt: string, content: string,
                      featuredImage: string, published: bool, userId: string, nowIso: string): PostData
  {
    PostData(title, slug, excerpt, content,
      if featuredImage != "" then Some(featuredImage) else None,
      published, userId,
      if published then Some(nowIso) else None)
  }

  /** An empty image is sent as null, a publication date exactly for a
      published post, and the author is the editing user. */
  lemma PostDataFields(title: string, slug: string, excerpt: string, content: string,
                       featuredImage: string, published: bool, userId: string, nowIso: string)
    ensures var d := PostDataOf(title, slug, excerpt, content, featuredImage, published, userId, nowIso);
      && (d.featuredImage == None <==> featuredImage == "")
      && (d.featuredImage.Some? ==> d.featuredImage.value == featuredImage)
      && (d.publishedAt.Some? <==> published)
      && d.authorId == userId
      && d.title == title && d.slug == slug && d.excerpt == excerpt && d.content == content
  {
  }

  class PostEditor {
    const postId: Option<string>
    const userId: string
    var title: string
    var slug: string
    var excerpt: string
    var content: string
    var featuredImage: string
    var published: bool
    var loading: bool
    var writes: seq<PostWrite>
    var toasts: seq<Toast>
    /** How many times `onClose` has been called. */
    var closes: nat

    /** Both ways of setting the slug pass it through `generateSlug`. */
    predicate SlugWellFormed()
      reads this
    {
      IsSlug(slug)
    }

    constructor (postId: Option<string>, userId: string)
      ensures this.postId == postId && this.userId == userId
      ensures title == "" && slug == "" && excerpt == "" && content == "" && featuredImage == ""
      ensures !published && !loading && writes == [] && toasts == [] && closes == 0
      ensures SlugWellFormed()
    {
      this.postId := postId;
      this.userId := userId;
      title := "";
      slug := "";
      excerpt := "";
      content := "";
      featuredImage := "";
      published := false;
      loading := false;
      writes := [];
      toasts := [];
      closes := 0;
    }

    /** `handleTitleChange`: the slug follows the title only for a new post. */
    method HandleTitleChange(value: string)
      requires SlugWellFormed()
      modifies this
      ensures title == value
      ensures postId.None? ==> slug == GenerateSlug(value)
      ensures postId.Some? ==> slug == old(slug)
      ensures SlugWellFormed()
      ensures excerpt == old(excerpt) && content == old(content) && featuredImage == old(featuredImage)
      ensures published == old(published) && loading == old(loading)
      ensures writes == old(writes) && toasts == old(toasts) && closes == old(closes)
    {
      title := value;
      if postId.None? {
        slug := GenerateSlug(value);
        GenerateSlugIsSlug(value);
      }
    }

    /** The slug input's `onChange`. */
    method HandleSlugChange(value: string)
      modifies this
      ensures slug == GenerateSlug(value)
      ensures SlugWellFormed()
      ensures title == old(title) && excerpt == old(excerpt) && content == old(content)
      ensures featuredImage == old(featuredImage) && published == old(published) && loading == old(loading)
      ensures writes == old(writes) && toasts == old(toasts) && closes == old(closes)
    {
      slug := GenerateSlug(value);
      GenerateSlugIsSlug(value);
    }

    /** `handleSave`, given the clock's ISO text and the error the write fails
        with, if any. */
    method HandleSave(nowIso: string, writeError: Option<string>)
      modifies this
      ensures title == old(title) && slug == old(slug) && excerpt == old(excerpt) && content == old(content)
      ensures featuredImage == old(featuredImage) && published == old(published)
      ensures (title == "" || content == "" || slug == "") ==>
        && writes == old(writes) && toasts == old(toasts) + [MissingFieldsToast]
        && closes == old(closes) && loading == old(loading)
      ensures title != "" && content != "" && slug != "" ==>
        var data := PostDataOf(title, slug, excerpt, content, featuredImage, published, userId, nowIso);
        && writes == old(writes) + [if postId.Some? then Update(postId.value, data) else Insert(data)]
        && !loading
        && (writeError.None? ==>
              toasts == old(toasts) + [if postId.Some? then UpdatedToast else CreatedToast]
              && closes == old(closes) + 1)
        && (writeError.Some? ==>
              toasts == old(toasts) + [SaveErrorToast(writeError.value)] && closes == old(closes))
    {
      if title == "" || content == "" || slug == "" {
        toasts := toasts + [MissingFieldsToast];
        return;
      }
      loading := true;
      var data := PostDataOf(title, slug, excerpt, content, featuredImage, published, userId, nowIso);
      if postId.Some? {
        writes := writes + [Update(postId.value, data)];
      } else {
        writes := writes + [Insert(data)];
      }
      if writeError.Some? {
        toasts := toasts + [SaveErrorToast(writeError.value)];
      } else {
        toasts := toasts + [if postId.Some? then UpdatedToast else CreatedToast];
        closes := closes + 1;
      }
      loading := false;
    }
  }

  /** A new post's slug follows its title; an existing post's does not. */
  method TitleScenario()
  {
    var draft := new PostEditor(None, "u1");
    draft.HandleTitleChange("Hi There");
    assert draft.slug == GenerateSlug("Hi There");
    var existing := new PostEditor(Some("p1"), "u1");
    existing.HandleTitleChange("Hi There");
    assert existing.slug == "";
    existing.HandleSave("2024-01-01T00:00:00.000Z", None);
    assert existing.writes == [] && existing.closes == 0;
  }
}

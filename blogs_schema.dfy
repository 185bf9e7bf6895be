/**
 * `models/schemas/Blogs.schemas.ts`: the blog entity. `Blog` is the class
 * whose helper methods update a blog in place; `BlogFields` is its state as a
 * value, which is also what the blog collection stores.
 */
module BlogsSchema {
  import opened Wrappers
  import opened Enums
  import opened ObjectIds
  import Text
  import Seqs

  /** `BlogsType`: the constructor's input, optional fields as `Option`. */
  datatype BlogsType = BlogsType(
    id: Option<ObjectId>, title: string, content: string, authorId: ObjectId,
    status: Option<BlogStatus>, tags: Option<seq<string>>, viewCount: Option<int>,
    isDeleted: Option<bool>, createdAt: Option<int>, updatedAt: Option<int>)

  /** Every field of a `Blogs` object (and of a stored blog document). Dates are clock readings. */
  datatype BlogFields = BlogFields(
    id: Option<ObjectId>, title: string, content: string, authorId: ObjectId,
    status: BlogStatus, tags: seq<string>, viewCount: int, isDeleted: bool,
    createdAt: int, updatedAt: int)

  /**
   * What the constructor assigns: title and content trimmed, then the `||`
   * defaults. Every status name and every array is truthy, so only an absent
   * status or tag list is replaced; `0` and `false` fall back to themselves.
   */
  function Init(blog: BlogsType, date: int): (f: BlogFields)
    ensures f.id == blog.id && f.authorId == blog.authorId
    ensures f.title == Text.Trim(blog.title) && f.content == Text.Trim(blog.content)
  {
    BlogFields(
      blog.id, Text.Trim(blog.title), Text.Trim(blog.content), blog.authorId,
      if blog.status.Some? then blog.status.value else Draft,
      if blog.tags.Some? then blog.tags.value else [],
      if blog.viewCount.Some? && blog.viewCount.value != 0 then blog.viewCount.value else 0,
      if blog.isDeleted.Some? && blog.isDeleted.value then true else false,
      if blog.createdAt.Some? then blog.createdAt.value else date,
      if blog.updatedAt.Some? then blog.updatedAt.value else date)
  }

  /** The constructor's defaults, field by field. */
  lemma InitDefaults(blog: BlogsType, date: int)
    ensures blog.status.None? ==> Init(blog, date).status == Draft
    ensures blog.status.Some? ==> Init(blog, date).status == blog.status.value
    ensures blog.tags.None? ==> Init(blog, date).tags == []
    ensures blog.tags.Some? ==> Init(blog, date).tags == blog.tags.value
    ensures Init(blog, date).viewCount == (if blog.viewCount.Some? then blog.viewCount.value else 0)
    ensures Init(blog, date).isDeleted == (blog.isDeleted == Some(true))
    ensures blog.createdAt.None? && blog.updatedAt.None? ==> Init(blog, date).createdAt == Init(blog, date).updatedAt == date
  {
  }

  /** A blog whose title and content are already trimmed, as every constructed blog is. */
  predicate Trimmed(f: BlogFields) {
    Text.IsTrimmed(f.title) && Text.IsTrimmed(f.content)
  }

  /** The constructor always yields a trimmed blog. */
  lemma InitTrimmed(blog: BlogsType, date: int)
    ensures Trimmed(Init(blog, date))
  {
    Text.TrimmedIff(blog.title);
    Text.TrimmedIff(blog.content);
  }

  /** `validateTitle`: the trimmed title is 3 to 200 UTF-16 code units long. */
  function ValidateTitle(title: string): (ok: bool)
    ensures ok <==> 3 <= Text.Utf16Length(Text.Trim(title)) <= 200
  {
    title != "" && 3 <= Text.Utf16Length(Text.Trim(title)) && Text.Utf16Length(Text.Trim(title)) <= 200
  }

  /** `validateContent`: the trimmed content is at least 10 UTF-16 code units long. */
  function ValidateContent(content: string): (ok: bool)
    ensures ok <==> Text.Utf16Length(Text.Trim(content)) >= 10
  {
    content != "" && Text.Utf16Length(Text.Trim(content)) >= 10
  }

  /** Two emoji are four code units, so they make a valid title. */
  lemma TwoEmojiTitleValid()
    ensures ValidateTitle("\U{1F600}\U{1F600}")
  {
    var s := "\U{1F600}\U{1F600}";
    Text.TrimmedIff(s);
    Text.Utf16LengthOfTwoAstral();
  }

  /** Trimming first, as the constructor does, never changes the validators' verdict. */
  lemma ValidationSurvivesTrim(s: string)
    ensures ValidateTitle(Text.Trim(s)) == ValidateTitle(s)
    ensures ValidateContent(Text.Trim(s)) == ValidateContent(s)
  {
    Text.TrimIdempotent(s);
  }

  /** `addTag`'s effect on the list: `lower(tag)` is pushed when the tag is non-empty and not yet there. */
  function AddTagTo(tags: seq<string>, tag: string): (r: seq<string>)
    ensures tag == "" || Text.Lower(tag) in tags ==> r == tags
    ensures tag != "" && Text.Lower(tag) !in tags ==> r == tags + [Text.Lower(tag)]
    ensures |tags| <= |r| <= |tags| + 1 && r[..|tags|] == tags
    ensures forall x :: x in r <==> x in tags || (tag != "" && x == Text.Lower(tag))
  {
    if tag != "" && Text.Lower(tag) !in tags then tags + [Text.Lower(tag)] else tags
  }

  /** `tags.indexOf(tag.toLowerCase())`, None for -1. */
  function TagIndex(tags: seq<string>, tag: string): (r: Option<nat>)
    ensures r.None? <==> Text.Lower(tag) !in tags
    ensures r.Some? ==> r.value < |tags| && tags[r.value] == Text.Lower(tag)
    ensures r.Some? ==> Text.Lower(tag) !in tags[..r.value]
  {
    Seqs.FirstIndex(tags, (t: string) => t == Text.Lower(tag))
  }

  /** `removeTag`'s effect on the list: the first occurrence of `lower(tag)` is spliced out. */
  function RemoveTagFrom(tags: seq<string>, tag: string): (r: seq<string>)
    ensures |r| == if Text.Lower(tag) in tags then |tags| - 1 else |tags|
    ensures forall x :: x in r ==> x in tags
  {
    match TagIndex(tags, tag)
    case None => tags
    case Some(i) => Seqs.RemoveAt(tags, i)
  }

  /** Adding a tag keeps the list duplicate-free and adds exactly `lower(tag)`, at the end, if it was new. */
  lemma AddTagSpec(tags: seq<string>, tag: string)
    ensures Seqs.Distinct(tags) ==> Seqs.Distinct(AddTagTo(tags, tag))
    ensures forall x :: x in AddTagTo(tags, tag) <==> x in tags || (tag != "" && x == Text.Lower(tag))
    ensures AddTagTo(tags, tag)[..|tags|] == tags
    ensures tag == "" || Text.Lower(tag) in tags ==> AddTagTo(tags, tag) == tags
  {
  }

  /** Removing a tag takes out exactly one copy of `lower(tag)`, if there is one, and keeps the order of the rest. */
  lemma RemoveTagSpec(tags: seq<string>, tag: string)
    ensures multiset(RemoveTagFrom(tags, tag)) == multiset(tags) - multiset{Text.Lower(tag)}
    ensures Text.Lower(tag) !in tags ==> RemoveTagFrom(tags, tag) == tags
    ensures TagIndex(tags, tag).Some? ==>
      var i := TagIndex(tags, tag).value;
      RemoveTagFrom(tags, tag) == tags[..i] + tags[i + 1..]
  {
    var t := Text.Lower(tag);
    if TagIndex(tags, tag).Some? {
      var i := TagIndex(tags, tag).value;
      var r := Seqs.RemoveAt(tags, i);
      assert multiset(r) + multiset{t} == multiset(tags);
      assert r == tags[..i] + tags[i + 1..];
    } else {
      assert t !in multiset(tags);
    }
  }

  /** On a duplicate-free list, removing a tag leaves no copy of it and no duplicate. */
  lemma RemoveTagDistinct(tags: seq<string>, tag: string)
    requires Seqs.Distinct(tags)
    ensures Seqs.Distinct(RemoveTagFrom(tags, tag))
    ensures Text.Lower(tag) !in RemoveTagFrom(tags, tag)
  {
    if TagIndex(tags, tag).Some? {
      var i := TagIndex(tags, tag).value;
      var r := Seqs.RemoveAt(tags, i);
      forall a, b | 0 <= a < b < |r| ensures r[a] != r[b] {
        var a', b' := if a < i then a else a + 1, if b < i then b else b + 1;
        assert r[a] == tags[a'] && r[b] == tags[b'];
      }
    }
  }

  /** Removing a tag that was just added restores the list. */
  lemma RemoveUndoesAdd(tags: seq<string>, tag: string)
    requires tag != "" && Text.Lower(tag) !in tags
    ensures RemoveTagFrom(AddTagTo(tags, tag), tag) == tags
  {
    var s := tags + [Text.Lower(tag)];
    assert s[..|tags|] == tags;
    assert TagIndex(s, tag) == Some(|tags|);
    assert Seqs.RemoveAt(s, |tags|) == tags;
  }

  /** `toDocument`'s plain object: every field, all of them present. */
  function AsDocument(f: BlogFields): BlogsType {
    BlogsType(f.id, f.title, f.content, f.authorId, Some(f.status), Some(f.tags),
              Some(f.viewCount), Some(f.isDeleted), Some(f.createdAt), Some(f.updatedAt))
  }

  /** The constructor rebuilds a trimmed blog from its own document, whatever the clock says. */
  lemma InitAsDocument(f: BlogFields)
    requires Trimmed(f)
    ensures forall date :: Init(AsDocument(f), date) == f
  {
    Text.TrimmedIff(f.title);
    Text.TrimmedIff(f.content);
  }

  /** `Blogs`: one blog, updated in place by its helper methods. Every helper takes the clock reading. */
  class Blog {
    var id: Option<ObjectId>
    var title: string
    var content: string
    var authorId: ObjectId
    var status: BlogStatus
    var tags: seq<string>
    var viewCount: int
    var isDeleted: bool
    var createdAt: int
    var updatedAt: int

    function Fields(): BlogFields
      reads this
    {
      BlogFields(id, title, content, authorId, status, tags, viewCount, isDeleted, createdAt, updatedAt)
    }

    /** A constructed blog stays trimmed: no helper touches the title or the content. */
    ghost predicate Valid()
      reads this
    {
      Trimmed(Fields())
    }

    constructor (blog: BlogsType, date: int)
      ensures Valid() && Fields() == Init(blog, date)
    {
      var f := Init(blog, date);
      InitTrimmed(blog, date);
      id, title, content, authorId := f.id, f.title, f.content, f.authorId;
      status, tags, viewCount, isDeleted := f.status, f.tags, f.viewCount, f.isDeleted;
      createdAt, updatedAt := f.createdAt, f.updatedAt;
    }

    method Publish(now: int)
      requires Valid()
      modifies this
      ensures Valid() && Fields() == old(Fields()).(status := Published, updatedAt := now)
    {
      status := Published;
      updatedAt := now;
    }

    method Archive(now: int)
      requires Valid()
      modifies this
      ensures Valid() && Fields() == old(Fields()).(status := Archived, updatedAt := now)
    {
      status := Archived;
      updatedAt := now;
    }

    method SoftDelete(now: int)
      requires Valid()
      modifies this
      ensures Valid() && Fields() == old(Fields()).(isDeleted := true, updatedAt := now)
    {
      isDeleted := true;
      updatedAt := now;
    }

    method IncrementViewCount(now: int)
      requires Valid()
      modifies this
      ensures Valid() && Fields() == old(Fields()).(viewCount := old(viewCount) + 1, updatedAt := now)
    {
      viewCount := viewCount + 1;
      updatedAt := now;
    }

    /** `addTag`: the date moves only when a tag is pushed. */
    method AddTag(tag: string, now: int)
      requires Valid()
      modifies this
      ensures Valid() && tags == AddTagTo(old(tags), tag)
      ensures tags != old(tags) ==> Fields() == old(Fields()).(tags := tags, updatedAt := now)
      ensures tags == old(tags) ==> Fields() == old(Fields())
    {
      var lowered := Text.Lower(tag);
      if tag != "" && lowered !in tags {
        tags := tags + [lowered];
        updatedAt := now;
      }
    }

    /** `removeTag`: the date moves only when a tag is spliced out. */
    method RemoveTag(tag: string, now: int)
      requires Valid()
      modifies this
      ensures Valid() && tags == RemoveTagFrom(old(tags), tag)
      ensures Text.Lower(tag) in old(tags) ==> Fields() == old(Fields()).(tags := tags, updatedAt := now)
      ensures Text.Lower(tag) !in old(tags) ==> Fields() == old(Fields())
    {
      var index := TagIndex(tags, tag);
      if index.Some? {
        tags := Seqs.RemoveAt(tags, index.value);
        updatedAt := now;
      }
    }

    /**
     * `toDocument`: a plain object holding every field unchanged, from which
     * the constructor rebuilds this very blog.
     */
    function ToDocument(): (d: BlogsType)
      reads this
      ensures d.id == id && d.title == title && d.content == content && d.authorId == authorId
      ensures d.status == Some(status) && d.tags == Some(tags) && d.viewCount == Some(viewCount)
      ensures d.isDeleted == Some(isDeleted) && d.createdAt == Some(createdAt) && d.updatedAt == Some(updatedAt)
      ensures Valid() ==> forall date :: Init(d, date) == Fields()
    {
      if Trimmed(Fields()) then
        InitAsDocument(Fields());
        AsDocument(Fields())
      else
        AsDocument(Fields())
    }
  }
}

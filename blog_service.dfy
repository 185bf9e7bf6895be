/**
 * `services/blog.service.ts`: the blog collection as a sequence of stored
 * documents in natural order. `updateOne` changes the first match; the
 * driver's generated `_id` and the clock are parameters.
 */
module BlogService {
  import opened Wrappers
  import opened Enums
  import opened ObjectIds
  import opened BlogsSchema
  import Text
  import Seqs

  /** `CreateBlogReqBody`; `authorId` is the requester's `user_id` string. */
  datatype CreateBlogReqBody = CreateBlogReqBody(
    title: string, content: string, authorId: string, tags: Option<seq<string>>, status: Option<BlogStatus>)

  /** `UpdateBlogReqBody`: every field optional. */
  datatype UpdateBlogReqBody = UpdateBlogReqBody(
    title: Option<string>, content: Option<string>, status: Option<BlogStatus>, tags: Option<seq<string>>)

  /** `updateData`, the `$set` document: `updatedAt` always, the other fields only when set. */
  datatype UpdateData = UpdateData(
    updatedAt: int, title: Option<string>, content: Option<string>, status: Option<BlogStatus>, tags: Option<seq<string>>)

  /** What the service rejects with: the BSON error of `new ObjectId(s)`, or the server's refusal of a negative skip. */
  datatype ServiceError = BsonError(message: string) | NegativeSkip

  /** `tags.map((tag) => tag.toLowerCase())`. */
  function LowerAll(tags: seq<string>): (r: seq<string>)
    ensures |r| == |tags|
    ensures forall i :: 0 <= i < |tags| ==> r[i] == Text.Lower(tags[i])
  {
    seq(|tags|, i requires 0 <= i < |tags| => Text.Lower(tags[i]))
  }

  /** `$set: updateData` applied to one document. */
  function ApplyUpdate(doc: BlogFields, u: UpdateData): (r: BlogFields)
    ensures r.id == doc.id && r.authorId == doc.authorId && r.viewCount == doc.viewCount
    ensures r.isDeleted == doc.isDeleted && r.createdAt == doc.createdAt && r.updatedAt == u.updatedAt
    ensures u.title.None? ==> r.title == doc.title
    ensures u.content.None? ==> r.content == doc.content
    ensures u.status.None? ==> r.status == doc.status
    ensures u.tags.None? ==> r.tags == doc.tags
    ensures forall v :: u.title == Some(v) ==> r.title == v
    ensures forall v :: u.content == Some(v) ==> r.content == v
    ensures forall v :: u.status == Some(v) ==> r.status == v
    ensures forall v :: u.tags == Some(v) ==> r.tags == v
  {
    doc.(updatedAt := u.updatedAt,
         title := if u.title.Some? then u.title.value else doc.title,
         content := if u.content.Some? then u.content.value else doc.content,
         status := if u.status.Some? then u.status.value else doc.status,
         tags := if u.tags.Some? then u.tags.value else doc.tags)
  }

  /** The document `updateBlog` leaves, field by field. */
  function Updated(doc: BlogFields, payload: UpdateBlogReqBody, now: int): (r: BlogFields)
    ensures r.id == doc.id && r.authorId == doc.authorId && r.viewCount == doc.viewCount
    ensures r.isDeleted == doc.isDeleted && r.createdAt == doc.createdAt
    ensures r.updatedAt == now
    ensures r.title == if payload.title.Some? then Text.Trim(payload.title.value) else doc.title
    ensures r.content == if payload.content.Some? then Text.Trim(payload.content.value) else doc.content
    ensures r.status == if payload.status.Some? then payload.status.value else doc.status
    ensures payload.tags.None? ==> r.tags == doc.tags
    ensures payload.tags.Some? ==>
      |r.tags| == |payload.tags.value| && forall i :: 0 <= i < |r.tags| ==> r.tags[i] == Text.Lower(payload.tags.value[i])
  {
    ApplyUpdate(doc, UpdateData(
      now,
      if payload.title.Some? then Some(Text.Trim(payload.title.value)) else None,
      if payload.content.Some? then Some(Text.Trim(payload.content.value)) else None,
      payload.status,
      if payload.tags.Some? then Some(LowerAll(payload.tags.value)) else None))
  }

  /** `findOne` / `updateOne` with `{ _id, isDeleted: false }`. */
  function FindLive(blogs: seq<BlogFields>, id: ObjectId): (r: Option<nat>)
    ensures r.Some? ==> r.value < |blogs| && blogs[r.value].id == Some(id) && !blogs[r.value].isDeleted
    ensures r.None? <==> forall j :: 0 <= j < |blogs| ==> !(blogs[j].id == Some(id) && !blogs[j].isDeleted)
  {
    Seqs.FirstIndex(blogs, (b: BlogFields) => b.id == Some(id) && !b.isDeleted)
  }

  /** `updateOne` with `{ _id }` only. */
  function FindById(blogs: seq<BlogFields>, id: ObjectId): (r: Option<nat>)
    ensures r.Some? ==> r.value < |blogs| && blogs[r.value].id == Some(id)
    ensures r.None? <==> forall j :: 0 <= j < |blogs| ==> blogs[j].id != Some(id)
  {
    Seqs.FirstIndex(blogs, (b: BlogFields) => b.id == Some(id))
  }

  /** Every stored blog has an `_id`, and no two share one. */
  predicate UniqueBlogIds(blogs: seq<BlogFields>) {
    && (forall i :: 0 <= i < |blogs| ==> blogs[i].id.Some?)
    && (forall i, j :: 0 <= i < j < |blogs| ==> blogs[i].id != blogs[j].id)
  }

  /** With unique ids, the `{ _id }` match of a live blog is that blog. */
  lemma LiveMatchIsIdMatch(blogs: seq<BlogFields>, id: ObjectId)
    requires UniqueBlogIds(blogs) && FindLive(blogs, id).Some?
    ensures FindById(blogs, id) == FindLive(blogs, id)
  {
    assert FindById(blogs, id).Some?;
  }

  /** Appending a document under an unused id keeps the ids unique. */
  lemma UniqueBlogIdsAppend(blogs: seq<BlogFields>, doc: BlogFields)
    requires UniqueBlogIds(blogs) && doc.id.Some? && FindById(blogs, doc.id.value).None?
    ensures UniqueBlogIds(blogs + [doc])
  {
  }

  /** Changing a document's other fields keeps the ids unique. */
  lemma UniqueBlogIdsUpdate(blogs: seq<BlogFields>, k: nat, doc: BlogFields)
    requires UniqueBlogIds(blogs) && k < |blogs| && doc.id == blogs[k].id
    ensures UniqueBlogIds(blogs[k := doc])
  {
    var after := blogs[k := doc];
    forall i, j | 0 <= i < j < |after| ensures after[i].id != after[j].id {
      assert after[i].id == blogs[i].id && after[j].id == blogs[j].id;
    }
  }

  /** After a soft delete (with unique ids) no live blog has that id: any later update, read or delete matches nothing. */
  lemma DeletedIsGone(blogs: seq<BlogFields>, id: ObjectId, now: int)
    requires UniqueBlogIds(blogs) && FindLive(blogs, id).Some?
    ensures var k := FindLive(blogs, id).value;
      FindLive(blogs[k := blogs[k].(isDeleted := true, updatedAt := now)], id).None?
  {
    var k := FindLive(blogs, id).value;
    var after := blogs[k := blogs[k].(isDeleted := true, updatedAt := now)];
    forall j | 0 <= j < |after| ensures !(after[j].id == Some(id) && !after[j].isDeleted) {
      if j != k {
        assert after[j].id == blogs[j].id != blogs[k].id;
      }
    }
  }

  // ---- getBlogs: filter and pagination ----

  /** The query filter: `isDeleted: false` always, plus `authorId` and `status` when given. */
  datatype BlogFilter = BlogFilter(authorId: Option<ObjectId>, status: Option<string>)

  /** `authorId` counts only when it is a non-empty valid id; `status` only when it is a non-empty string. */
  function ListFilter(authorId: Option<string>, status: Option<string>): (f: BlogFilter)
    ensures f.authorId.Some? <==> authorId.Some? && IsValid(authorId.value)
    ensures f.authorId.Some? ==> f.authorId == Parse(authorId.value)
    ensures f.status.Some? <==> status.Some? && status.value != ""
    ensures f.status.Some? ==> f.status == status
  {
    BlogFilter(
      if authorId.Some? && authorId.value != "" && IsValid(authorId.value) then Parse(authorId.value) else None,
      if status.Some? && status.value != "" then status else None)
  }

  /** Whether a document satisfies the filter. */
  predicate Matches(doc: BlogFields, f: BlogFilter) {
    && !doc.isDeleted
    && (f.authorId.Some? ==> doc.authorId == f.authorId.value)
    && (f.status.Some? ==> doc.status.Name() == f.status.value)
  }

  /** `find(filter)`, in collection order. */
  function Matching(blogs: seq<BlogFields>, f: BlogFilter): (r: seq<BlogFields>)
    ensures |r| <= |blogs|
    ensures forall d :: d in r <==> d in blogs && Matches(d, f)
  {
    if blogs == [] then []
    else (if Matches(blogs[0], f) then [blogs[0]] else []) + Matching(blogs[1..], f)
  }

  /** `Math.ceil(total / limit)`. */
  function CeilDiv(total: nat, limit: nat): (r: nat)
    requires limit > 0
    ensures (r - 1) * limit < total <= r * limit || (total == 0 && r == 0)
  {
    (total + limit - 1) / limit
  }

  lemma MulMonotone(a: int, b: int, c: nat)
    requires a <= b
    ensures a * c <= b * c
  {
  }

  /** `totalPages` is the smallest page count that holds every result. */
  lemma CeilDivIsLeast(total: nat, limit: nat)
    requires limit > 0
    ensures total <= CeilDiv(total, limit) * limit
    ensures forall n: nat :: n * limit >= total ==> CeilDiv(total, limit) <= n
  {
    var r := CeilDiv(total, limit);
    forall n: nat | n * limit >= total ensures r <= n {
      if n < r {
        MulMonotone(n, r - 1, limit);
      }
    }
  }

  /** The slice `skip(skip).limit(limit)` keeps. */
  function PageOf<T>(m: seq<T>, skip: nat, limit: nat): (r: seq<T>)
    requires limit > 0
    ensures |r| <= limit
    ensures skip >= |m| <==> r == []
  {
    if skip >= |m| then [] else m[skip..if skip + limit < |m| then skip + limit else |m|]
  }

  datatype Pagination = Pagination(total: nat, page: int, limit: int, totalPages: nat)
  datatype Listing = Listing(blogs: seq<BlogFields>, pagination: Pagination)

  /** `sort({ createdAt: -1 })`: newest first; blogs created at the same instant may come in any order. */
  predicate NewestFirst(s: seq<BlogFields>) {
    forall i, j :: 0 <= i < j < |s| ==> s[i].createdAt >= s[j].createdAt
  }

  /** An order in which the database may return the matches of `f`. */
  predicate SortedMatches(sorted: seq<BlogFields>, blogs: seq<BlogFields>, f: BlogFilter) {
    NewestFirst(sorted) && multiset(sorted) == multiset(Matching(blogs, f))
  }

  /**
   * `getBlogs(limit, page, authorId, status)` over a snapshot of the
   * collection. `sorted` is the database's newest-first arrangement of the
   * matches, from which `skip` and `limit` cut the page; `total` is
   * `countDocuments(filter)`.
   */
  function GetBlogs(blogs: seq<BlogFields>, sorted: seq<BlogFields>, limit: int, page: int,
                    authorId: Option<string>, status: Option<string>)
    : (r: Result<Listing, ServiceError>)
    requires limit > 0
    requires SortedMatches(sorted, blogs, ListFilter(authorId, status))
    ensures r.Failure? <==> page < 1
    ensures r.Success? ==>
      var m := Matching(blogs, ListFilter(authorId, status));
      && r.value.pagination == Pagination(|m|, page, limit, CeilDiv(|m|, limit))
      && r.value.blogs == PageOf(sorted, (page - 1) * limit, limit)
  {
    var skip := (page - 1) * limit;
    var m := Matching(blogs, ListFilter(authorId, status));
    if skip < 0 then Failure(NegativeSkip)
    else Success(Listing(PageOf(sorted, skip, limit), Pagination(|m|, page, limit, CeilDiv(|m|, limit))))
  }

  /** Page `page` (from 1) is non-empty exactly when `page <= totalPages`. */
  lemma PageNonEmptyIff<T>(m: seq<T>, limit: nat, page: int)
    requires limit > 0 && page >= 1
    ensures PageOf(m, (page - 1) * limit, limit) != [] <==> page <= CeilDiv(|m|, limit)
  {
    var n := CeilDiv(|m|, limit);
    if page <= n {
      MulMonotone(page - 1, n - 1, limit);
    } else {
      MulMonotone(n, page - 1, limit);
    }
  }

  /** A page holds only elements of the sequence it is cut from. */
  lemma PageMembers<T>(m: seq<T>, skip: nat, limit: nat)
    requires limit > 0
    ensures forall x :: x in PageOf(m, skip, limit) ==> x in multiset(m)
  {
    var r := PageOf(m, skip, limit);
    forall x | x in r ensures x in multiset(m) {
      var i :| 0 <= i < |r| && r[i] == x;
      assert x == m[skip + i];
    }
  }

  /** A page cut from a newest-first sequence is newest first. */
  lemma PageNewestFirst(sorted: seq<BlogFields>, skip: nat, limit: nat)
    requires limit > 0 && NewestFirst(sorted)
    ensures NewestFirst(PageOf(sorted, skip, limit))
  {
    var r := PageOf(sorted, skip, limit);
    forall i, j | 0 <= i < j < |r| ensures r[i].createdAt >= r[j].createdAt {
      assert r[i] == sorted[skip + i] && r[j] == sorted[skip + j];
    }
  }

  /** A page that starts after another ends holds no newer blog than it. */
  lemma LaterPageNotNewer(sorted: seq<BlogFields>, s1: nat, s2: nat, limit: nat)
    requires limit > 0 && s1 + limit <= s2 && NewestFirst(sorted)
    ensures forall x, y :: x in PageOf(sorted, s1, limit) && y in PageOf(sorted, s2, limit) ==> x.createdAt >= y.createdAt
  {
    var rp, rq := PageOf(sorted, s1, limit), PageOf(sorted, s2, limit);
    forall x, y | x in rp && y in rq ensures x.createdAt >= y.createdAt {
      var i :| 0 <= i < |rp| && rp[i] == x;
      var j :| 0 <= j < |rq| && rq[j] == y;
      assert x == sorted[s1 + i] && y == sorted[s2 + j];
    }
  }

  /**
   * Every listed blog is a live match, newest first, at most `limit` are
   * listed, and a page is non-empty iff its number is at most `totalPages`.
   */
  lemma GetBlogsPage(blogs: seq<BlogFields>, sorted: seq<BlogFields>, limit: int, page: int,
                     authorId: Option<string>, status: Option<string>)
    requires limit > 0 && page >= 1
    requires SortedMatches(sorted, blogs, ListFilter(authorId, status))
    ensures var r := GetBlogs(blogs, sorted, limit, page, authorId, status).value;
      && (forall d :: d in r.blogs ==> d in blogs && !d.isDeleted && Matches(d, ListFilter(authorId, status)))
      && NewestFirst(r.blogs)
      && |r.blogs| <= limit
      && (r.blogs != [] <==> page <= r.pagination.totalPages)
  {
    var m := Matching(blogs, ListFilter(authorId, status));
    var skip: nat := (page - 1) * limit;
    PageMembers(sorted, skip, limit);
    PageNewestFirst(sorted, skip, limit);
    assert forall d :: d in multiset(sorted) ==> d in m;
    assert |sorted| == |multiset(sorted)| == |m|;
    PageNonEmptyIff(sorted, limit, page);
  }

  /** Newest first across pages: every blog on an earlier page is at least as new as every blog on a later one. */
  lemma PagesNewestFirst(sorted: seq<BlogFields>, limit: nat, p: int, q: int)
    requires limit > 0 && 1 <= p < q
    requires NewestFirst(sorted)
    ensures forall x, y :: x in PageOf(sorted, (p - 1) * limit, limit) && y in PageOf(sorted, (q - 1) * limit, limit)
              ==> x.createdAt >= y.createdAt
  {
    MulMonotone(p, q - 1, limit);
    assert (p - 1) * limit + limit == p * limit;
    LaterPageNotNewer(sorted, (p - 1) * limit, (q - 1) * limit, limit);
  }

  /** The pages `1..n` laid end to end. */
  function AllPages<T>(m: seq<T>, limit: nat, n: nat): seq<T>
    requires limit > 0
  {
    if n == 0 then [] else AllPages(m, limit, n - 1) + PageOf(m, (n - 1) * limit, limit)
  }

  /** The first `n` pages are the first `n * limit` matches. */
  lemma {:induction false} AllPagesPrefix<T>(m: seq<T>, limit: nat, n: nat)
    requires limit > 0
    ensures AllPages(m, limit, n) == m[..if n * limit < |m| then n * limit else |m|]
  {
    if n > 0 {
      AllPagesPrefix(m, limit, n - 1);
      assert (n - 1) * limit + limit == n * limit;
    }
  }

  /** Pages `1..totalPages` show every match exactly once, in order. */
  lemma PagesCoverMatches<T>(m: seq<T>, limit: nat)
    requires limit > 0
    ensures AllPages(m, limit, CeilDiv(|m|, limit)) == m
  {
    AllPagesPrefix(m, limit, CeilDiv(|m|, limit));
  }

  /** Paging through `getBlogs` from 1 to `totalPages` over one arrangement of the matches shows every match exactly once. */
  lemma ListingCoversMatches(blogs: seq<BlogFields>, sorted: seq<BlogFields>, limit: int,
                             authorId: Option<string>, status: Option<string>)
    requires limit > 0
    requires SortedMatches(sorted, blogs, ListFilter(authorId, status))
    ensures var total := GetBlogs(blogs, sorted, limit, 1, authorId, status).value.pagination.totalPages;
      multiset(AllPages(sorted, limit, total)) == multiset(Matching(blogs, ListFilter(authorId, status)))
  {
    assert |sorted| == |multiset(sorted)| == |Matching(blogs, ListFilter(authorId, status))|;
    PagesCoverMatches(sorted, limit);
  }

  /** `BlogsService` over the blog collection. */
  class BlogService {
    var blogs: seq<BlogFields>

    ghost predicate Valid()
      reads this
    {
      UniqueBlogIds(blogs)
    }

    constructor ()
      ensures Valid() && blogs == []
    {
      blogs := [];
    }

    /**
     * `createBlog`: builds a `Blogs` from the payload (trimmed, defaults
     * applied) and inserts it under the driver's fresh `_id`.
     */
    method CreateBlog(payload: CreateBlogReqBody, fresh_id: ObjectId, now: int) returns (r: Result<ObjectId, ServiceError>)
      requires Valid() && FindById(blogs, fresh_id).None?
      modifies this
      ensures Valid()
      ensures match Parse(payload.authorId)
        case None => r == Failure(BsonError(INVALID_ID_MESSAGE)) && blogs == old(blogs)
        case Some(author) =>
          && r == Success(fresh_id)
          && blogs == old(blogs) + [Init(BlogsType(None, payload.title, payload.content, author, payload.status,
                                                   payload.tags, None, None, None, None), now).(id := Some(fresh_id))]
    {
      var author := Parse(payload.authorId);
      if author.None? {
        return Failure(BsonError(INVALID_ID_MESSAGE));
      }
      var blog := new Blog(BlogsType(None, payload.title, payload.content, author.value, payload.status,
                                     payload.tags, None, None, None, None), now);
      var doc := blog.Fields().(id := Some(fresh_id));
      UniqueBlogIdsAppend(blogs, doc);
      blogs := blogs + [doc];
      r := Success(fresh_id);
    }

    /**
     * `updateBlog`: builds `updateData` field by field and `$set`s it on the
     * live blog with that id. Returns `matchedCount`.
     */
    method UpdateBlog(blogId: string, payload: UpdateBlogReqBody, now: int) returns (r: Result<nat, ServiceError>)
      requires Valid()
      modifies this
      ensures Valid()
      ensures match Parse(blogId)
        case None => r == Failure(BsonError(INVALID_ID_MESSAGE)) && blogs == old(blogs)
        case Some(id) =>
          match FindLive(old(blogs), id)
          case None => r == Success(0) && blogs == old(blogs)
          case Some(k) => r == Success(1) && blogs == old(blogs)[k := Updated(old(blogs)[k], payload, now)]
    {
      var updateData := UpdateData(now, None, None, None, None);
      if payload.title.Some? {
        updateData := updateData.(title := Some(Text.Trim(payload.title.value)));
      }
      if payload.content.Some? {
        updateData := updateData.(content := Some(Text.Trim(payload.content.value)));
      }
      if payload.status.Some? {
        updateData := updateData.(status := payload.status);
      }
      if payload.tags.Some? {
        updateData := updateData.(tags := Some(LowerAll(payload.tags.value)));
      }
      var id := Parse(blogId);
      if id.None? {
        return Failure(BsonError(INVALID_ID_MESSAGE));
      }
      var k := FindLive(blogs, id.value);
      if k.None? {
        return Success(0);
      }
      var doc := ApplyUpdate(blogs[k.value], updateData);
      UniqueBlogIdsUpdate(blogs, k.value, doc);
      blogs := blogs[k.value := doc];
      r := Success(1);
    }

    /**
     * `getBlogById`: the live blog with that id, as fetched; when there is
     * one, its `viewCount` is then raised by one and `updatedAt` set.
     */
    method GetBlogById(blogId: string, now: int) returns (r: Result<Option<BlogFields>, ServiceError>)
      requires Valid()
      modifies this
      ensures Valid()
      ensures match Parse(blogId)
        case None => r == Failure(BsonError(INVALID_ID_MESSAGE)) && blogs == old(blogs)
        case Some(id) =>
          match FindLive(old(blogs), id)
          case None => r == Success(None) && blogs == old(blogs)
          case Some(k) =>
            && r == Success(Some(old(blogs)[k]))
            && blogs == old(blogs)[k := old(blogs)[k].(viewCount := old(blogs)[k].viewCount + 1, updatedAt := now)]
    {
      var id := Parse(blogId);
      if id.None? {
        return Failure(BsonError(INVALID_ID_MESSAGE));
      }
      var found := FindLive(blogs, id.value);
      if found.None? {
        return Success(None);
      }
      var blog := blogs[found.value];
      // the increment matches on `_id` alone
      LiveMatchIsIdMatch(blogs, id.value);
      var k := FindById(blogs, id.value).value;
      var doc := blogs[k].(viewCount := blogs[k].viewCount + 1, updatedAt := now);
      UniqueBlogIdsUpdate(blogs, k, doc);
      blogs := blogs[k := doc];
      r := Success(Some(blog));
    }

    /** `deleteBlog`: soft-deletes the live blog with that id. Returns `matchedCount`. */
    method DeleteBlog(blogId: string, now: int) returns (r: Result<nat, ServiceError>)
      requires Valid()
      modifies this
      ensures Valid()
      ensures match Parse(blogId)
        case None => r == Failure(BsonError(INVALID_ID_MESSAGE)) && blogs == old(blogs)
        case Some(id) =>
          match FindLive(old(blogs), id)
          case None => r == Success(0) && blogs == old(blogs)
          case Some(k) => r == Success(1) && blogs == old(blogs)[k := old(blogs)[k].(isDeleted := true, updatedAt := now)]
    {
      var id := Parse(blogId);
      if id.None? {
        return Failure(BsonError(INVALID_ID_MESSAGE));
      }
      var k := FindLive(blogs, id.value);
      if k.None? {
        return Success(0);
      }
      var doc := blogs[k.value].(isDeleted := true, updatedAt := now);
      UniqueBlogIdsUpdate(blogs, k.value, doc);
      blogs := blogs[k.value := doc];
      r := Success(1);
    }
  }
}

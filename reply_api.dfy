/**
 * The REST handlers of the review-reply service (class WC_Review_Reply_API):
 * creating a reply to a product review, listing the approved replies of a review,
 * deleting a reply, the permission gate in front of create and delete, and the
 * projection of a comment row to its wire form.
 *
 * WordPress's ambient state becomes explicit: the comment table (a Comments.Table
 * value, or the CommentStore object for the two handlers that change it), the
 * post table as a map from post id to post_type, the current user with the
 * capabilities granted to it, the clock, get_comment_link, and whether the
 * database accepts a write.
 */
module ReplyApi {
  import opened Wrappers
  import opened Comments

  const ModerateComments := "moderate_comments"
  const ManageWooCommerce := "manage_woocommerce"
  const ProductPostType := "product"

  /** wp_get_current_user(), with the capabilities current_user_can grants it; id 0 when nobody is logged in. */
  datatype User = User(id: nat, displayName: string, email: string, caps: set<string>)

  datatype ErrorCode =
    InvalidReview | InvalidReply | ReplyFailed | DeleteFailed | RestForbidden | RestMissingCallbackParam

  /** A WP_Error: machine-readable code, human-readable message, HTTP status. */
  datatype Error = Error(code: ErrorCode, message: string, status: nat)

  datatype Result<T> = Ok(value: T) | Err(error: Error)

  /** The parameters of POST /reviews/{id}/reply, already sanitized; absent optional ones are None. */
  datatype CreateRequest = CreateRequest(
    reviewId: nat,
    content: string,
    authorName: Option<string>,
    authorEmail: Option<string>)

  /**
   * The parameters of POST /reviews/{id}/reply as they arrive, before the REST
   * server has checked that the required `content` is there.
   */
  datatype CreateParams = CreateParams(
    reviewId: nat,
    content: Option<string>,
    authorName: Option<string>,
    authorEmail: Option<string>)

  /** The time wp_insert_comment stamps on a new row. */
  datatype Now = Now(local: int, gmt: int)

  /** format_reply's array. */
  datatype FormattedReply = FormattedReply(
    id: nat,
    parentId: nat,
    productId: nat,
    author: string,
    authorEmail: string,
    content: string,
    date: int,
    dateGmt: int,
    status: Approval,
    link: string)

  datatype CreateResponse = CreateResponse(replyId: nat, reply: FormattedReply)
  datatype ListResponse = ListResponse(reviewId: nat, count: nat, replies: seq<FormattedReply>)
  datatype DeleteResponse = DeleteResponse(replyId: nat)

  // ---------------------------------------------------------------------------
  // Errors

  /** Decimal digits of `n`, as PHP prints an integer. */
  function NatToString(n: nat): (s: string)
    ensures |s| >= 1
    ensures forall i :: 0 <= i < |s| ==> '0' <= s[i] <= '9'
  {
    if n < 10 then [(n + '0' as int) as char]
    else NatToString(n / 10) + [(n % 10 + '0' as int) as char]
  }

  function ReviewNotFound(id: nat): Error
  {
    Error(InvalidReview, "Review not found with ID: " + NatToString(id), 404)
  }

  const NotProductReview := Error(InvalidReview, "This comment is not a product review", 400)
  const CreateFailed := Error(ReplyFailed, "Failed to create reply", 500)

  function ReplyNotFound(id: nat): Error
  {
    Error(InvalidReply, "Reply not found with ID: " + NatToString(id), 404)
  }

  const NotAReply := Error(InvalidReply, "This is not a reply, it is a top-level review", 400)
  const DeleteFailedError := Error(DeleteFailed, "Failed to delete reply", 500)

  /** What the REST server answers when a required parameter, here `content`, is absent. */
  const MissingContent := Error(RestMissingCallbackParam, "Missing parameter(s): content", 400)

  /** What the REST server answers when a permission callback says no. */
  function Forbidden(user: User): (e: Error)
    ensures e.code == RestForbidden
    ensures e.status == (if user.id == 0 then 401 else 403)
  {
    Error(RestForbidden, "Sorry, you are not allowed to do that.",
          if user.id == 0 then 401 else 403)
  }

  // ---------------------------------------------------------------------------
  // check_permission

  /** The permission callback of the create and delete routes. */
  function CheckPermission(user: User): (granted: bool)
    ensures granted <==> ModerateComments in user.caps || ManageWooCommerce in user.caps
  {
    ModerateComments in user.caps || ManageWooCommerce in user.caps
  }

  // ---------------------------------------------------------------------------
  // format_reply

  /** The wire form of row `id`; `link` is what get_comment_link returns for it. */
  function FormatReply(id: nat, c: Comment, link: string): (r: FormattedReply)
    ensures r.id == id && r.link == link
    ensures r.parentId == c.parent && r.productId == c.postId
    ensures r.author == c.author && r.authorEmail == c.authorEmail && r.content == c.content
    ensures r.date == c.date && r.dateGmt == c.dateGmt && r.status == c.approved
  {
    FormattedReply(id, c.parent, c.postId, c.author, c.authorEmail, c.content,
                   c.date, c.dateGmt, c.approved, link)
  }

  /** The wire form loses only comment_type and user_id: everything else can be read back from it. */
  lemma FormatReplyInjective(i1: nat, c1: Comment, l1: string, i2: nat, c2: Comment, l2: string)
    ensures FormatReply(i1, c1, l1) == FormatReply(i2, c2, l2) <==>
              i1 == i2 && l1 == l2 && c1.(commentType := c2.commentType, userId := c2.userId) == c2
  {
  }

  // ---------------------------------------------------------------------------
  // create_reply

  /** get_post finds the post (never for id 0) and its post_type is "product". */
  predicate IsProductPost(posts: map<nat, string>, postId: nat)
  {
    postId != 0 && postId in posts && posts[postId] == ProductPostType
  }

  /** PHP's `$given ?: $fallback` on an optional string parameter: null, "" and "0" are all falsy. */
  function OrElse(given: Option<string>, fallback: string): (r: string)
    ensures given.Some? && given.value != "" && given.value != "0" ==> r == given.value
    ensures given.None? || given.value == "" || given.value == "0" ==> r == fallback
  {
    if given.Some? && given.value != "" && given.value != "0" then given.value else fallback
  }

  /** The row create_reply hands to wp_insert_comment for a reply to `review`. */
  function NewReply(review: Comment, user: User, req: CreateRequest, now: Now): (c: Comment)
    ensures c.parent == req.reviewId && c.postId == review.postId
    ensures c.approved == Approved && c.commentType == "comment" && c.userId == user.id
    ensures c.content == req.content && c.date == now.local && c.dateGmt == now.gmt
    ensures c.author == OrElse(req.authorName, user.displayName)
    ensures c.authorEmail == OrElse(req.authorEmail, user.email)
  {
    Comment(
      postId := review.postId,
      parent := req.reviewId,
      author := OrElse(req.authorName, user.displayName),
      authorEmail := OrElse(req.authorEmail, user.email),
      content := req.content,
      date := now.local,
      dateGmt := now.gmt,
      approved := Approved,
      commentType := "comment",
      userId := user.id)
  }

  /**
   * What create_reply answers and the table it leaves. Nothing checks that the
   * target row is itself top-level, so a reply to a reply is accepted.
   */
  function CreateReplyOutcome(t: Table, posts: map<nat, string>, user: User, req: CreateRequest,
                              now: Now, link: nat -> string, rowInserted: bool)
    : (out: (Result<CreateResponse>, Table))
    requires WellFormed(t)
    ensures WellFormed(out.1)
    // an unknown review: 404 and nothing stored
    ensures req.reviewId !in t.rows <==> out.0 == Err(ReviewNotFound(req.reviewId))
    // a comment whose post is missing or is not a product: 400 and nothing stored
    ensures (req.reviewId in t.rows && !IsProductPost(posts, t.rows[req.reviewId].postId))
              <==> out.0 == Err(NotProductReview)
    ensures out.0 == Err(CreateFailed) <==>
              req.reviewId in t.rows && IsProductPost(posts, t.rows[req.reviewId].postId) && !rowInserted
    ensures out.0.Err? ==> out.1 == t
    ensures out.0.Ok? <==>
              req.reviewId in t.rows && IsProductPost(posts, t.rows[req.reviewId].postId) && rowInserted
    // success: exactly one new row, every old row untouched
    ensures out.0.Ok? ==>
              var id := out.0.value.replyId;
              && id !in t.rows
              && out.1.rows.Keys == t.rows.Keys + {id}
              && (forall k :: k in t.rows ==> out.1.rows[k] == t.rows[k])
              && var c := out.1.rows[id];
              && c.parent == req.reviewId
              && c.postId == t.rows[req.reviewId].postId
              && c.content == req.content
              && c.approved == Approved
              && c.author == OrElse(req.authorName, user.displayName)
              && c.authorEmail == OrElse(req.authorEmail, user.email)
              && c.userId == user.id
              && c.dateGmt == now.gmt && c.date == now.local
              && out.0.value.reply == FormatReply(id, c, link(id))
              && out.0.value.reply.parentId == req.reviewId
  {
    if req.reviewId !in t.rows then
      (Err(ReviewNotFound(req.reviewId)), t)
    else
      var review := t.rows[req.reviewId];
      if !IsProductPost(posts, review.postId) then
        (Err(NotProductReview), t)
      else if !rowInserted then
        (Err(CreateFailed), t)
      else
        var id := t.nextId;
        var t' := Inserted(t, NewReply(review, user, req, now));
        (Ok(CreateResponse(id, FormatReply(id, t'.rows[id], link(id)))), t')
  }

  /** create_reply, changing the comment table in place. */
  method CreateReply(store: CommentStore, posts: map<nat, string>, user: User, req: CreateRequest,
                     now: Now, link: nat -> string, rowInserted: bool)
    returns (r: Result<CreateResponse>)
    requires store.Valid()
    modifies store
    ensures store.Valid()
    ensures (r, store.State()) ==
            CreateReplyOutcome(old(store.State()), posts, user, req, now, link, rowInserted)
  {
    var review := store.Get(req.reviewId);
    if review.None? {
      return Err(ReviewNotFound(req.reviewId));
    }
    if !IsProductPost(posts, review.value.postId) {
      return Err(NotProductReview);
    }
    var replyId := store.Insert(NewReply(review.value, user, req, now), rowInserted);
    if replyId == 0 {
      return Err(CreateFailed);
    }
    var reply := store.Get(replyId);
    r := Ok(CreateResponse(replyId, FormatReply(replyId, reply.value, link(replyId))));
  }

  /**
   * POST /reviews/{id}/reply: the REST server first refuses a request without the
   * required `content`, then asks the permission callback, and only then runs the
   * handler. A logged-out request without content is therefore a 400, not a 401.
   */
  method CreateReplyRoute(store: CommentStore, posts: map<nat, string>, user: User, params: CreateParams,
                          now: Now, link: nat -> string, rowInserted: bool)
    returns (r: Result<CreateResponse>)
    requires store.Valid()
    modifies store
    ensures store.Valid()
    ensures params.content.None? ==> r == Err(MissingContent) && store.State() == old(store.State())
    ensures params.content.Some? && !CheckPermission(user) ==>
              r == Err(Forbidden(user)) && store.State() == old(store.State())
    ensures params.content.Some? && CheckPermission(user) ==>
              var req := CreateRequest(params.reviewId, params.content.value,
                                       params.authorName, params.authorEmail);
              (r, store.State()) ==
              CreateReplyOutcome(old(store.State()), posts, user, req, now, link, rowInserted)
  {
    if params.content.None? {
      return Err(MissingContent);
    }
    if !CheckPermission(user) {
      return Err(Forbidden(user));
    }
    var req := CreateRequest(params.reviewId, params.content.value, params.authorName, params.authorEmail);
    r := CreateReply(store, posts, user, req, now, link, rowInserted);
  }

  // ---------------------------------------------------------------------------
  // get_replies

  /** get_comments's order for orderby comment_date_gmt ASC, with WordPress's comment_ID tie-break. */
  predicate Precedes(rows: map<nat, Comment>, a: nat, b: nat)
    requires a in rows && b in rows
  {
    rows[a].dateGmt < rows[b].dateGmt || (rows[a].dateGmt == rows[b].dateGmt && a <= b)
  }

  predicate IsApprovedChild(rows: map<nat, Comment>, id: nat, parent: nat)
    requires id in rows
  {
    rows[id].parent == parent && rows[id].approved == Approved
  }

  /** The ids get_comments(parent => parent, status => approve) selects. */
  function ApprovedChildren(rows: map<nat, Comment>, parent: nat): (ids: set<nat>)
    ensures forall id :: id in ids <==> id in rows && IsApprovedChild(rows, id, parent)
  {
    set id | id in rows && IsApprovedChild(rows, id, parent)
  }

  /** Precedes is a total, transitive order on rows. */
  lemma PrecedesTotalTransitive(rows: map<nat, Comment>, a: nat, b: nat, c: nat)
    requires a in rows && b in rows && c in rows
    ensures Precedes(rows, a, b) || Precedes(rows, b, a)
    ensures Precedes(rows, a, b) && Precedes(rows, b, c) ==> Precedes(rows, a, c)
  {
  }

  /** Every non-empty set of rows has a first row in get_comments's order. */
  lemma {:induction false} FirstExists(rows: map<nat, Comment>, ids: set<nat>)
    requires ids != {} && ids <= rows.Keys
    ensures exists x :: x in ids && forall y :: y in ids ==> Precedes(rows, x, y)
    decreases |ids|
  {
    var y :| y in ids;
    var rest := ids - {y};
    if rest == {} {
      forall z | z in ids ensures Precedes(rows, y, z) {
        assert z !in rest;
      }
    } else {
      FirstExists(rows, rest);
      var x :| x in rest && forall z :: z in rest ==> Precedes(rows, x, z);
      PrecedesTotalTransitive(rows, x, y, x);
      if Precedes(rows, x, y) {
        forall z | z in ids ensures Precedes(rows, x, z) {
          if z != y {
            assert z in rest;
          }
        }
      } else {
        forall z | z in ids ensures Precedes(rows, y, z) {
          if z != y {
            assert z in rest;
            PrecedesTotalTransitive(rows, y, x, z);
          }
        }
      }
    }
  }

  /** The ids of `ids` in get_comments's order: each exactly once, strictly ascending. */
  function OrderedIds(rows: map<nat, Comment>, ids: set<nat>): (r: seq<nat>)
    requires ids <= rows.Keys
    ensures forall i :: 0 <= i < |r| ==> r[i] in ids
    ensures forall id :: id in ids ==> id in r
    ensures forall i, j :: 0 <= i < j < |r| ==> r[i] != r[j] && Precedes(rows, r[i], r[j])
    decreases |ids|
  {
    if ids == {} then []
    else
      FirstExists(rows, ids);
      var first :| first in ids && forall y :: y in ids ==> Precedes(rows, first, y);
      [first] + OrderedIds(rows, ids - {first})
  }

  /** Strictly earlier in get_comments's order, read off the wire form. */
  predicate ListedBefore(a: FormattedReply, b: FormattedReply)
  {
    a.dateGmt < b.dateGmt || (a.dateGmt == b.dateGmt && a.id < b.id)
  }

  /**
   * `rs` lists the approved replies of `reviewId`: every entry is the wire form of
   * an approved child row, every approved child row has an entry, and the
   * entries run in strictly ascending (date_gmt, id) order.
   */
  ghost predicate IsReplyListing(rows: map<nat, Comment>, reviewId: nat, link: nat -> string,
                                 rs: seq<FormattedReply>)
  {
    && (forall i :: 0 <= i < |rs| ==>
          && rs[i].id in rows
          && IsApprovedChild(rows, rs[i].id, reviewId)
          && rs[i] == FormatReply(rs[i].id, rows[rs[i].id], link(rs[i].id)))
    && (forall id :: id in rows && IsApprovedChild(rows, id, reviewId) ==>
          exists i :: 0 <= i < |rs| && rs[i].id == id)
    && (forall i, j :: 0 <= i < j < |rs| ==> ListedBefore(rs[i], rs[j]))
  }

  /**
   * get_replies: 404 for an unknown review, otherwise the approved replies in
   * ascending date_gmt order and their count. The review's post type is not
   * checked, and the table is only read.
   */
  function GetReplies(rows: map<nat, Comment>, reviewId: nat, link: nat -> string)
    : (r: Result<ListResponse>)
    ensures r.Err? <==> reviewId !in rows
    ensures r.Err? ==> r.error == ReviewNotFound(reviewId)
    ensures r.Ok? ==> && r.value.reviewId == reviewId
                      && r.value.count == |r.value.replies|
                      && IsReplyListing(rows, reviewId, link, r.value.replies)
  {
    if reviewId !in rows then Err(ReviewNotFound(reviewId))
    else
      var ids := OrderedIds(rows, ApprovedChildren(rows, reviewId));
      var replies := FormatAll(rows, ids, link);
      OrderedRepliesAreListing(rows, reviewId, link, ids);
      Ok(ListResponse(reviewId, |replies|, replies))
  }

  /** array_map(format_reply, ...) over rows given by id. */
  function FormatAll(rows: map<nat, Comment>, ids: seq<nat>, link: nat -> string): (rs: seq<FormattedReply>)
    requires forall i :: 0 <= i < |ids| ==> ids[i] in rows
    ensures |rs| == |ids|
    ensures forall i :: 0 <= i < |ids| ==> rs[i] == FormatReply(ids[i], rows[ids[i]], link(ids[i]))
  {
    seq(|ids|, i requires 0 <= i < |ids| => FormatReply(ids[i], rows[ids[i]], link(ids[i])))
  }

  /** Formatting the ordered approved children gives a listing. */
  lemma OrderedRepliesAreListing(rows: map<nat, Comment>, reviewId: nat, link: nat -> string, ids: seq<nat>)
    requires ids == OrderedIds(rows, ApprovedChildren(rows, reviewId))
    ensures forall i :: 0 <= i < |ids| ==> ids[i] in rows
    ensures IsReplyListing(rows, reviewId, link, FormatAll(rows, ids, link))
  {
    var children := ApprovedChildren(rows, reviewId);
    var replies := FormatAll(rows, ids, link);
    forall i | 0 <= i < |replies|
      ensures replies[i].id in rows && IsApprovedChild(rows, replies[i].id, reviewId)
      ensures replies[i] == FormatReply(replies[i].id, rows[replies[i].id], link(replies[i].id))
    {
      assert ids[i] in children;
    }
    forall id | id in rows && IsApprovedChild(rows, id, reviewId)
      ensures exists i :: 0 <= i < |replies| && replies[i].id == id
    {
      assert id in children;
      var i :| 0 <= i < |ids| && ids[i] == id;
      assert replies[i].id == id;
    }
    forall i, j | 0 <= i < j < |replies| ensures ListedBefore(replies[i], replies[j]) {
      assert ids[i] != ids[j] && Precedes(rows, ids[i], ids[j]);
    }
  }

  ghost predicate SameElements(a: seq<FormattedReply>, b: seq<FormattedReply>)
  {
    forall x :: x in a <==> x in b
  }

  predicate StrictlyListed(a: seq<FormattedReply>)
  {
    forall i, j :: 0 <= i < j < |a| ==> ListedBefore(a[i], a[j])
  }

  lemma HeadIsElement(b: seq<FormattedReply>)
    requires b != []
    ensures b[0] in b
  {
  }

  /** Two strictly ordered lists with the same entries are the same list. */
  lemma {:induction false} StrictlyListedUnique(a: seq<FormattedReply>, b: seq<FormattedReply>)
    requires StrictlyListed(a) && StrictlyListed(b) && SameElements(a, b)
    ensures a == b
    decreases |a|
  {
    if a == [] {
      if b != [] {
        HeadIsElement(b);
        assert false;
      }
    } else {
      assert a[0] in a;
      var j :| 0 <= j < |b| && b[j] == a[0];
      assert b[0] in b;
      var k :| 0 <= k < |a| && a[k] == b[0];
      assert a[0] == b[0];
      forall x ensures x in a[1..] <==> x in b[1..] {
        if x in a[1..] {
          var p :| 1 <= p < |a| && a[p] == x;
          assert ListedBefore(a[0], a[p]);
          assert x in b;
          var q :| 0 <= q < |b| && b[q] == x;
          assert q != 0;
          assert b[1..][q - 1] == x;
        }
        if x in b[1..] {
          var q :| 1 <= q < |b| && b[q] == x;
          assert ListedBefore(b[0], b[q]);
          assert x in a;
          var p :| 0 <= p < |a| && a[p] == x;
          assert p != 0;
          assert a[1..][p - 1] == x;
        }
      }
      StrictlyListedUnique(a[1..], b[1..]);
      assert a == [a[0]] + a[1..] && b == [b[0]] + b[1..];
    }
  }

  /**
   * The listing is determined: any list meeting IsReplyListing is the one
   * GetReplies returns, so the order and the selection leave no freedom.
   */
  lemma ReplyListingUnique(rows: map<nat, Comment>, reviewId: nat, link: nat -> string,
                           a: seq<FormattedReply>, b: seq<FormattedReply>)
    requires IsReplyListing(rows, reviewId, link, a) && IsReplyListing(rows, reviewId, link, b)
    ensures a == b
  {
    forall x ensures x in a ==> x in b {
      if x in a {
        var i :| 0 <= i < |a| && a[i] == x;
        var j :| 0 <= j < |b| && b[j].id == x.id;
        assert b[j] == x;
      }
    }
    forall x ensures x in b ==> x in a {
      if x in b {
        var j :| 0 <= j < |b| && b[j] == x;
        var i :| 0 <= i < |a| && a[i].id == x.id;
        assert a[i] == x;
      }
    }
    StrictlyListedUnique(a, b);
  }

  /** A reply that create_reply stored shows up in the listing of its review. */
  lemma CreatedReplyIsListed(t: Table, posts: map<nat, string>, user: User, req: CreateRequest,
                             now: Now, link: nat -> string)
    requires WellFormed(t)
    requires CreateReplyOutcome(t, posts, user, req, now, link, true).0.Ok?
    ensures var out := CreateReplyOutcome(t, posts, user, req, now, link, true);
            var listed := GetReplies(out.1.rows, req.reviewId, link);
            && listed.Ok?
            && out.0.value.reply in listed.value.replies
  {
    var out := CreateReplyOutcome(t, posts, user, req, now, link, true);
    var id := out.0.value.replyId;
    var listed := GetReplies(out.1.rows, req.reviewId, link);
    assert IsApprovedChild(out.1.rows, id, req.reviewId);
    var i :| 0 <= i < |listed.value.replies| && listed.value.replies[i].id == id;
  }

  // ---------------------------------------------------------------------------
  // delete_reply

  /**
   * What delete_reply answers and the table it leaves. Unknown ids and top-level
   * reviews are refused before anything is touched; a failed row delete still
   * leaves wp_delete_comment's re-parenting of the children behind.
   */
  function DeleteReplyOutcome(t: Table, id: nat, rowDeleted: bool)
    : (out: (Result<DeleteResponse>, Table))
    requires WellFormed(t)
    ensures WellFormed(out.1) && out.1.nextId == t.nextId
    ensures id !in t.rows <==> out.0 == Err(ReplyNotFound(id))
    ensures id in t.rows && t.rows[id].parent == 0 <==> out.0 == Err(NotAReply)
    ensures out.0 == Err(ReplyNotFound(id)) || out.0 == Err(NotAReply) ==> out.1 == t
    ensures out.0 == Err(DeleteFailedError) <==> id in t.rows && t.rows[id].parent != 0 && !rowDeleted
    ensures out.0 == Err(DeleteFailedError) ==> out.1.rows == Reparented(t.rows, id)
    ensures out.0.Ok? <==> id in t.rows && t.rows[id].parent != 0 && rowDeleted
    ensures out.0.Ok? ==> out.0.value.replyId == id && out.1.rows == Deleted(t.rows, id)
  {
    if id !in t.rows then
      (Err(ReplyNotFound(id)), t)
    else if t.rows[id].parent == 0 then
      (Err(NotAReply), t)
    else if !rowDeleted then
      (Err(DeleteFailedError), Table(Reparented(t.rows, id), t.nextId))
    else
      (Ok(DeleteResponse(id)), Table(Deleted(t.rows, id), t.nextId))
  }

  /** delete_reply, changing the comment table in place. */
  method DeleteReply(store: CommentStore, id: nat, rowDeleted: bool) returns (r: Result<DeleteResponse>)
    requires store.Valid()
    modifies store
    ensures store.Valid()
    ensures (r, store.State()) == DeleteReplyOutcome(old(store.State()), id, rowDeleted)
  {
    var reply := store.Get(id);
    if reply.None? {
      return Err(ReplyNotFound(id));
    }
    if reply.value.parent == 0 {
      return Err(NotAReply);
    }
    var deleted := store.Delete(id, rowDeleted);
    if !deleted {
      return Err(DeleteFailedError);
    }
    r := Ok(DeleteResponse(id));
  }

  /** DELETE /replies/{id}: the permission callback runs before the handler. */
  method DeleteReplyRoute(store: CommentStore, user: User, id: nat, rowDeleted: bool)
    returns (r: Result<DeleteResponse>)
    requires store.Valid()
    modifies store
    ensures store.Valid()
    ensures !CheckPermission(user) ==> r == Err(Forbidden(user)) && store.State() == old(store.State())
    ensures CheckPermission(user) ==>
              (r, store.State()) == DeleteReplyOutcome(old(store.State()), id, rowDeleted)
  {
    if !CheckPermission(user) {
      return Err(Forbidden(user));
    }
    r := DeleteReply(store, id, rowDeleted);
  }

  /** A reply without replies of its own: deleting it removes that one row and changes nothing else. */
  lemma DeleteLeafRemovesOnlyIt(t: Table, id: nat)
    requires WellFormed(t)
    requires forall k :: k in t.rows ==> t.rows[k].parent != id
    requires DeleteReplyOutcome(t, id, true).0.Ok?
    ensures DeleteReplyOutcome(t, id, true).1.rows == t.rows - {id}
  {
  }

  /**
   * Deleting a reply right after creating it gives back the rows the table had
   * before: the new row is a reply (its parent is a positive id) and has no
   * replies of its own, unless some old row already names the next id as its
   * comment_parent. Only the auto-increment counter stays advanced.
   */
  lemma CreateThenDeleteRestores(t: Table, posts: map<nat, string>, user: User, req: CreateRequest,
                                 now: Now, link: nat -> string)
    requires WellFormed(t)
    requires forall k :: k in t.rows ==> t.rows[k].parent != t.nextId
    requires CreateReplyOutcome(t, posts, user, req, now, link, true).0.Ok?
    ensures var out := CreateReplyOutcome(t, posts, user, req, now, link, true);
            var back := DeleteReplyOutcome(out.1, out.0.value.replyId, true);
            && back.0 == Ok(DeleteResponse(out.0.value.replyId))
            && back.1.rows == t.rows
  {
    var out := CreateReplyOutcome(t, posts, user, req, now, link, true);
    var id := out.0.value.replyId;
    forall k | k in out.1.rows ensures out.1.rows[k].parent != id {
      if k != id {
        assert out.1.rows[k] == t.rows[k];
      }
    }
    var back := DeleteReplyOutcome(out.1, id, true);
    assert back.1.rows == t.rows;
  }

  /** Deleting the same reply twice: the second call is a 404, not a success. */
  lemma DeleteTwiceNotFound(t: Table, id: nat, rowDeleted: bool)
    requires WellFormed(t)
    requires DeleteReplyOutcome(t, id, true).0.Ok?
    ensures var t' := DeleteReplyOutcome(t, id, true).1;
            DeleteReplyOutcome(t', id, rowDeleted) == (Err(ReplyNotFound(id)), t')
  {
  }

  /**
   * The target of create_reply need not be top-level: whenever the target is itself
   * a reply on a product post, the new row is stored under it.
   */
  lemma ReplyToReplyAccepted(t: Table, posts: map<nat, string>, user: User, req: CreateRequest,
                             now: Now, link: nat -> string)
    requires WellFormed(t)
    requires req.reviewId in t.rows && t.rows[req.reviewId].parent != 0
    requires IsProductPost(posts, t.rows[req.reviewId].postId)
    ensures var out := CreateReplyOutcome(t, posts, user, req, now, link, true);
            && out.0.Ok?
            && out.1.rows[out.0.value.replyId].parent == req.reviewId
            && out.1.rows[out.0.value.replyId].postId == t.rows[req.reviewId].postId
  {
  }

  /** One instance of ReplyToReplyAccepted: row 2 answers review 1 and is answered in turn. */
  lemma ReplyToReplyExample()
    ensures var review := Comment(10, 0, "a", "a@x", "great", 1, 1, Approved, "review", 0);
            var reply := Comment(10, 1, "b", "b@x", "thanks", 2, 2, Approved, "comment", 1);
            var t := Table(map[1 := review, 2 := reply], 3);
            var user := User(1, "b", "b@x", {ModerateComments});
            var req := CreateRequest(2, "again", None, None);
            var out := CreateReplyOutcome(t, map[10 := ProductPostType], user, req, Now(3, 3), _ => "", true);
            out.0.Ok? && out.1.rows[out.0.value.replyId].parent == 2
  {
  }
}

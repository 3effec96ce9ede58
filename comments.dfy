/**
 * WordPress's comment table as the review-reply handlers see it: rows keyed by
 * comment_ID, a review being a row with comment_parent 0 and a reply a row whose
 * comment_parent names another row. The table is an external collaborator; the
 * class CommentStore below stands for the two calls that change it,
 * wp_insert_comment and wp_delete_comment.
 */
module Comments {
  import opened Wrappers

  /** comment_approved: '0', '1', 'spam' or 'trash'. */
  datatype Approval = Unapproved | Approved | Spam | Trash

  /** One row of the comment table. Dates are opaque, totally ordered keys. */
  datatype Comment = Comment(
    postId: nat,        // comment_post_ID
    parent: nat,        // comment_parent: 0 for a top-level review
    author: string,
    authorEmail: string,
    content: string,
    date: int,          // comment_date (site-local time)
    dateGmt: int,       // comment_date_gmt
    approved: Approval,
    commentType: string,
    userId: nat)

  /** The rows together with the table's AUTO_INCREMENT counter. */
  datatype Table = Table(rows: map<nat, Comment>, nextId: nat)

  /** Ids are positive and all below the counter, so the counter is always a fresh id. */
  predicate WellFormed(t: Table)
  {
    1 <= t.nextId && forall id :: id in t.rows ==> 1 <= id < t.nextId
  }

  /** The table after wp_insert_comment stored `c`: the new row takes the next id. */
  function Inserted(t: Table, c: Comment): (r: Table)
    requires WellFormed(t)
    ensures WellFormed(r)
    ensures t.nextId !in t.rows && r.rows.Keys == t.rows.Keys + {t.nextId}
    ensures r.rows[t.nextId] == c
    ensures forall id :: id in t.rows ==> r.rows[id] == t.rows[id]
  {
    Table(t.rows[t.nextId := c], t.nextId + 1)
  }

  /**
   * wp_delete_comment first moves the children of the doomed row up a level:
   * every row whose parent is `id` takes the parent of `id`.
   */
  function Reparented(rows: map<nat, Comment>, id: nat): (r: map<nat, Comment>)
    requires id in rows
    ensures r.Keys == rows.Keys
    ensures forall k :: k in rows && rows[k].parent != id ==> r[k] == rows[k]
    ensures forall k :: k in rows && rows[k].parent == id ==>
              r[k] == rows[k].(parent := rows[id].parent)
  {
    map k | k in rows :: if rows[k].parent == id then rows[k].(parent := rows[id].parent) else rows[k]
  }

  /** The rows after a forced wp_delete_comment of `id` that reached the database. */
  function Deleted(rows: map<nat, Comment>, id: nat): (r: map<nat, Comment>)
    requires id in rows
    ensures r.Keys == rows.Keys - {id}
    ensures forall k :: k in r && rows[k].parent != id ==> r[k] == rows[k]
    ensures forall k :: k in r && rows[k].parent == id ==> r[k] == rows[k].(parent := rows[id].parent)
  {
    Reparented(rows, id) - {id}
  }

  /** The comment table, changed in place by the two WordPress calls the handlers make. */
  class CommentStore {
    var rows: map<nat, Comment>
    var nextId: nat

    function State(): Table
      reads this
    {
      Table(rows, nextId)
    }

    ghost predicate Valid()
      reads this
    {
      WellFormed(State())
    }

    constructor (initial: Table)
      requires WellFormed(initial)
      ensures Valid() && State() == initial
    {
      rows := initial.rows;
      nextId := initial.nextId;
    }

    /** get_comment: the row with that id, if there is one. */
    function Get(id: nat): (r: Option<Comment>)
      reads this
      ensures r.Some? <==> id in rows
      ensures r.Some? ==> r.value == rows[id]
    {
      if id in rows then Some(rows[id]) else None
    }

    /**
     * wp_insert_comment: 0 (PHP's false) when the database refuses the row, which
     * the caller cannot foresee and is given here as `rowInserted`; otherwise the
     * new row's id.
     */
    method Insert(c: Comment, rowInserted: bool) returns (id: nat)
      requires Valid()
      modifies this
      ensures Valid()
      ensures !rowInserted ==> id == 0 && State() == old(State())
      ensures rowInserted ==> id == old(nextId) && State() == Inserted(old(State()), c)
    {
      if !rowInserted {
        return 0;
      }
      id := nextId;
      rows := rows[id := c];
      nextId := nextId + 1;
    }

    /**
     * wp_delete_comment(id, true): false for an unknown id; otherwise the children
     * are moved up a level first, and then the row itself is deleted if the
     * database accepts it (`rowDeleted`). The re-parenting stays even when the
     * row delete fails.
     */
    method Delete(id: nat, rowDeleted: bool) returns (deleted: bool)
      requires Valid()
      modifies this
      ensures Valid() && nextId == old(nextId)
      ensures deleted <==> id in old(rows) && rowDeleted
      ensures id !in old(rows) ==> rows == old(rows)
      ensures id in old(rows) && rowDeleted ==> rows == Deleted(old(rows), id)
      ensures id in old(rows) && !rowDeleted ==> rows == Reparented(old(rows), id)
    {
      if id !in rows {
        return false;
      }
      rows := Reparented(rows, id);
      if !rowDeleted {
        return false;
      }
      rows := rows - {id};
      deleted := true;
    }
  }
}

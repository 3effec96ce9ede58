# WooCommerce Review Reply API — a verified model

This project models the core of the WooCommerce Review Reply API WordPress plugin
(`wc-review-reply-api.php`). The plugin has two parts, and both are modelled.

- **The review-reply REST service.** The class `WC_Review_Reply_API` answers four
  requests:
  - `POST /reviews/{id}/reply` creates a reply to a product review.
  - `GET /reviews/{id}/replies` lists the approved replies of a review.
  - `DELETE /replies/{id}` deletes a reply.
  - The create and delete routes sit behind a permission callback that asks for
    `moderate_comments` or `manage_woocommerce`.

  Replies are rendered with `format_reply`.
- **The activation conflict check.** The class `WC_Review_Reply_API_Conflict_Checker`
  collects conflicts into a list as it runs its checks:
  - WooCommerce is present;
  - no foreign handler sits in the `wc-review-api/v1` REST namespace;
  - no known conflicting plugin is active;
  - the PHP and WordPress versions are high enough.

  Activation succeeds exactly when the list stays empty.
  `wc_review_reply_api_can_initialize` then decides at load time whether the API starts.

WordPress's global state becomes explicit data:

- the comment table is a map from comment id to a record (`Comments.Comment`) plus
  the table's auto-increment counter;
- the post table is a map from post id to post type;
- the current user is a value with the capabilities it holds;
- the clock, `get_comment_link` and whether the database accepts a write are
  parameters.

The two handlers that change the comment table are methods over a `CommentStore`
object. The object stands for `wp_insert_comment` and `wp_delete_comment`. Each
method is proved equal to a pure outcome function (`CreateReplyOutcome`,
`DeleteReplyOutcome`), and the properties are proved about those functions.
`get_replies`, `check_permission` and `format_reply` are functions. The conflict
checker is a class whose `conflicts` field each check appends to. Each check is
proved to append exactly what a specification function computes.

Files:

- `wrappers.dfy`: `Option`.
- `comments.dfy`: the comment table and the `CommentStore` class.
- `reply_api.dfy`: the REST handlers.
- `activation.dfy`: the conflict checker and the initialization gate.

Behaviour taken from WordPress core, which the plugin calls but which is not part of this model:

- `wp_delete_comment($id, true)` first moves the deleted comment's children up one
  level: each child takes the deleted comment's parent. Only then does it delete
  the row. A failed row delete (`delete_failed`, 500) therefore still leaves the
  children moved.
- `get_comments` with `orderby => comment_date_gmt, order => ASC` also sorts by
  `comment_ID` ascending to break ties. The listing is therefore strictly ordered
  by (date_gmt, id), and `ReplyListingUnique` proves it is fully determined.
- A refused permission callback yields `rest_forbidden`. The status is 401 when
  nobody is logged in (user id 0) and 403 otherwise.
- PHP's `?:` treats `null`, `""` and `"0"` as false. So an `author_name` or
  `author_email` of `"0"` also falls back to the current user's value.

Behaviour of the code that the model keeps as written:

- Create does not check that the target comment is top-level, so a reply to a
  reply is accepted (`ReplyToReplyAccepted`).
- List checks only that the review exists. It does not check the product type or
  whether the comment is top-level.
- Replies are ordered by `comment_date_gmt`.
- Deletion is not free of side effects on failure (see above).
- The create route declares `content` as required. The REST server answers a
  request without it with `rest_missing_callback_param`/400 before the
  permission callback runs, so a logged-out request without content gets 400,
  not 401 (`CreateReplyRoute`). A content that is present is only sanitized, so
  an empty content is stored as given. The author fields are optional and only
  sanitized.

## Model

| member | source | states |
|---|---|---|
| `ReplyApi.CheckPermission` | wc-review-reply-api.php:436-438 | permission is granted exactly when the user holds `moderate_comments` or `manage_woocommerce` |
| `ReplyApi.CreateReplyRoute` | wc-review-reply-api.php:354-372 | a request without `content` answers `rest_missing_callback_param`/400 before anything else; otherwise, without either capability, the create route answers `rest_forbidden` (401 when logged out, 403 otherwise). Both leave the comment table unchanged. With content and a capability it behaves as `CreateReplyOutcome` |
| `ReplyApi.Forbidden` | wc-review-reply-api.php:357 | a refused permission callback gives `rest_forbidden`, with status 401 for a logged-out user (id 0) and 403 otherwise |
| `ReplyApi.DeleteReplyRoute` | wc-review-reply-api.php:406-409 | the same gate for the delete route, which otherwise behaves as `DeleteReplyOutcome` |
| `ReplyApi.CreateReplyOutcome` | wc-review-reply-api.php:440-498 | an unknown review id gives `invalid_review`/404; a comment whose post is missing or not a `product` gives `invalid_review`/400; a refused insert gives `reply_failed`/500; every error leaves the table unchanged. Success happens exactly when none of these applies. It adds one row under a fresh id and leaves every old row untouched. The new row's parent is the review id, its post is the review's post, and it carries the request content, approval, the author fallbacks, the user id and the current time. The response's `reply_id` is the new id and its `reply` is that row formatted. |
| `ReplyApi.CreateReply` | wc-review-reply-api.php:440-498 | the in-place handler answers and changes the store exactly as `CreateReplyOutcome` says, keeping the table well formed |
| `ReplyApi.OrElse` | wc-review-reply-api.php:466-467 | the given author name or email is used when it is PHP-truthy (present, not `""`, not `"0"`), the current user's otherwise |
| `ReplyApi.NewReply` | wc-review-reply-api.php:464-479 | the stored row is an approved `comment` on the review's post whose parent is the review id. It carries the request content, the author fallbacks, the current user's id and the current local and GMT times |
| `ReplyApi.ReplyToReplyAccepted` | wc-review-reply-api.php:444-462 | for every table, whenever the target exists, is itself a reply (parent non-zero) and sits on a product post, a stored insert succeeds and the new row's parent is that reply |
| `ReplyApi.FormatReply` | wc-review-reply-api.php:568-581 | the wire form carries the row's id and link, its parent as `parent_id`, its post as `product_id`, and its author, email, content, both dates and approval status |
| `ReplyApi.FormatReplyInjective` | wc-review-reply-api.php:568-581 | the formatted reply determines the id, the link and every field of the row except comment type and user id |
| `ReplyApi.GetReplies` | wc-review-reply-api.php:500-529 | an unknown review id gives `invalid_review`/404, and otherwise the call succeeds. On success the replies are exactly the formatted approved children of the review, each once, in strictly ascending (date_gmt, id) order. `count` is their number and `review_id` echoes the request. |
| `ReplyApi.OrderedIds` | wc-review-reply-api.php:514-519 | the query's ordering: every selected id exactly once, in ascending (date_gmt, id) order |
| `ReplyApi.ReplyListingUnique` | wc-review-reply-api.php:514-521 | any two lists meeting the listing property are equal, so the selection and order leave no freedom |
| `ReplyApi.CreatedReplyIsListed` | wc-review-reply-api.php:470-519 | after a successful create, listing the review includes the new reply's formatted record |
| `ReplyApi.DeleteReplyOutcome` | wc-review-reply-api.php:531-566 | an unknown id gives `invalid_reply`/404 and a top-level comment (parent 0) gives `invalid_reply`/400, both with the table unchanged; a refused row delete gives `delete_failed`/500 with only the children re-parented. Success happens exactly when the id is a reply and the row delete goes through: that id is removed, its children take its parent, and nothing else changes. |
| `ReplyApi.DeleteReply` | wc-review-reply-api.php:531-566 | the in-place handler answers and changes the store exactly as `DeleteReplyOutcome` says |
| `ReplyApi.DeleteLeafRemovesOnlyIt` | wc-review-reply-api.php:551-565 | deleting a reply that has no replies of its own removes exactly that one row |
| `ReplyApi.CreateThenDeleteRestores` | wc-review-reply-api.php:470-498 | deleting a reply right after creating it succeeds and gives back exactly the rows the table had before, provided no old row already names the next id as its parent; only the auto-increment counter stays advanced |
| `ReplyApi.DeleteTwiceNotFound` | wc-review-reply-api.php:531-566 | a second delete of a deleted reply answers `invalid_reply`/404 and changes nothing |
| `Comments.Inserted` | wc-review-reply-api.php:481 | a stored insert puts the row under a fresh id, keeps every old row and keeps the table well formed |
| `Comments.Deleted` | wc-review-reply-api.php:551 | a forced delete removes the row and moves its children up to its parent, leaving other rows as they were |
| `Comments.CommentStore.Get` | wc-review-reply-api.php:445 | `get_comment` finds a row exactly when its id is in the table, and returns that row |
| `Comments.CommentStore.Insert` | wc-review-reply-api.php:481 | `wp_insert_comment` returns 0 and changes nothing when the write is refused, else the new id with the row added |
| `Comments.CommentStore.Delete` | wc-review-reply-api.php:551 | `wp_delete_comment` returns false for an unknown id; otherwise it re-parents the children and removes the row when the write goes through |
| `Activation.WooCommerceConflicts` | wc-review-reply-api.php:116-130 | at most one dependency conflict, and none exactly when both the WooCommerce class and `WC()` exist |
| `Activation.NamespaceRouteShape` | wc-review-reply-api.php:149 | a route is in the namespace exactly when it is `/wc-review-api/v1` or continues it with `/` |
| `Activation.ScanRoutes` | wc-review-reply-api.php:147-162 | the nested route scan collects each namespace route once per foreign handler, in route order |
| `Activation.ScanHandlers` | wc-review-reply-api.php:151-160 | the inner foreach collects the route once for each handler whose callback is a method of another named class |
| `Activation.RouteHitsEmpty` | wc-review-reply-api.php:151-160 | a route contributes nothing exactly when none of its handlers is a method of another named class |
| `Activation.ConflictingRoutesEmpty` | wc-review-reply-api.php:147-162 | no route is reported exactly when no namespace route has a foreign handler |
| `Activation.NamespaceConflicts` | wc-review-reply-api.php:164-172 | no namespace conflict when the REST server is missing or no route conflicts; otherwise exactly one conflict, whose message names the first three conflicting routes |
| `Activation.PluginConflicts` | wc-review-reply-api.php:214-247 | only `plugin` conflicts, at most one per active plugin |
| `Activation.PluginConflictsAppend` | wc-review-reply-api.php:214-247 | the plugin conflicts of a concatenated plugin list are the concatenation of both parts' conflicts, so each known plugin adds its one conflict in active-plugin order |
| `Activation.PluginConflictsEmpty` | wc-review-reply-api.php:214-222 | no plugin conflict exactly when no active plugin is in the known-conflicts table |
| `Activation.KnownPluginBlocksActivation` | wc-review-reply-api.php:191-247 | an active plugin from the table puts its conflict in the activation list, so activation fails |
| `Activation.PhpConflicts` | wc-review-reply-api.php:253-267 | a PHP conflict exactly when the version is below 7.4 |
| `Activation.WpConflicts` | wc-review-reply-api.php:272-286 | a WordPress conflict exactly when the version is below 5.0 |
| `Activation.ActivationConflicts` | wc-review-reply-api.php:56-69 | the accumulated list holds the conflicts in the order the checks run: dependency, namespace, plugin, PHP, WordPress. It has at most one entry per active plugin plus four |
| `Activation.ActivationSucceedsIff` | wc-review-reply-api.php:56-90 | the conflict list is empty exactly when WooCommerce and `WC()` exist, no namespace route has a foreign handler (or there is no REST server), no known plugin is active and both versions are high enough |
| `Activation.CanInitialize` | wc-review-reply-api.php:329-342 | the API initializes exactly when WooCommerce exists and the conflicts transient is absent or empty |
| `Activation.InitializeAfterActivation` | wc-review-reply-api.php:72-90 | with the transient as an activation attempt leaves it, the API initializes exactly when activation found no conflict |
| `Activation.ConflictChecker.CheckConflictsOnActivation` | wc-review-reply-api.php:49-90 | the list is reset and rebuilt check by check; it then equals `ActivationConflicts`, and the result is true exactly when it is empty |
| `Activation.ConflictChecker.CheckWooCommerce` | wc-review-reply-api.php:116-130 | appends exactly `WooCommerceConflicts` |
| `Activation.ConflictChecker.CheckRestApiNamespace` | wc-review-reply-api.php:135-177 | appends exactly `NamespaceConflicts` |
| `Activation.ConflictChecker.CheckConflictingPlugins` | wc-review-reply-api.php:182-248 | both loops together append exactly `PluginConflicts` of the active plugins |
| `Activation.ConflictChecker.CheckPhpVersion` | wc-review-reply-api.php:253-267 | appends exactly `PhpConflicts` |
| `Activation.ConflictChecker.CheckWpVersion` | wc-review-reply-api.php:272-286 | appends exactly `WpConflicts` |

## Left out

- The `/test` endpoint (lines 423-433) is left out because it returns a constant payload.
- Hook wiring is left out because it has no behaviour of its own. This covers
  `add_action`, `register_activation_hook`, `register_rest_route` and the HPOS
  compatibility declaration. Only the permission callbacks of the two guarded
  routes are modelled.
- Host-side effects of the conflict check are left out. These are the conflicts
  transient, `deactivate_plugins`, the `$_GET['activate']` removal, the admin
  notices, `display_conflict_notices` and `error_log`. The transient appears only
  as the parameter of `CanInitialize`.
- The `catch` blocks of `check_conflicts_on_activation` and
  `check_rest_api_namespace` are left out. None of the modelled checks throws.
- The `rest_authentication_errors` filter scan is left out. It computes a class
  name that is never used.
- `version_compare` is not modelled. Its outcome is a boolean parameter.
- The REST server's other parameter handling is not modelled. Only the missing
  `content` check is modelled; the `type` declarations and coercion of the `id`
  and `author_*` parameters are left out, because handlers receive typed values.
- The sanitizers, the `is_numeric` validate callbacks, `rest_ensure_response` and
  the `WP_Error` objects are not modelled. Handlers receive sanitized values, and
  responses and errors are Dafny values.
- Several parts of WordPress core are not modelled: `wp_insert_comment`'s
  `wp_unslash`, its filters and its comment-count and meta updates. The same goes
  for comment-meta deletion and the hooks in `wp_delete_comment`, and the fallback
  of `get_comment(0)` and `get_post(0)` to global objects. Comment ids in the table
  are positive and `IsProductPost` rejects post id 0, so id 0 is never found.
- Dates are opaque integers ordered like `comment_date_gmt`. Date formatting is not modelled.
- Concurrency between requests is not modelled. Each handler is one sequential step on the table.

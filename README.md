# Flask blog: permissions, moderation and ownership rules in Dafny

This project models the rules at the core of a Flask blog with chat rooms.
The model covers:

- **Permission masks.** There are five single-bit capabilities: FOLLOW, COMMENT, WRITE, MODERATE and ADMIN. A role stores them as an integer mask. `add_permission`, `remove_permission` and `reset_permission` change that mask in place.
- **Permission queries.** These are `User.can` and `is_administrator`. The anonymous user refuses everything.
- **The access gate of the decorators.** It takes either one permission or a list, and a list is checked as a conjunction.
- **Role seeding.** The three canonical roles are created or reused, then reset and re-granted their flags.
- **State transitions of the request handlers:**
  - following and unfollowing;
  - enabling and disabling comments, and the disabled-comment filter of the listings;
  - the author-or-administrator gate on editing and deleting posts;
  - the login decision and its redirect rule, and the password reset reached from a mailed token;
  - account confirmation;
  - the administrator's user editor, and soft deletion of users;
  - the presence ping;
  - room creation with its membership rows, room deletion, and the recently-seen users page.

How the model is built:

- **Roles and users** are classes whose fields the handlers assign in place.
- **Posts, comments, rooms and room memberships** are values.
- **The store.** It holds:
  - the roles by name;
  - the follows rows as a set of `(follower_id, followed_id)` pairs;
  - posts, comments, rooms and users by primary key.
- **Handlers** are methods that return:
  - the response (a redirect to an endpoint, a rendered template or an abort status);
  - the flash message they queue, as an abstract notice.

  Each handler's contract states its whole new state against the old one, through pure functions. Lemmas state the properties of those functions.
- **Time** is an integer number of seconds.
- **Parameters** stand in for the password check, the token extraction, the salted hash of a new password, the filename an upload was saved under and the identifier the database assigns to a new room.
- **Lookups.** There are two kinds:
  - A handler that looks up a user, by name or by id, receives the row found, or null for the 404 path. These are `FollowUser`, `UnFollowUser`, `EditUser`, `DeleteUser` and `UndeleteUser`.
  - A handler that looks up a comment, post or room takes its id and looks it up in the store; a missing id is the 404 path. These are `DisableComment`, `EnableComment`, `DeletePost`, `EditPost` and `DeleteRoom`.

Modules, in dependency order:

- `Wrappers`: the Option type.
- `Bits`: Python's unbounded `&`, `|` and `& ~` on naturals.
- `Permissions`: the flags and mask arithmetic.
- `Models`: the data layer.
- `Http`: responses and notices.
- `Decorators`: the access gate.
- `Fixtures`: role seeding.
- `BlogViews`, `AuthViews`, `SocketViews`: the request handlers.

The handlers follow the code, except where three of the entries under "## Findings" show the code evidently wrong. There the handler uses the corrected rule, and "## Left out" names each such handler:

- `AuthViews.Login` uses the corrected redirect rule.
- `SocketViews.CreateRoom` uses the corrected member list.
- `SocketViews.DeleteRoom` uses the deletion without the user cascade.

The as-written behaviour of each is a separate member with a lemma that exhibits the discrepancy.

In the following places the code behaves in a way its names or declarations do not suggest, and the model follows the code:

1. **Post deletion.** `Post.comments` declares no delete cascade, so deleting a post leaves its comments in the comments table. The model does not remove them.
2. **Comment moderation.** `permission_required_in(ADMIN, MODERATE)` requires *both* flags. As seeded, the Moderator role (mask 15) cannot moderate comments; only the Administrator role (mask 31) can.
3. **User deletion.** `delete_user` and `undelete_user` carry only `login_required`, so any signed-in user may soft-delete a non-administrator. The model keeps that.
4. **Follow rows.** `follow_user` stores the row with `follower_id` = the followed user and `followed_id` = the acting user. This is the reverse of the column names. It is consistent with `is_following`, which reads the same orientation, and the model keeps it.

## Model

| member | source | states |
|---|---|---|
| Models.Role.constructor | blog/app/models.py:75-78 | a role created without permissions has mask 0; given permissions are stored as given |
| Models.Role.AddPermission | blog/app/models.py:80-82 | the new mask is `Added(old, perm)`: unchanged when perm is already held, otherwise old + perm |
| Models.Role.RemovePermission | blog/app/models.py:84-86 | the new mask is `Removed(old, perm)`: old - perm when perm is held, otherwise unchanged |
| Models.Role.ResetPermission | blog/app/models.py:88-90 | the mask is 0 afterwards, whatever it was |
| Permissions.FlagsAreDistinctBits | blog/app/models.py:96-101 | the five flags are 2^0 to 2^4 and pairwise distinct |
| Permissions.HasIsContainment | blog/app/models.py:92-93 | `has_permission(p)` holds exactly when every bit of p is a bit of the mask (both directions) |
| Permissions.HasFlag | blog/app/models.py:92-93 | for a single flag, holding it is having its bit set |
| Permissions.AddedFlag | blog/app/models.py:80-82 | adding a single flag: it is held afterwards; every other bit is kept; a held flag leaves the mask unchanged; the result equals the bitwise or of mask and flag |
| Permissions.RemovedFlag | blog/app/models.py:84-86 | removing a single flag: it is not held afterwards; every other bit is kept; a flag not held leaves the mask unchanged; the result equals `mask & ~flag` |
| Permissions.FlagUpdatesIdempotent | blog/app/models.py:80-86 | adding or removing a single flag twice equals doing it once |
| Permissions.RemoveUndoesAdd | blog/app/models.py:80-86 | removing a flag just added to a mask that lacked it restores the mask |
| Permissions.ZeroHoldsNoFlag | blog/app/models.py:88-90 | after a reset no flag is held |
| Permissions.AddOverlappingComposite | blog/app/models.py:80-82 | the arithmetic `+=` is not a bitwise or for a composite argument: adding FOLLOW+COMMENT to a FOLLOW mask gives WRITE, which does not hold FOLLOW+COMMENT |
| Models.User.constructor | blog/app/models.py:116-122 | a new user row is unconfirmed, not deleted and last seen at the creation time |
| Models.User.Ping | blog/app/models.py:177-178 | `last_seen` becomes the given time |
| Models.PermissionChecksFailSafe | blog/app/models.py:171-175 | the anonymous user can do nothing and is no administrator; a user without a role can do nothing; being an administrator is `can(ADMIN)` |
| Models.CanFlag | blog/app/models.py:171-172 | for a single flag, `can` holds exactly when the user has a role whose mask has that bit |
| Models.FollowQueriesAreConverse | blog/app/models.py:136-140 | `a.is_following(b)` and `b.is_followed(a)` read the same row |
| Models.PingedUserIsOnline | blog/app/models.py:177-181 | under the intended `is_online`, a user is online right after a ping and offline two minutes later |
| Models.OnlineAsWrittenIsInverted | blog/app/models.py:180-181 | the written `is_online` reports a user who just pinged as offline and one absent for an hour as online |
| Models.Presence | blog/app/models.py:30-34 | the filtered members are exactly the members with the requested online state, in their original order |
| Models.PresenceSplits | blog/app/models.py:30-34 | the online and offline lists together hold every member with its multiplicity |
| Models.PresencePartition | blog/app/models.py:30-34 | `online_users` and `offline_users` are disjoint, together hold all members, and each keeps the members' order |
| Decorators.CheckEach | app/decorators.py:36-39 | the loop passes exactly when the user can do every listed permission, and otherwise aborts with 403 |
| Decorators.CheckPerm | app/decorators.py:35-42 | a bare permission passes exactly when the user can do it; a list passes exactly when the user can do each element; a failure is 403 |
| Decorators.ViewRunsOnlyIfPermitted | app/decorators.py:10-12 | the wrapped view's response is returned when the check passes, and a 403 abort otherwise |
| Decorators.EmptyListPasses | app/decorators.py:36-39 | an empty list passes, even for the anonymous user |
| Decorators.SingletonListIsSingle | app/decorators.py:35-42 | a one-element list is the same check as the bare permission |
| Decorators.AdminRequiredIsEqAdmin | app/decorators.py:27-32 | `admin_required` is `permission_required_eq(ADMIN)` and passes exactly for administrators |
| Decorators.InIsConjunction | app/decorators.py:36-39 | `permission_required_in(a, b)` passes exactly when the user can do both a and b |
| Decorators.CheckEachAppend | app/decorators.py:36-39 | the check of a concatenated list is the conjunction of the checks of its parts |
| Decorators.ModerationNeedsAdmin | app/blog/views.py:182 | the comment-moderation gate refuses mask 15 (Moderator) and admits mask 31 (Administrator) |
| Fixtures.SeededMaskBits | app/fixtures.py:25-28 | reset followed by adding single flags sets exactly the listed bits, whatever the order and repetitions |
| Fixtures.SeededMasks | app/fixtures.py:9-28 | the three listed roles get masks 7, 15 and 31 |
| Fixtures.SeededTableKeep | app/fixtures.py:19-30 | seeding adds exactly the listed names and leaves every other role row unchanged |
| Fixtures.SeededTableListed | app/fixtures.py:20-28 | each listed role ends with its seeded mask; it keeps the default flag it had, or takes the listed one when it is created |
| Fixtures.LoadedTable | app/fixtures.py:9-30 | for any prior table, after seeding: User 7, Moderator 15, Administrator 31; existing rows keep their default flag; new ones take the listed flag; unlisted rows are untouched |
| Fixtures.LoadingIsIdempotent | app/fixtures.py:25-28 | seeding a second time changes nothing |
| Fixtures.SeedPermissions | app/fixtures.py:25-28 | the loop of `add_permission` after `reset_permission` leaves the seeded mask of the listed flags |
| Fixtures.SeedRole | app/fixtures.py:20-30 | one iteration reuses the stored role of that name or creates a fresh one, and the role table becomes `TableAfter` of the old one |
| Fixtures.SeedRoles | app/fixtures.py:19-30 | stored roles stay the same objects; new ones are fresh; each role is stored under its name; the role table becomes `SeededTable` of the old one |
| Fixtures.LoadRoles | app/fixtures.py:8-35 | the three names are added if missing with their listed default flag; masks are 7/15/31; existing roles are reused, not duplicated; unlisted roles keep their masks |
| BlogViews.Followed | app/blog/views.py:130-136 | the edge is present afterwards, no other edge changes, and an existing edge leaves the table unchanged |
| BlogViews.Unfollowed | app/blog/views.py:146-152 | the edge is absent afterwards, no other edge changes, and a missing edge leaves the table unchanged |
| BlogViews.FollowUpdatesIdempotent | app/blog/views.py:130-152 | following twice equals following once; unfollowing twice equals unfollowing once |
| BlogViews.FollowRoundTrips | app/blog/views.py:130-152 | unfollow after follow restores a table without the edge; follow after unfollow restores a table with it |
| BlogViews.FollowSeenByQueries | app/blog/views.py:130-131 | after a follow, `current_user.is_following(target)` holds; after an unfollow it does not |
| BlogViews.FollowUser | app/blog/views.py:124-138 | no FOLLOW flag aborts with 403 and an unknown user with 404, with the table unchanged; otherwise the table becomes `Followed(old, target.id, current.id)`, "already following" is queued exactly when the edge existed, and the redirect goes to the current user's following page |
| BlogViews.UnFollowUser | app/blog/views.py:141-154 | 403 and 404 leave the table unchanged; otherwise the table becomes `Unfollowed(old, target.id, current.id)` and "already not following" is queued exactly when the edge was absent |
| BlogViews.Moderated | app/blog/views.py:185-190 | only the chosen comment's `disabled` flag changes, to the given value; no key or other comment changes |
| BlogViews.VisibleCommentsFilter | app/blog/views.py:38 | a listing shows exactly the comments of that post that are not disabled |
| BlogViews.ModerationVisibility | app/blog/views.py:180-207 | disabling hides a comment from every listing; enabling shows it on its post's listing; other comments' visibility never changes |
| BlogViews.ModerationGate | app/blog/views.py:182 | the moderation gate passes exactly when the user can do both ADMIN and MODERATE, and is 403 otherwise |
| BlogViews.DisableComment | app/blog/views.py:180-192 | 403 without both flags and 404 for an unknown id, both unchanged; otherwise `disabled` is true afterwards, "already disabled" is queued exactly when it was true, and the redirect goes to the comment's post |
| BlogViews.EnableComment | app/blog/views.py:195-207 | the mirror image: `disabled` is false afterwards, and "already enabled" is queued exactly when it was false |
| BlogViews.SeededPostOwnership | app/blog/views.py:47 | with the seeded masks, the Administrator role may manage every post; User and Moderator may manage exactly their own |
| BlogViews.DeletePost | app/blog/views.py:43-57 | 404 for an unknown post; 401 unless author or administrator, with the post kept; otherwise the post is removed, and its image is handed for removal exactly when it has one |
| BlogViews.EditPost | app/blog/views.py:60-80 | 404; 401 unless author or administrator, with the post unchanged; a validated form replaces title, body and image and redirects to the post; otherwise the editor page is rendered with nothing changed |
| AuthViews.BeforeRequest | app/auth/views.py:13-17 | a signed-in user's `last_seen` becomes now, and nothing else of the row changes; for the anonymous user nothing changes |
| AuthViews.LoginRedirectAsWritten | app/auth/views.py:27-29 | as written, `next` is followed exactly when it is present and starts with `/`; otherwise the redirect goes to the post index |
| AuthViews.OpenRedirectAsWritten | app/auth/views.py:27-29 | as written, `//evil.example` is followed although it leaves the site; the intended rule refuses it |
| AuthViews.SafeLoginRedirect | app/auth/views.py:27-29 | `next` is followed exactly when it is a path on this site, otherwise the post index |
| AuthViews.SafeRedirectNarrowsWritten | app/auth/views.py:27-29 | the two rules agree except on a `next` starting with `//` or `/\`, which only the written rule follows |
| AuthViews.FindLoginUser | app/auth/views.py:24 | the first user in row order whose username or email equals the name, or none when no user matches |
| AuthViews.Login | app/auth/views.py:20-33 | sign-in happens exactly when the form validated, a user matches and the password check passes; the user signed in is the first match, whose password was checked; it then redirects by the corrected site-path rule; otherwise the login page is rendered, with "invalid credentials" exactly when a form was submitted |
| AuthViews.AccountReset | app/auth/views.py:51-66 | a failed token extraction or an unknown id redirects to account recovery with no user changed; a validated form changes only that user's password hash and signs them in |
| AuthViews.Confirm | app/auth/views.py:102-114 | confirmed afterwards exactly when it was before or the token checks out, so a user is never unconfirmed; the redirect goes to the confirmed page exactly when confirmed, otherwise "invalid" and the index |
| AuthViews.EditUser | app/auth/views.py:154-185 | non-administrators get 403 and nothing changes; an unknown id is 404; a validated form sets username, email and role, and replaces the password hash only when the submitted password is non-empty |
| AuthViews.DeleteUser | app/auth/views.py:188-199 | an administrator's row is unchanged and "cannot delete" is queued; any other user's `deleted_at` becomes now and nothing else changes |
| AuthViews.UndeleteUser | app/auth/views.py:202-213 | an administrator's row is unchanged; any other user's `deleted_at` is cleared and nothing else changes |
| SocketViews.Associations | blog/app/socket/views.py:24 | one membership row per member, in order, each referencing the given room |
| SocketViews.AssociationKeysDistinct | blog/app/models.py:10-13 | members with distinct ids give membership rows with distinct primary keys |
| SocketViews.SelfSelectionDuplicatesKey | blog/app/socket/views.py:24 | as written, a creator who selects themself gets two membership rows with the same primary key |
| SocketViews.RoomMembers | blog/app/socket/views.py:23-24 | the creator is a member; every selected user is a member; nobody else is; no id repeats when none repeated in the selection |
| SocketViews.RoomMembersAgreeUnlessSelfSelected | blog/app/socket/views.py:24 | the intended members equal the written ones unless the creator was selected too |
| SocketViews.CreatedRoomMembership | blog/app/socket/views.py:23-24 | every row of a new room references it; the creator and every selected user have a row; primary keys do not repeat |
| SocketViews.CreateRoom | blog/app/socket/views.py:17-28 | a validated form stores the new room with the creator as author and as a member (the corrected member list, without a duplicate row), and queues "room created"; otherwise nothing changes; the page is rendered either way |
| SocketViews.UsersAfterRoomDeleteAsWritten | blog/app/socket/views.py:44 | as written, deleting a room removes every member user and keeps every other user |
| SocketViews.RoomDeleteRemovesCreatorAsWritten | blog/app/socket/views.py:44 | as written, deleting a room made by `create_room` deletes its creator's account |
| SocketViews.DeleteRoom | blog/app/socket/views.py:38-50 | 404 for an unknown room; 401 unless author or administrator, with the room kept; otherwise the room and its rows are removed; the users table never changes (the corrected behaviour, without the user cascade) |
| SocketViews.RecentlySeen | blog/app/socket/views.py:57 | exactly the users seen within the last ten minutes, in table order |
| SocketViews.RecentWindowWiderThanOnline | blog/app/socket/views.py:57 | every user online by `is_online` is listed, and a user seen five minutes ago is listed without being online |

The table lists only members that carry a contract. These definitions have none; the lemmas and handlers above state their properties:

- `Models.Role.HasPermission` (blog/app/models.py:92-93) and `Permissions.Has`: `has_permission`.
- `Models.User.Can`, `Models.User.IsAdministrator` (blog/app/models.py:171-175), `Models.PrincipalCan` and `Models.PrincipalIsAdministrator` (with the `AnonymousUser`, blog/app/models.py:194-199).
- `Models.User.IsFollowing` and `Models.User.IsFollowed` (blog/app/models.py:136-140).
- `Models.User.CheckToken` (blog/app/models.py:165-169).
- `Models.User.IsOnlineAsWritten` and `Models.User.IsOnline` (blog/app/models.py:180-181).
- `Models.PostIsAuthor` (blog/app/models.py:64-65) and `Models.RoomIsAuthor` (blog/app/models.py:27-28).
- `Models.OnlineUsers` and `Models.OfflineUsers` (blog/app/models.py:30-34).
- `Decorators.PermissionRequiredEq`, `Decorators.PermissionRequiredIn`, `Decorators.AdminRequired` and `Decorators.Decorated` (app/decorators.py:7-32).
- `BlogViews.MayManagePost` (app/blog/views.py:47 and 64).
- `SocketViews.RoomMembersAsWritten` (blog/app/socket/views.py:24).
- `SocketViews.MemberIds` and `SocketViews.AssociationKeys` (blog/app/socket/views.py:24 and 44): the user ids and the `(user_id, room_id)` keys of a room's association rows.
- `BlogViews.VisibleComments` (app/blog/views.py:38). `BlogViews.VisibleCommentsFilter` and `BlogViews.ModerationVisibility` state its properties.
- `Fixtures.RoleSeeds` (app/fixtures.py:9-16) and `Fixtures.SeededMask` (app/fixtures.py:25-28). `Fixtures.SeededMaskBits` and `Fixtures.SeededMasks` state their properties.
- `AuthViews.MatchesLogin` (app/auth/views.py:24), `AuthViews.StartsWith` and `AuthViews.IsSitePath` (app/auth/views.py:28).
- `Permissions.Added` and `Permissions.Removed` (blog/app/models.py:80-86). `Permissions.AddedFlag` and `Permissions.RemovedFlag` state their properties.
- `Bits.BitAnd`, `Bits.BitOr` and `Bits.BitAndNot`: Python's `&`, `|` and `& ~` on naturals (the `&` of blog/app/models.py:93).

## Left out

- `login_required` belongs to flask_login. Anonymous visitors are redirected to the login page before these handlers run, so the handlers take a signed-in user.
- `User.__init__`'s lookup of the default role (blog/app/models.py:131-134) is a query, and the constructor takes the role as given. The same goes for id assignment and the other `Role` and `User` columns the rules do not read: names, phone, about-me, birthday, address, newsletter, avatar.
- Password hashing and checking are oracles, because they are library calls with a random salt. Token signing, expiry and `extract_token` are also oracles, because they are library calls. The salt-uniqueness test cannot be stated without the hash.
- Mail sending, template rendering and the flash texts are left out, because they are I/O. Handlers return the template name and an abstract notice.
- `uploads.save` and `os.remove` are left out, because they are file I/O. The saved filename is a parameter, and the file to remove is an output of `DeletePost`.
- Pagination, `order_by`, `url_for` and `_external` URLs are library-owned. Listings are sets or sequences in table order.
- The `db.session` transaction is not modelled: changes take effect when assigned. The seeder's rollback on `IntegrityError` is also not modelled, because in the model names are unique and roles are reused, so the commit cannot violate the unique name.
- The form repopulation of `edit_post` and `edit_user` is rendering only. Validation of the forms belongs to WTForms; a form that did not validate is None.
- Socket.IO events are left out, because they are realtime broadcast. `print(request.form)` is left out, because it is I/O.
- The comments of a deleted post stay in the table. What the ORM does with their `post_id` is not modelled.
- SocketViews.UsersAfterRoomDeleteAsWritten: covers only the users table. The further cascades of a deleted user (its follows rows, and the rows of its other rooms) are not modelled.
- Models.Presence: filters by the intended `is_online` (`Models.User.IsOnline`), not the inverted one that `Room.online_users` and `Room.offline_users` call. The written predicate is `Models.User.IsOnlineAsWritten`. The partition lemmas are stated for the intended predicate only. They would hold for either, since their proofs do not depend on what the predicate is.
- SocketViews.RecentWindowWiderThanOnline: compares the page's window with the intended `is_online`, not the written one.
- AuthViews.Login: redirects by `SafeLoginRedirect`, the corrected rule. The code follows any `next` starting with `/`, including `//evil.example`. That rule is `LoginRedirectAsWritten`, and `OpenRedirectAsWritten` exhibits the difference.
- SocketViews.CreateRoom: stores the members from `RoomMembers`, the corrected list. The code appends the creator unconditionally (`RoomMembersAsWritten`). When creators also select themselves, two rows share a primary key, the commit fails and no room is stored. That failure outcome is not modelled in the handler; `SelfSelectionDuplicatesKey` exhibits the clash.
- SocketViews.DeleteRoom: leaves the users table unchanged, the corrected behaviour. As written, the cascades delete every member user. That is `UsersAfterRoomDeleteAsWritten`, and `RoomDeleteRemovesCreatorAsWritten` exhibits it.
- AuthViews.EditUser: covers the empty-password branch of app/auth/views.py:170, which keeps the stored hash. The edit form's validators are not part of this model. If they reject an empty password, as a minimum-length rule would, that branch never runs after validation.
- `url_for('blog.index')` (app/auth/views.py:64 and 114) names an endpoint that no view defines, so Flask fails to build that URL. The model keeps the redirect target as written (`BlogIndex`) and does not model URL building.

## Findings

| source | as written | input that shows it | evidently intended | confidence | as-written member | corrected member |
|---|---|---|---|---|---|---|
| blog/app/models.py:180-181 | online iff `last_seen < now - 2 minutes` | a user who pinged at `now` is offline; one last seen an hour ago is online | online iff seen within the last two minutes (`last_seen > now - 2 minutes`) | not executed; high | Models.OnlineAsWrittenIsInverted | Models.PingedUserIsOnline |
| app/auth/views.py:27-29 | `next` is followed when it starts with `/` | `next=//evil.example` redirects to another host (protocol-relative URL) | follow only a path on this site | not executed; high | AuthViews.OpenRedirectAsWritten | AuthViews.SafeRedirectNarrowsWritten |
| blog/app/socket/views.py:23-24 | the creator is appended to the selected users unconditionally | the creator selects themself: two `rooms_users` rows with the same primary key, so the commit fails | the creator is a member exactly once | not executed; medium | SocketViews.SelfSelectionDuplicatesKey | SocketViews.CreatedRoomMembership |
| blog/app/socket/views.py:44 | `RoomUserAssociation.user` has cascade "all", so deleting a room's membership rows deletes their users | deleting any room made by `create_room` deletes its creator's user row | delete the room and its membership rows only; users are never hard-deleted | not executed; medium | SocketViews.RoomDeleteRemovesCreatorAsWritten | SocketViews.DeleteRoom |

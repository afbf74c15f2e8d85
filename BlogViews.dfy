/** The state-changing handlers of app/blog/views.py: following and
    unfollowing a user, moderating a comment, and deleting or editing a post
    under the author-or-administrator gate; and the disabled-comment filter of
    the comment listings. Every handler is behind `login_required`, so the
    current user is a signed-in `User`. A query that may 404 is passed in as
    the row it found, or null. */
module BlogViews {
  import opened Wrappers
  import opened Bits
  import opened Permissions
  import opened Models
  import opened Http
  import opened Decorators

  // ---------------------------------------------------------------------------
  // The follows table

  /** The follows rows once (follower, followed) has been inserted if absent.
      The pair is the table's primary key, so it is present exactly once. */
  function Followed(follows: set<(int, int)>, follower: int, followed: int): (r: set<(int, int)>)
    ensures (follower, followed) in r
    ensures forall e | e != (follower, followed) :: e in r <==> e in follows
    ensures (follower, followed) in follows ==> r == follows
  {
    if (follower, followed) in follows then follows else follows + {(follower, followed)}
  }

  /** The follows rows once (follower, followed) has been deleted if present. */
  function Unfollowed(follows: set<(int, int)>, follower: int, followed: int): (r: set<(int, int)>)
    ensures (follower, followed) !in r
    ensures forall e | e != (follower, followed) :: e in r <==> e in follows
    ensures (follower, followed) !in follows ==> r == follows
  {
    if (follower, followed) in follows then follows - {(follower, followed)} else follows
  }

  /** Following twice is following once; unfollowing twice is unfollowing once. */
  lemma FollowUpdatesIdempotent(follows: set<(int, int)>, follower: int, followed: int)
    ensures Followed(Followed(follows, follower, followed), follower, followed) == Followed(follows, follower, followed)
    ensures Unfollowed(Unfollowed(follows, follower, followed), follower, followed) == Unfollowed(follows, follower, followed)
  {
  }

  /** Unfollowing right after a follow restores a table that lacked the edge;
      following right after an unfollow restores a table that had it. */
  lemma FollowRoundTrips(follows: set<(int, int)>, follower: int, followed: int)
    ensures (follower, followed) !in follows ==> Unfollowed(Followed(follows, follower, followed), follower, followed) == follows
    ensures (follower, followed) in follows ==> Followed(Unfollowed(follows, follower, followed), follower, followed) == follows
  {
  }

  /** The row the handlers write is the one the model's queries look up:
      after a follow `current_user.is_following(target)` and
      `target.is_followed(current_user)` both hold; after an unfollow neither
      does. */
  lemma FollowSeenByQueries(follows: set<(int, int)>, current: User, target: User)
    ensures current.IsFollowing(Followed(follows, target.id, current.id), target)
    ensures target.IsFollowed(Followed(follows, target.id, current.id), current)
    ensures !current.IsFollowing(Unfollowed(follows, target.id, current.id), target)
    ensures !target.IsFollowed(Unfollowed(follows, target.id, current.id), current)
  {
  }

  /** `follow_user`, behind `@permission_required_eq(Permission.FOLLOW)`.
      The row stored is (follower_id = target.id, followed_id = current.id),
      the same orientation `current_user.is_following(target)` looks up. */
  method FollowUser(db: Store, current: User, target: User?) returns (resp: Response, notice: Notice)
    modifies db`follows
    ensures !current.Can(FOLLOW) ==> resp == Abort(403) && notice == NoNotice && db.follows == old(db.follows)
    ensures current.Can(FOLLOW) && target == null ==> resp == Abort(404) && notice == NoNotice && db.follows == old(db.follows)
    ensures current.Can(FOLLOW) && target != null ==>
      && resp == Redirect(Following(current.username))
      && db.follows == Followed(old(db.follows), target.id, current.id)
      && (notice == AlreadyFollowing <==> (target.id, current.id) in old(db.follows))
      && (notice == NowFollowing <==> (target.id, current.id) !in old(db.follows))
  {
    var gate := CheckPerm(Authenticated(current), PermissionRequiredEq(FOLLOW));
    if gate.Deny? {
      return Abort(gate.status), NoNotice;
    }
    if target == null {
      return Abort(404), NoNotice;
    }
    if !current.IsFollowing(db.follows, target) {
      db.follows := db.follows + {(target.id, current.id)};
      notice := NowFollowing;
    } else {
      notice := AlreadyFollowing;
    }
    resp := Redirect(Following(current.username));
  }

  /** `un_follow_user`, behind `@permission_required_eq(Permission.FOLLOW)`. */
  method UnFollowUser(db: Store, current: User, target: User?) returns (resp: Response, notice: Notice)
    modifies db`follows
    ensures !current.Can(FOLLOW) ==> resp == Abort(403) && notice == NoNotice && db.follows == old(db.follows)
    ensures current.Can(FOLLOW) && target == null ==> resp == Abort(404) && notice == NoNotice && db.follows == old(db.follows)
    ensures current.Can(FOLLOW) && target != null ==>
      && resp == Redirect(Following(current.username))
      && db.follows == Unfollowed(old(db.follows), target.id, current.id)
      && (notice == NowNotFollowing <==> (target.id, current.id) in old(db.follows))
      && (notice == AlreadyNotFollowing <==> (target.id, current.id) !in old(db.follows))
  {
    var gate := CheckPerm(Authenticated(current), PermissionRequiredEq(FOLLOW));
    if gate.Deny? {
      return Abort(gate.status), NoNotice;
    }
    if target == null {
      return Abort(404), NoNotice;
    }
    if current.IsFollowing(db.follows, target) {
      db.follows := db.follows - {(target.id, current.id)};
      notice := NowNotFollowing;
    } else {
      notice := AlreadyNotFollowing;
    }
    resp := Redirect(Following(current.username));
  }

  // ---------------------------------------------------------------------------
  // Comment moderation

  /** The comments once comment id has its `disabled` flag set to the given
      value; nothing else about it or any other comment changes. */
  function Moderated(comments: map<int, Comment>, id: int, disabled: bool): (r: map<int, Comment>)
    requires id in comments
    ensures r.Keys == comments.Keys
    ensures r[id].disabled == disabled
    ensures r[id].postId == comments[id].postId && r[id].authorId == comments[id].authorId && r[id].body == comments[id].body
    ensures forall j | j in comments && j != id :: r[j] == comments[j]
    ensures comments[id].disabled == disabled ==> r == comments
  {
    if comments[id].disabled == disabled then comments
    else comments[id := comments[id].(disabled := disabled)]
  }

  /** The comments a post's listing shows: those of that post that are not
      disabled (the filter of `show_post` and `edit_comment`; pagination is
      the ORM's). */
  function VisibleComments(comments: map<int, Comment>, postId: int): set<int>
  {
    set id | id in comments && comments[id].postId == postId && !comments[id].disabled
  }

  /** A listing only ever shows comments of its own post, and never a
      disabled one; a comment of the post that is not disabled is shown. */
  lemma VisibleCommentsFilter(comments: map<int, Comment>, postId: int, id: int)
    ensures id in VisibleComments(comments, postId) ==> id in comments && comments[id].postId == postId && !comments[id].disabled
    ensures id in comments && comments[id].postId == postId && !comments[id].disabled ==> id in VisibleComments(comments, postId)
  {
  }

  /** Disabling a comment hides it from every listing, enabling it shows it
      on its own post's listing, and the other comments' visibility does not
      change either way. */
  lemma ModerationVisibility(comments: map<int, Comment>, id: int, postId: int, disabled: bool)
    requires id in comments
    ensures id !in VisibleComments(Moderated(comments, id, true), postId)
    ensures comments[id].postId == postId ==> id in VisibleComments(Moderated(comments, id, false), postId)
    ensures forall j | j != id :: j in VisibleComments(Moderated(comments, id, disabled), postId) <==> j in VisibleComments(comments, postId)
  {
  }

  /** The gate shared by comment moderation:
      `@permission_required_in(Permission.ADMIN, Permission.MODERATE)`. */
  function ModerationGate(current: User): (g: Gate)
    reads current, current.role
    ensures g == Proceed <==> current.Can(ADMIN) && current.Can(MODERATE)
    ensures g != Proceed ==> g == Deny(403)
  {
    InIsConjunction(Authenticated(current), ADMIN, MODERATE);
    CheckPerm(Authenticated(current), PermissionRequiredIn([ADMIN, MODERATE]))
  }

  /** `disable_comment`: `Comment.query.get_or_404(identifier)`, then the flip. */
  method DisableComment(db: Store, current: User, id: int) returns (resp: Response, notice: Notice)
    modifies db`comments
    ensures !(current.Can(ADMIN) && current.Can(MODERATE)) ==> resp == Abort(403) && notice == NoNotice && db.comments == old(db.comments)
    ensures current.Can(ADMIN) && current.Can(MODERATE) && id !in old(db.comments) ==> resp == Abort(404) && notice == NoNotice && db.comments == old(db.comments)
    ensures current.Can(ADMIN) && current.Can(MODERATE) && id in old(db.comments) ==>
      && resp == Redirect(ShowPost(old(db.comments)[id].postId))
      && db.comments == Moderated(old(db.comments), id, true)
      && (notice == CommentAlreadyDisabled <==> old(db.comments)[id].disabled)
      && (notice == CommentDisabled <==> !old(db.comments)[id].disabled)
  {
    var gate := ModerationGate(current);
    if gate.Deny? {
      return Abort(gate.status), NoNotice;
    }
    if id !in db.comments {
      return Abort(404), NoNotice;
    }
    var comment := db.comments[id];
    if !comment.disabled {
      db.comments := db.comments[id := comment.(disabled := true)];
      notice := CommentDisabled;
    } else {
      notice := CommentAlreadyDisabled;
    }
    resp := Redirect(ShowPost(comment.postId));
  }

  /** `enable_comment`: the mirror image of `disable_comment`. */
  method EnableComment(db: Store, current: User, id: int) returns (resp: Response, notice: Notice)
    modifies db`comments
    ensures !(current.Can(ADMIN) && current.Can(MODERATE)) ==> resp == Abort(403) && notice == NoNotice && db.comments == old(db.comments)
    ensures current.Can(ADMIN) && current.Can(MODERATE) && id !in old(db.comments) ==> resp == Abort(404) && notice == NoNotice && db.comments == old(db.comments)
    ensures current.Can(ADMIN) && current.Can(MODERATE) && id in old(db.comments) ==>
      && resp == Redirect(ShowPost(old(db.comments)[id].postId))
      && db.comments == Moderated(old(db.comments), id, false)
      && (notice == CommentAlreadyEnabled <==> !old(db.comments)[id].disabled)
      && (notice == CommentEnabled <==> old(db.comments)[id].disabled)
  {
    var gate := ModerationGate(current);
    if gate.Deny? {
      return Abort(gate.status), NoNotice;
    }
    if id !in db.comments {
      return Abort(404), NoNotice;
    }
    var comment := db.comments[id];
    if comment.disabled {
      db.comments := db.comments[id := comment.(disabled := false)];
      notice := CommentEnabled;
    } else {
      notice := CommentAlreadyEnabled;
    }
    resp := Redirect(ShowPost(comment.postId));
  }

  // ---------------------------------------------------------------------------
  // Post ownership

  /** The gate of `delete_post` and `edit_post`: the author or an administrator. */
  predicate MayManagePost(post: Post, user: User)
    reads user, user.role
  {
    PostIsAuthor(post, user) || user.IsAdministrator()
  }

  /** With the seeded masks, the Administrator role (31) may manage every post,
      while the User (7) and Moderator (15) roles may manage only their own. */
  lemma {:induction false} SeededPostOwnership(post: Post, user: User)
    requires user.role != null
    ensures user.role.permissions == 31 ==> MayManagePost(post, user)
    ensures user.role.permissions == 7 || user.role.permissions == 15 ==> (MayManagePost(post, user) <==> post.authorId == user.id)
  {
    CanFlag(user, 4);
    assert ADMIN == Pow2(4);
    assert Bit(31, 4) by { assert Bit(31, 4) == Bit(1, 0); }
    assert !Bit(15, 4) by { assert Bit(15, 4) == Bit(0, 0); }
    assert !Bit(7, 4) by { assert Bit(7, 4) == Bit(0, 1); }
  }

  /** The submitted, validated `PostForm`; `image` is what `uploads.save`
      returned for the uploaded file. */
  datatype PostForm = PostForm(title: string, body: string, image: Option<string>)

  /** `delete_post`. `removeImage` is the upload the handler then removes
      (`os.remove`), if any. */
  method DeletePost(db: Store, current: User, id: int) returns (resp: Response, notice: Notice, removeImage: Option<string>)
    modifies db`posts
    ensures id !in old(db.posts) ==> resp == Abort(404) && notice == NoNotice && removeImage == None && db.posts == old(db.posts)
    ensures id in old(db.posts) && !MayManagePost(old(db.posts)[id], current) ==>
      resp == Abort(401) && notice == NoNotice && removeImage == None && db.posts == old(db.posts)
    ensures id in old(db.posts) && MayManagePost(old(db.posts)[id], current) ==>
      && resp == Redirect(IndexPosts) && notice == PostDeleted
      && db.posts == old(db.posts) - {id}
      && removeImage == old(db.posts)[id].imageFilename
  {
    if id !in db.posts {
      return Abort(404), NoNotice, None;
    }
    var post := db.posts[id];
    if PostIsAuthor(post, current) || current.IsAdministrator() {
      db.posts := db.posts - {id};
      if post.imageFilename.Some? {
        removeImage := Some(post.imageFilename.value);
      } else {
        removeImage := None;
      }
      return Redirect(IndexPosts), PostDeleted, removeImage;
    }
    return Abort(401), NoNotice, None;
  }

  /** `edit_post`. `form` is None when the form did not validate (a GET or an
      invalid submission); the page is then rendered. */
  method EditPost(db: Store, current: User, id: int, form: Option<PostForm>) returns (resp: Response, notice: Notice)
    modifies db`posts
    ensures id !in old(db.posts) ==> resp == Abort(404) && notice == NoNotice && db.posts == old(db.posts)
    ensures id in old(db.posts) && !MayManagePost(old(db.posts)[id], current) ==>
      resp == Abort(401) && notice == NoNotice && db.posts == old(db.posts)
    ensures id in old(db.posts) && MayManagePost(old(db.posts)[id], current) && form.None? ==>
      resp == Render("blog/edit-post-page.html") && notice == NoNotice && db.posts == old(db.posts)
    ensures id in old(db.posts) && MayManagePost(old(db.posts)[id], current) && form.Some? ==>
      && resp == Redirect(ShowPost(id)) && notice == PostUpdated
      && db.posts == old(db.posts)[id := Post(old(db.posts)[id].authorId, form.value.title, form.value.body, form.value.image)]
  {
    if id !in db.posts {
      return Abort(404), NoNotice;
    }
    var post := db.posts[id];
    if !PostIsAuthor(post, current) && !current.IsAdministrator() {
      return Abort(401), NoNotice;
    }
    if form.Some? {
      post := post.(title := form.value.title, body := form.value.body, imageFilename := form.value.image);
      db.posts := db.posts[id := post];
      return Redirect(ShowPost(id)), PostUpdated;
    }
    return Render("blog/edit-post-page.html"), NoNotice;
  }
}

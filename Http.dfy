/** What a request handler hands back to the framework: a redirect to one of
    the application's endpoints, a rendered template, or an abort with an
    HTTP status; and the flash message it queued, as an abstract notice. */
module Http {

  /** The `url_for` targets the handlers redirect to. */
  datatype Endpoint =
    | IndexPosts                  // 'blog.index_posts', '.index_posts'
    | BlogIndex                   // 'blog.index'
    | ShowPost(identifier: int)   // '.show_post'
    | Following(username: string) // '.following'
    | IndexUsers                  // '.index_users'
    | Confirmed                   // '.confirmed'
    | AccountRecover              // '.account_recover'
    | Rooms                       // '.rooms'
    | Literal(url: string)        // a URL taken from the request itself

  datatype Response =
    | Redirect(to: Endpoint)
    | Render(template: string)
    | Abort(status: nat)

  /** The flash messages, one per distinct text of the source. */
  datatype Notice =
    | NoNotice
    | NowFollowing | AlreadyFollowing
    | NowNotFollowing | AlreadyNotFollowing
    | CommentDisabled | CommentAlreadyDisabled
    | CommentEnabled | CommentAlreadyEnabled
    | PostDeleted | PostUpdated
    | UserDeleted | UserUndeleted | CannotDeleteAdministrator
    | AccountConfirmed | ConfirmationInvalid
    | PasswordReset | InvalidCredentials
    | RoomCreated | RoomDeleted
}

/** The records of the posts-board backend: what clients send and receive
    as JSON, the rows of its two tables, and the HTTP responses. */
module Entities {

  /** A Java reference that may be null. */
  datatype Option<+T> = None | Some(value: T)

  /** A Java `Double`. Coordinates and ratings are only stored and copied,
      never computed on, so a real number stands for the finite double. */
  type Double = real

  /** The `Post` record exchanged over HTTP; every field may be null.
      The JSON field `type` is called `postType` here. */
  datatype Post = Post(
    id: Option<int>,
    userId: Option<int>,
    postType: Option<string>,
    title: Option<string>,
    description: Option<string>,
    lat: Option<Double>,
    lng: Option<Double>,
    contact: Option<string>,
    status: Option<string>,
    createdAt: Option<string>,
    username: Option<string>)

  /** The `User` record returned to clients. It has no password field. */
  datatype User = User(
    id: Option<int>,
    username: Option<string>,
    email: Option<string>,
    phone: Option<string>,
    rating: Option<Double>,
    ratingCount: Option<int>)

  /** The body of a register or login request. */
  datatype AuthRequest = AuthRequest(
    username: Option<string>,
    email: Option<string>,
    password: Option<string>,
    phone: Option<string>)

  /** A row of the `users` table. */
  datatype UserRow = UserRow(
    id: int,
    username: string,
    email: string,
    password: string,
    phone: string,
    rating: Double,
    ratingCount: int,
    createdAt: string)

  /** A row of the `posts` table. */
  datatype PostRow = PostRow(
    id: int,
    userId: int,
    postType: string,
    title: string,
    description: string,
    lat: Double,
    lng: Double,
    contact: string,
    status: string,
    createdAt: string)

  /** What a handler writes back: a JSON entity, a JSON array of posts,
      or a plain-text message. */
  datatype Body =
    | UserJson(user: User)
    | PostJson(post: Post)
    | PostListJson(posts: seq<Post>)
    | Text(message: string)

  datatype Response = Response(status: int, body: Body)

  const StatusOk := 200
  const StatusCreated := 201
  const StatusBadRequest := 400
  const StatusUnauthorized := 401
  const StatusServerError := 500
}

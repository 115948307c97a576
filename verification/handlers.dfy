/** The four request handlers, run against an in-memory store that stands
    for the relational database: one sequence of rows per table and one
    auto-increment counter per table. */
module Handlers {
  import opened Entities
  import opened Validation
  import opened Rows

  /** How the single INSERT of a handler can fail: not at all, before the
      row is written (connection, statement), or after the row is written
      and committed (fetching the generated key, closing the statement or
      the connection). */
  datatype WriteFault = NoWriteFault | BeforeWrite(message: string) | AfterWrite(message: string)

  /** The listing query failing when the cursor is asked for row `atRow`;
      `atRow == 0` covers a failed connection or query, a value equal to the
      number of rows the final cursor step, and a larger value no failure. */
  datatype ReadFault = ReadFault(atRow: nat, message: string)

  /** Whether a read fault strikes a listing of `count` rows. */
  predicate Strikes(fault: Option<ReadFault>, count: nat) {
    fault.Some? && fault.value.atRow <= count
  }

  class Backend {
    var users: seq<UserRow>
    var posts: seq<PostRow>
    var nextUserId: int
    var nextPostId: int

    /** Generated ids start at 1, increase along each table and stay below
        the table's counter, so no id is ever reused. */
    ghost predicate Valid()
      reads this
    {
      1 <= nextUserId && 1 <= nextPostId
      && (forall i, j :: 0 <= i < j < |users| ==> users[i].id < users[j].id)
      && (forall i :: 0 <= i < |users| ==> users[i].id < nextUserId)
      && (forall i, j :: 0 <= i < j < |posts| ==> posts[i].id < posts[j].id)
      && (forall i :: 0 <= i < |posts| ==> posts[i].id < nextPostId)
    }

    /** An empty database. */
    constructor ()
      ensures Valid()
      ensures users == [] && posts == [] && nextUserId == 1 && nextPostId == 1
    {
      users, posts := [], [];
      nextUserId, nextPostId := 1, 1;
    }

    /** Ids within a table are unique. */
    lemma IdsUnique()
      requires Valid()
      ensures forall i, j :: 0 <= i < |users| && 0 <= j < |users| && users[i].id == users[j].id ==> i == j
      ensures forall i, j :: 0 <= i < |posts| && 0 <= j < |posts| && posts[i].id == posts[j].id ==> i == j
    {
    }

    /** POST /auth/register. */
    method Register(req: AuthRequest, now: string, fault: WriteFault) returns (r: Response)
      requires Valid()
      modifies this
      ensures Valid()
      ensures posts == old(posts) && nextPostId == old(nextPostId)
      ensures RegisterRejected(req) ==>
                r == Response(StatusBadRequest, Text(MissingRegisterFields))
                && users == old(users) && nextUserId == old(nextUserId)
      ensures !RegisterRejected(req) && fault.BeforeWrite? ==>
                r == Response(StatusServerError, Text("Registration failed: " + fault.message))
                && users == old(users) && nextUserId == old(nextUserId)
      ensures !RegisterRejected(req) && !fault.BeforeWrite? ==>
                users == old(users) + [NewUserRow(req, old(nextUserId), now)]
                && nextUserId == old(nextUserId) + 1
      ensures !RegisterRejected(req) && fault.NoWriteFault? ==>
                r == Response(StatusCreated, UserJson(RegisteredUser(req, old(nextUserId))))
      ensures !RegisterRejected(req) && fault.AfterWrite? ==>
                r == Response(StatusServerError, Text("Registration failed: " + fault.message))
    {
      if req.email.None? || req.password.None? || req.username.None? {
        return Response(StatusBadRequest, Text(MissingRegisterFields));
      }
      if fault.BeforeWrite? {
        return Response(StatusServerError, Text("Registration failed: " + fault.message));
      }
      var id := nextUserId;
      users := users + [NewUserRow(req, id, now)];
      nextUserId := nextUserId + 1;
      if fault.AfterWrite? {
        return Response(StatusServerError, Text("Registration failed: " + fault.message));
      }
      var user := User(Some(id), req.username, req.email, req.phone, Some(0.0), Some(0));
      r := Response(StatusCreated, UserJson(user));
    }

    /** POST /auth/login. Reads the store and never changes it. */
    method Login(req: AuthRequest, fault: Option<string>) returns (r: Response)
      ensures LoginRejected(req) ==> r == Response(StatusBadRequest, Text(MissingLoginFields))
      ensures !LoginRejected(req) && fault.Some? ==>
                r == Response(StatusServerError, Text("Login Failed: " + fault.value))
      ensures !LoginRejected(req) && fault.None? ==>
                (r.status == StatusOk <==>
                   exists k :: 0 <= k < |users| && Matches(users[k], req.email.value, req.password.value))
      ensures !LoginRejected(req) && fault.None? && r.status == StatusOk ==>
                exists k :: 0 <= k < |users| && Matches(users[k], req.email.value, req.password.value)
                  && (forall j :: 0 <= j < k ==> !Matches(users[j], req.email.value, req.password.value))
                  && r.body == UserJson(UserOfRow(users[k]))
      ensures !LoginRejected(req) && fault.None? && r.status != StatusOk ==>
                r == Response(StatusUnauthorized, Text("Invalid email or password"))
    {
      if req.email.None? || req.password.None? {
        return Response(StatusBadRequest, Text(MissingLoginFields));
      }
      if fault.Some? {
        return Response(StatusServerError, Text("Login Failed: " + fault.value));
      }
      var found := FindUser(users, req.email.value, req.password.value);
      if found.Some? {
        r := Response(StatusOk, UserJson(UserOfRow(users[found.value])));
      } else {
        r := Response(StatusUnauthorized, Text("Invalid email or password"));
      }
    }

    /** GET /posts. Builds the list row by row and answers with all of it,
        or with an error and no list when the store fails on the way. */
    method GetAllPosts(fault: Option<ReadFault>) returns (r: Response)
      ensures Strikes(fault, |posts|) ==>
                r == Response(StatusServerError, Text("DB error: " + fault.value.message))
      ensures !Strikes(fault, |posts|) ==>
                r.status == StatusOk && r.body.PostListJson? && |r.body.posts| == |posts|
                && forall i :: 0 <= i < |posts| ==> r.body.posts[i] == ListedPost(posts[i])
    {
      var list: seq<Post> := [];
      var i := 0;
      while i < |posts|
        invariant 0 <= i <= |posts|
        invariant |list| == i
        invariant forall k :: 0 <= k < i ==> list[k] == ListedPost(posts[k])
        invariant fault.Some? ==> i <= fault.value.atRow
      {
        if fault.Some? && fault.value.atRow == i {
          return Response(StatusServerError, Text("DB error: " + fault.value.message));
        }
        var p := ListedPost(posts[i]);
        list := list + [p];
        i := i + 1;
      }
      if fault.Some? && fault.value.atRow == i {
        return Response(StatusServerError, Text("DB error: " + fault.value.message));
      }
      r := Response(StatusOk, PostListJson(list));
    }

    /** POST /posts. */
    method CreatePost(body: Option<Post>, now: string, fault: WriteFault) returns (r: Response)
      requires Valid()
      modifies this
      ensures Valid()
      ensures users == old(users) && nextUserId == old(nextUserId)
      ensures PostRejected(body) ==>
                r == Response(StatusBadRequest, Text(MissingPostFields))
                && posts == old(posts) && nextPostId == old(nextPostId)
      ensures !PostRejected(body) && fault.BeforeWrite? ==>
                r == Response(StatusServerError, Text("DB error: " + fault.message))
                && posts == old(posts) && nextPostId == old(nextPostId)
      ensures !PostRejected(body) && !fault.BeforeWrite? ==>
                posts == old(posts) + [NewPostRow(body.value, old(nextPostId), now)]
                && nextPostId == old(nextPostId) + 1
      ensures !PostRejected(body) && fault.NoWriteFault? ==>
                r == Response(StatusCreated, PostJson(CreatedPost(body.value, old(nextPostId), now)))
      ensures !PostRejected(body) && fault.AfterWrite? ==>
                r == Response(StatusServerError, Text("DB error: " + fault.message))
    {
      if body.None? || NullOrBlank(body.value.title) || NullOrBlank(body.value.postType)
         || body.value.lat.None? || body.value.lng.None? || body.value.userId.None? {
        return Response(StatusBadRequest, Text(MissingPostFields));
      }
      var input := body.value;
      if fault.BeforeWrite? {
        return Response(StatusServerError, Text("DB error: " + fault.message));
      }
      var id := nextPostId;
      posts := posts + [NewPostRow(input, id, now)];
      nextPostId := nextPostId + 1;
      if fault.AfterWrite? {
        return Response(StatusServerError, Text("DB error: " + fault.message));
      }
      input := input.(id := Some(id));
      input := input.(createdAt := Some(now));
      r := Response(StatusCreated, PostJson(input));
    }
  }

  /** On a fresh database, registering and then logging in with the same
      credentials succeeds and returns the same id, username and email. The
      phone differs where the request had none: register echoes the null,
      login returns the stored "". */
  method RegisterThenLogin(req: AuthRequest, now: string) returns (registered: Response, loggedIn: Response)
    requires !RegisterRejected(req)
    ensures registered.status == StatusCreated && registered.body.UserJson?
    ensures loggedIn.status == StatusOk && loggedIn.body.UserJson?
    ensures registered.body.user.id == loggedIn.body.user.id == Some(1)
    ensures loggedIn.body.user == registered.body.user.(phone := Some(OrEmpty(req.phone)))
    ensures registered.body.user.phone == req.phone
  {
    var db := new Backend();
    registered := db.Register(req, now, NoWriteFault);
    loggedIn := db.Login(req, None);
    assert Matches(db.users[0], req.email.value, req.password.value);
  }

  /** On a fresh database, two accepted posts get ids 1 and 2, and the listing
      that follows holds exactly those two ids in creation order, with user
      id, status and username left null. Listing again with no write in
      between gives the same answer. */
  method CreateTwiceThenList(p1: Post, p2: Post, now1: string, now2: string)
    returns (first: Response, second: Response, listed: Response, relisted: Response)
    requires !PostRejected(Some(p1)) && !PostRejected(Some(p2))
    ensures first.status == StatusCreated && first.body.PostJson? && first.body.post.id == Some(1)
    ensures second.status == StatusCreated && second.body.PostJson? && second.body.post.id == Some(2)
    ensures listed.status == StatusOk && listed.body.PostListJson? && |listed.body.posts| == 2
    ensures listed.body.posts[0].id == first.body.post.id && listed.body.posts[1].id == second.body.post.id
    ensures forall q :: q in listed.body.posts ==> q.userId.None? && q.status.None? && q.username.None?
    ensures relisted == listed
  {
    var db := new Backend();
    first := db.CreatePost(Some(p1), now1, NoWriteFault);
    second := db.CreatePost(Some(p2), now2, NoWriteFault);
    listed := db.GetAllPosts(None);
    relisted := db.GetAllPosts(None);
  }
}

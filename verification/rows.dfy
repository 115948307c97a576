/** How each handler shapes the row it inserts, the entity it echoes back,
    and the projection its SELECT makes of a stored row. */
module Rows {
  import opened Entities
  import opened Validation

  // ---------------------------------------------------------------- users

  /** The parameters register binds to its INSERT into `users`: the request's
      username, email and password, the phone defaulted to "", rating 0.0,
      rating count 0, and the insertion time. */
  function NewUserRow(req: AuthRequest, id: int, now: string): UserRow
    requires !RegisterRejected(req)
  {
    UserRow(id, req.username.value, req.email.value, req.password.value,
            OrEmpty(req.phone), 0.0, 0, now)
  }

  /** The `User` register answers with: the generated id, the request's
      username and email, the request's phone as sent (possibly null), and
      the initial rating fields. */
  function RegisteredUser(req: AuthRequest, id: int): User {
    User(Some(id), req.username, req.email, req.phone, Some(0.0), Some(0))
  }

  /** The `User` login builds from the columns it selects; the password is
      not among them. */
  function UserOfRow(row: UserRow): User {
    User(Some(row.id), Some(row.username), Some(row.email), Some(row.phone),
         Some(row.rating), Some(row.ratingCount))
  }

  /** The WHERE clause of login: exact equality on both columns. */
  predicate Matches(row: UserRow, email: string, password: string) {
    row.email == email && row.password == password
  }

  /** The index of the first row the login query returns, if any. */
  function FindUser(users: seq<UserRow>, email: string, password: string): (k: Option<nat>)
    ensures k.Some? ==> k.value < |users| && Matches(users[k.value], email, password)
    ensures k.Some? ==> forall j :: 0 <= j < k.value ==> !Matches(users[j], email, password)
    ensures k.None? <==> forall j :: 0 <= j < |users| ==> !Matches(users[j], email, password)
    decreases |users|
  {
    if |users| == 0 then None
    else if Matches(users[0], email, password) then Some(0)
    else match FindUser(users[1..], email, password)
      case None => None
      case Some(k) => Some(k + 1)
  }

  /** Appending a row does not change which earlier row login finds; only
      when no earlier row matches can the appended one be found. */
  lemma {:induction false} FindUserAppend(users: seq<UserRow>, row: UserRow, email: string, password: string)
    ensures FindUser(users + [row], email, password) ==
            if FindUser(users, email, password).Some? then FindUser(users, email, password)
            else if Matches(row, email, password) then Some(|users|)
            else None
    decreases |users|
  {
    if |users| > 0 && !Matches(users[0], email, password) {
      assert (users + [row])[1..] == users[1..] + [row];
      FindUserAppend(users[1..], row, email, password);
    }
  }

  /** Register stores the request's username, email and password verbatim,
      the phone defaulted to "", the initial rating fields and `now`. It
      stores what login later returns, except the phone: the row
      holds "" where the request had none, while register's answer echoes
      the null. The two users agree exactly when a phone was sent. */
  lemma RegisteredPhoneEcho(req: AuthRequest, id: int, now: string)
    requires !RegisterRejected(req)
    ensures var row := NewUserRow(req, id, now);
            row.id == id && row.username == req.username.value && row.email == req.email.value
            && row.password == req.password.value && row.phone == OrEmpty(req.phone)
            && row.rating == 0.0 && row.ratingCount == 0 && row.createdAt == now
    ensures UserOfRow(NewUserRow(req, id, now)) == RegisteredUser(req, id).(phone := Some(OrEmpty(req.phone)))
    ensures UserOfRow(NewUserRow(req, id, now)) == RegisteredUser(req, id) <==> req.phone.Some?
  {
  }

  /** Registering and then logging in with the same email and password
      finds a user carrying those credentials; it is the registered one,
      with its stored phone, exactly when no earlier row holds the same
      email and password. */
  lemma RegisterThenLoginFinds(users: seq<UserRow>, req: AuthRequest, id: int, now: string)
    requires !RegisterRejected(req)
    ensures var all := users + [NewUserRow(req, id, now)];
            var k := FindUser(all, req.email.value, req.password.value);
            k.Some? && UserOfRow(all[k.value]).email == req.email
            && (k.value == |users| <==> FindUser(users, req.email.value, req.password.value).None?)
            && (k.value == |users| ==>
                  UserOfRow(all[k.value]) == RegisteredUser(req, id).(phone := Some(OrEmpty(req.phone))))
  {
    var row := NewUserRow(req, id, now);
    var all := users + [row];
    var e, p := req.email.value, req.password.value;
    var earlier := FindUser(users, e, p);
    FindUserAppend(users, row, e, p);
    if earlier.Some? {
      assert FindUser(all, e, p) == earlier;
      assert all[earlier.value] == users[earlier.value];
    } else {
      assert Matches(row, e, p);
      assert FindUser(all, e, p) == Some(|users|);
      assert all[|users|] == row;
    }
  }

  // ---------------------------------------------------------------- posts

  /** The parameters create-post binds to its INSERT into `posts`: the
      required fields as sent, description and contact defaulted to "",
      status forced to "active", and the insertion time. */
  function NewPostRow(p: Post, id: int, now: string): PostRow
    requires !PostRejected(Some(p))
  {
    PostRow(id, p.userId.value, p.postType.value, p.title.value, OrEmpty(p.description),
            p.lat.value, p.lng.value, OrEmpty(p.contact), "active", now)
  }

  /** The request body with its id and creation time overwritten, which is
      what create-post answers with. */
  function CreatedPost(p: Post, id: int, now: string): Post {
    p.(id := Some(id), createdAt := Some(now))
  }

  /** The `Post` list-posts builds from the eight columns it selects; user
      id, status and username are left null. */
  function ListedPost(row: PostRow): Post {
    Post(Some(row.id), None, Some(row.postType), Some(row.title), Some(row.description),
         Some(row.lat), Some(row.lng), Some(row.contact), None, Some(row.createdAt), None)
  }

  /** Create-post answers with everything the client sent, including its own
      status, username and null description or contact, while the row holds
      status "active" and "" for the missing texts. */
  lemma CreatedPostEcho(p: Post, id: int, now: string)
    requires !PostRejected(Some(p))
    ensures var c := CreatedPost(p, id, now);
            c.id == Some(id) && c.createdAt == Some(now)
            && c.userId == p.userId && c.postType == p.postType && c.title == p.title
            && c.description == p.description && c.contact == p.contact
            && c.lat == p.lat && c.lng == p.lng
            && c.status == p.status && c.username == p.username
    ensures var row := NewPostRow(p, id, now);
            row.id == id && row.status == "active" && row.createdAt == now
            && row.userId == p.userId.value && row.postType == p.postType.value
            && row.title == p.title.value && row.lat == p.lat.value && row.lng == p.lng.value
            && row.description == OrEmpty(p.description) && row.contact == OrEmpty(p.contact)
  {
  }

  /** Listing a stored post gives back what create-post answered, with the
      user id, status and username blanked and the defaulted texts in place
      of null ones. */
  lemma ListedAfterCreated(p: Post, id: int, now: string)
    requires !PostRejected(Some(p))
    ensures ListedPost(NewPostRow(p, id, now)) ==
            CreatedPost(p, id, now).(userId := None, status := None, username := None,
                                     description := Some(OrEmpty(p.description)),
                                     contact := Some(OrEmpty(p.contact)))
  {
  }
}

/** `GET /api/users/:userId`: one lookup, then either 404 or the user's projection. */
module UserRoutes {
  import opened Wrappers
  import opened Orm
  import opened Http

  const UserNotFound: Response := Response(404, Error("User not found"))

  /** The object literal of the 200 answer. */
  function Project(u: UserRow): (v: UserView)
    ensures v.id == u.id && v.username == u.username && v.email == u.email && v.admin == u.admin
    ensures v.products == u.products && v.bids == u.bids
  {
    UserView(u.id, u.username, u.email, u.admin, u.products, u.bids)
  }

  function GetUser(users: map<Id, UserRow>, userId: Id): (r: Response)
    // the two branches are exclusive: exactly one answer, 404 or 200
    ensures (r.status == 404) != (r.status == 200)
    ensures r.status == 404 <==> userId !in users
    ensures userId !in users ==> r == UserNotFound
    ensures userId in users ==>
      && r.status == 200 && r.body.UserObject?
      && r.body.user.id == users[userId].id
      && r.body.user.username == users[userId].username
      && r.body.user.email == users[userId].email
      && r.body.user.admin == users[userId].admin
      && r.body.user.products == users[userId].products
      && r.body.user.bids == users[userId].bids
  {
    match Find(users, userId)
    case None => UserNotFound
    case Some(u) => Response(200, UserObject(Project(u)))
  }
}

/** The get-or-create step that bet creation and the stats read share: look
    the caller up by (whop user, experience) and insert a user when the lookup
    reports that none exists. */
module UserAccounts {
  import opened Common
  import opened Schema

  method GetOrCreateUser(db: Database, whopUserId: string, experienceId: string) returns (userId: Id)
    requires db.Valid()
    modifies db`users
    ensures db.Valid()
    ensures userId < |db.users| && IsUser(db.users[userId], whopUserId, experienceId)
    ensures FindUser(old(db.users), whopUserId, experienceId).Some? ==>
              db.users == old(db.users) && FindUser(old(db.users), whopUserId, experienceId) == Some(userId)
    ensures FindUser(old(db.users), whopUserId, experienceId).None? ==>
              userId == |old(db.users)| &&
              db.users == old(db.users) + [NewUser(userId, whopUserId, experienceId)]
  {
    var found := FindUser(db.users, whopUserId, experienceId);
    if found.Some? {
      userId := found.value;
    } else {
      userId := |db.users|;
      db.users := db.users + [NewUser(userId, whopUserId, experienceId)];
    }
  }
}

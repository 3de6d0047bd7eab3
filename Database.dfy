/** A database session: opened per request and closed when the request ends. */
module Database {
  import Users

  class DbSession {
    /** The user table the session queries. */
    const users: Users.UserTable
    var isOpen: bool

    constructor(users: Users.UserTable)
      ensures this.users == users && isOpen
    {
      this.users := users;
      isOpen := true;
    }

    method Close()
      modifies this
      ensures !isOpen
    {
      isOpen := false;
    }
  }
}

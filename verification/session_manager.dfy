/**
 * The session guard: at most one logged-in user name, two fixed credential
 * pairs, and a role check that does not look at the session.
 */
module Session {
  import opened JavaText

  const AdminName: JString := Str("admin")
  const UserName: JString := Str("user")

  /** The two accepted (user name, password) pairs; null arguments match neither. */
  predicate ValidCredentials(username: JString, password: JString)
  {
    (username == AdminName && password == Str("admin123"))
    || (username == UserName && password == Str("user123"))
  }

  class SessionManager {
    /** The logged-in user's name, or null when nobody is logged in. */
    var loggedInUser: JString

    /** Only a name that some password logs in with can be the session's user. */
    ghost predicate Valid()
      reads this
    {
      loggedInUser == Null || loggedInUser == AdminName || loggedInUser == UserName
    }

    constructor ()
      ensures Valid() && loggedInUser == Null
      ensures !IsLoggedIn() && GetLoggedInUser() == Null
    {
      loggedInUser := Null;
    }

    /**
     * `login`: true exactly for the two fixed pairs; on success the session
     * becomes `username` (replacing any earlier one), otherwise it is kept.
     */
    method Login(username: JString, password: JString) returns (ok: bool)
      requires Valid()
      modifies this
      ensures Valid()
      ensures ok <==> ValidCredentials(username, password)
      ensures loggedInUser == if ok then username else old(loggedInUser)
      ensures ok ==> IsLoggedIn() && GetLoggedInUser() == username
    {
      if ValidCredentials(username, password) {
        loggedInUser := username;
        return true;
      }
      return false;
    }

    /** `isLoggedIn`. */
    function IsLoggedIn(): (r: bool)
      reads this
      ensures r <==> GetLoggedInUser() != Null
    {
      loggedInUser != Null
    }

    /**
     * `getLoggedInUser`: null, or one of the two names that a password
     * logs in with.
     */
    function GetLoggedInUser(): (u: JString)
      reads this
      ensures Valid() ==> u == Null || ValidCredentials(u, Str("admin123")) || ValidCredentials(u, Str("user123"))
    {
      loggedInUser
    }

    /**
     * `isAdmin`: true exactly for the name "admin". It reads no field, so it
     * neither depends on nor changes the session.
     */
    function IsAdmin(username: JString): (r: bool)
      ensures r <==> Show(username) == "admin" && username.Str?
    {
      username == AdminName
    }

    /** `logout`: nobody is logged in afterwards, whatever the state before. */
    method Logout()
      requires Valid()
      modifies this
      ensures Valid() && loggedInUser == Null && !IsLoggedIn()
    {
      loggedInUser := Null;
    }
  }

  /** Of the two accepted names, only "admin" has the admin role. */
  lemma AdminRoleOfAcceptedUsers(s: SessionManager, username: JString, password: JString)
    requires ValidCredentials(username, password)
    ensures s.IsAdmin(username) <==> password == Str("admin123")
  {
  }
}

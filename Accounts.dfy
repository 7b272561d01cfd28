/** The user registry: usernames are unique, login matches username and password. */
module Accounts {

  const Registered: string := "User registered successfully"
  const UsernameExists: string := "Username already exists"

  datatype User = User(password: string, phone: string)

  /** The users table, keyed by its unique username column. */
  type Users = map<string, User>

  /** `login`: some stored user has this username and this password. */
  function Login(users: Users, username: string, password: string): (ok: bool)
  {
    username in users && users[username].password == password
  }

  /** A newly registered user can log in with the password given, and with no other. */
  lemma LoginAfterRegistration(users: Users, username: string, password: string, phone: string, attempt: string)
    requires username !in users
    ensures Login(users[username := User(password, phone)], username, attempt) <==> attempt == password
  {
  }

  /** Registering one user leaves every other user's login as it was. */
  lemma RegistrationKeepsOthers(users: Users, username: string, password: string, phone: string, other: string, attempt: string)
    requires other != username
    ensures Login(users[username := User(password, phone)], other, attempt) == Login(users, other, attempt)
  {
  }
}

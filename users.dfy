/** The custom user model: Django's `AbstractUser` plus a role and a profile photo. */
module Users {
  import opened Wrappers

  type UserId = nat

  datatype Role = Management | Employee {
    function Code(): string {
      match this
      case Management => "MANAGEMENT"
      case Employee => "EMPLOYEE"
    }
  }

  function RoleFromCode(code: string): (r: Option<Role>)
    ensures forall role: Role :: r == Some(role) <==> role.Code() == code
  {
    if code == "MANAGEMENT" then Some(Management)
    else if code == "EMPLOYEE" then Some(Employee)
    else None
  }

  /**
   * A user row. `profilePhoto` is the stored file name; the empty string is
   * both a blank and a null photo (a file field with no name is falsy).
   */
  datatype User = User(
    id: UserId,
    username: string,
    email: string,
    firstName: string,
    role: Role,
    profilePhoto: string)

  /** The `request.user` / `scope['user']` of a request or socket. */
  datatype Principal = Anonymous | Authenticated(user: User) {
    predicate IsAuthenticated() { Authenticated? }
  }

  /** A user created without naming a role or a photo gets the declared defaults. */
  function NewUser(id: UserId, username: string, email: string, firstName: string): (u: User)
    ensures u.role == Employee && u.profilePhoto == ""
    ensures u.id == id && u.username == username && u.email == email
  {
    User(id, username, email, firstName, Employee, "")
  }

  /** `User.__str__`. */
  function Display(u: User): string {
    u.username
  }
}

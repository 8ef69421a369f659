/** The entities shared by the client: users and their roles, and listed projects. */
module Types {
  import opened Core

  /** The role enumeration of a user account. */
  datatype Role = UserRole | Admin | Buyer | Seller

  /** The wire name of a role, as it appears in messages and route tables. */
  function RoleName(r: Role): string {
    match r
    case UserRole => "user"
    case Admin => "admin"
    case Buyer => "buyer"
    case Seller => "seller"
  }

  /** A signed-in identity. `avatar` and `interests` are optional on the wire. */
  datatype User = User(
    id: string,
    name: string,
    email: string,
    avatar: Option<string>,
    verified: bool,
    role: Role,
    interests: Option<seq<string>>)

  /** The fields of a listed project that the listing pages read. */
  datatype Project = Project(
    id: string,
    title: string,
    category: string,
    platform: string,
    status: string)
}

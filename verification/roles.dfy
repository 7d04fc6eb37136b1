/** The three portal roles and their wire names. */
module Roles {
  import opened Outcomes

  datatype Role = User | Technician | Admin

  /** The string literal the components pass around for a role. */
  function Name(r: Role): string {
    match r
    case User => "user"
    case Technician => "technician"
    case Admin => "admin"
  }

  /** Recognises a wire name; anything else is not a role. */
  function Parse(s: string): (r: Option<Role>)
    ensures r.Some? ==> Name(r.value) == s
  {
    if s == "user" then Some(User)
    else if s == "technician" then Some(Technician)
    else if s == "admin" then Some(Admin)
    else None
  }

  /** Every role's name parses back to that role, so names are distinct. */
  lemma ParseName(r: Role)
    ensures Parse(Name(r)) == Some(r)
  {
  }
}

/** The five colour roles of a map theme, in the order the styler visits them. */
module Roles {

  datatype Role = Water | Land | Roads | Buildings | Labels

  /** `Object.keys(targets)` in script.js: the order in which roles are applied. */
  const RoleOrder: seq<Role> := [Water, Land, Roads, Buildings, Labels]

  /** Where `r` sits in RoleOrder. */
  function RoleIndex(r: Role): (i: nat)
    ensures i < |RoleOrder| && RoleOrder[i] == r
  {
    match r
    case Water => 0
    case Land => 1
    case Roads => 2
    case Buildings => 3
    case Labels => 4
  }

  /** The property name under which a role's colour travels in a style object. */
  function RoleKey(r: Role): string {
    match r
    case Water => "water"
    case Land => "land"
    case Roads => "roads"
    case Buildings => "buildings"
    case Labels => "labels"
  }
}

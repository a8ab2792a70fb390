/** The role gate in front of the privileged commands. */
module Policy {

  /** A Discord role; only its name matters to the gate. */
  datatype Role = Role(name: string)

  /** The member who invoked a command, with the roles they hold. */
  datatype Member = Member(roles: seq<Role>)

  /** The names of the member's roles, in order. */
  function RoleNames(roles: seq<Role>): seq<string> {
    seq(|roles|, k requires 0 <= k < |roles| => roles[k].name)
  }

  /** Some configured role name is the name of one of the member's roles. */
  ghost predicate Authorized(user: Member, requiredRoles: seq<string>) {
    exists k :: 0 <= k < |requiredRoles| && requiredRoles[k] in RoleNames(user.roles)
  }

  /** Scans the configured role names in order and stops at the first one the
      member holds. An empty list of configured roles admits nobody. */
  method HasRequiredRole(user: Member, requiredRoles: seq<string>) returns (granted: bool)
    ensures granted <==> Authorized(user, requiredRoles)
    ensures requiredRoles == [] ==> !granted
  {
    var userRoles := RoleNames(user.roles);
    for k := 0 to |requiredRoles|
      invariant forall j :: 0 <= j < k ==> requiredRoles[j] !in userRoles
    {
      if requiredRoles[k] in userRoles {
        return true;
      }
    }
    return false;
  }

  /** The gate is a set-intersection test: the member is authorized exactly
      when the configured names and the member's role names share an element. */
  lemma AuthorizedIffIntersects(user: Member, requiredRoles: seq<string>)
    ensures Authorized(user, requiredRoles)
        <==> (set r | r in requiredRoles) * (set role | role in user.roles :: role.name) != {}
  {
    var names := RoleNames(user.roles);
    var shared := (set r | r in requiredRoles) * (set role | role in user.roles :: role.name);
    if Authorized(user, requiredRoles) {
      var k :| 0 <= k < |requiredRoles| && requiredRoles[k] in names;
      var i :| 0 <= i < |names| && names[i] == requiredRoles[k];
      assert user.roles[i] in user.roles;
      assert requiredRoles[k] in shared;
    }
    if shared != {} {
      var x :| x in shared;
      var k :| 0 <= k < |requiredRoles| && requiredRoles[k] == x;
      var role :| role in user.roles && role.name == x;
      var i :| 0 <= i < |user.roles| && user.roles[i] == role;
      assert names[i] == x;
    }
  }
}

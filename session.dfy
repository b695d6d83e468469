/** The session (src/context/AuthContext.jsx): the signed-in user with the
    role derived from its email, the loading flag that gates rendering until
    the first auth-state event, and the login, register and logout calls it
    hands to the authentication service. The service itself is not
    modelled: its answers arrive as `OnAuthChange` events and the requests
    are `AuthCall` values. */
module Session {
  import opened JsValues

  const AdminRole: string := "admin"
  const EmployeeRole: string := "employee"

  /** `email.includes('admin') ? 'admin' : 'employee'` */
  function RoleFor(email: string): (role: string)
    ensures role == AdminRole <==> exists i :: OccursAt(email, "admin", i)
    ensures role == EmployeeRole <==> !exists i :: OccursAt(email, "admin", i)
  {
    IncludesIff(email, "admin");
    if Includes(email, "admin") then AdminRole else EmployeeRole
  }

  /** The user the auth service reports must carry a string email:
      `includes` is called on it. */
  predicate HasEmail(authUser: Record)
  {
    Get(authUser, "email").Str?
  }

  /** `{ ...firebaseUser, role }`: every field of the service's user plus the
      derived role, which overrides a `role` field of its own. */
  function UserRecord(authUser: Record): (u: Record)
    requires HasEmail(authUser)
    ensures u.Keys == authUser.Keys + {"role"}
    ensures Get(u, "role") == Str(RoleFor(Get(authUser, "email").s))
    ensures forall k :: k != "role" ==> Get(u, k) == Get(authUser, k)
  {
    authUser + map["role" := Str(RoleFor(Get(authUser, "email").s))]
  }

  /** A request handed to the authentication service. */
  datatype AuthCall =
    | SignIn(email: string, password: string)
    | SignUp(email: string, password: string)
    | SignOut

  class AuthProvider {
    var user: Option<Record>
    var loading: bool

    /** `{!loading && children}`: the application is shown once the first
        auth-state event has arrived. */
    predicate RendersChildren()
      reads this
    {
      !loading
    }

    constructor ()
      ensures user == None && loading
      ensures !RendersChildren()
    {
      user := None;
      loading := true;
    }

    /** The auth-state callback: a signed-in user becomes a user record with
        its role, a sign-out becomes null; either way loading ends. */
    method OnAuthChange(authUser: Option<Record>)
      requires authUser.Some? ==> HasEmail(authUser.value)
      modifies this
      ensures user == if authUser.Some? then Some(UserRecord(authUser.value)) else None
      ensures !loading && RendersChildren()
    {
      if authUser.Some? {
        user := Some(UserRecord(authUser.value));
      } else {
        user := None;
      }
      loading := false;
    }

    /** `login(email, password)` only forwards to the service. */
    method Login(email: string, password: string) returns (call: AuthCall)
      ensures call == SignIn(email, password)
    {
      call := SignIn(email, password);
    }

    /** `register(email, password)` only forwards to the service. */
    method Register(email: string, password: string) returns (call: AuthCall)
      ensures call == SignUp(email, password)
    {
      call := SignUp(email, password);
    }

    /** `logout()` only forwards to the service. */
    method Logout() returns (call: AuthCall)
      ensures call == SignOut
    {
      call := SignOut;
    }
  }

  /** The role rule is a substring test anywhere in the address: the local
      part, the domain, or inside a longer word. */
  lemma AdminRoleExamples()
    ensures RoleFor("admin@corp.com") == AdminRole
    ensures RoleFor("bob@badminton.org") == AdminRole
  {
    assert OccursAt("admin@corp.com", "admin", 0);
    assert OccursAt("bob@badminton.org", "admin", 5);
  }

  /** No lower-case `a`, so no `admin`: the test does not fold case. */
  lemma EmployeeRoleExamples()
    ensures RoleFor("bob@corp.com") == EmployeeRole
    ensures RoleFor("Admin@Corp.com") == EmployeeRole
  {
    var s1, s2 := "bob@corp.com", "Admin@Corp.com";
    assert 'a' !in s1 by {
      forall i | 0 <= i < |s1| ensures s1[i] != 'a' { }
    }
    assert 'a' !in s2 by {
      forall i | 0 <= i < |s2| ensures s2[i] != 'a' { }
    }
    FirstCharOfOccurrence(s1, "admin");
    FirstCharOfOccurrence(s2, "admin");
  }

  /** A needle occurs only where its first character does. */
  lemma FirstCharOfOccurrence(s: string, sub: string)
    requires |sub| > 0
    ensures (exists i :: OccursAt(s, sub, i)) ==> sub[0] in s
  {
    forall i | OccursAt(s, sub, i) ensures sub[0] in s {
      assert s[i..i + |sub|][0] == s[i];
    }
  }

  /** What a user record's role says is what its email says. */
  lemma RoleOfUserRecord(authUser: Record)
    requires HasEmail(authUser)
    ensures Get(UserRecord(authUser), "role") == Str(AdminRole) <==>
              exists i :: OccursAt(Get(authUser, "email").s, "admin", i)
    ensures Get(UserRecord(authUser), "email") == Get(authUser, "email")
  {
  }
}

/** The part of the Liferay portal the auto-login hook calls into: the user
    store (`UserLocalService`), the role store and the user-role assignments
    (`RoleLocalService`). Each service call is a function of the stored
    records; the class in `ShibbolethAutoLogin` holds the records and changes
    them. */
module PortalServices {
  import opened JavaLang

  /** A portal user: the fields the hook reads or writes. */
  datatype User = User(userId: int, companyId: int, screenName: string, emailAddress: string,
                       firstName: string, lastName: string, password: string)

  /** The arguments of `UserLocalService.addUser` (the id lists and the service
      context aside). */
  datatype AddUserRequest = AddUserRequest(
    creatorUserId: int, companyId: int, autoPassword: bool, password1: Option<string>, password2: Option<string>,
    autoScreenName: bool, screenName: string, emailAddress: string, facebookId: int, openId: string,
    locale: string, firstName: string, middleName: string, lastName: string, prefixId: int, suffixId: int,
    male: bool, birthdayMonth: int, birthdayDay: int, birthdayYear: int, jobTitle: string, sendEmail: bool)

  /** A portal role. A role whose subtype was never set has the empty subtype. */
  datatype Role = Role(roleId: int, companyId: int, name: string, roleType: int, subtype: string,
                       classNameId: int, classPK: int)

  /** Everything the services store: the users, the roles of every company,
      the (user id, role id) assignments and the user id counter. */
  datatype Portal = Portal(users: seq<User>, roles: seq<Role>, userRoles: set<(int, int)>, nextUserId: int)

  /** What the stores guarantee of their keys: user ids are distinct and below
      the counter, role ids are distinct. */
  predicate ValidPortal(p: Portal)
  {
    && (forall i, j | 0 <= i < j < |p.users| :: p.users[i].userId != p.users[j].userId)
    && (forall i | 0 <= i < |p.users| :: p.users[i].userId < p.nextUserId)
    && (forall i, j | 0 <= i < j < |p.roles| :: p.roles[i].roleId != p.roles[j].roleId)
  }

  // ---------------------------------------------------------------------------
  // Users
  // ---------------------------------------------------------------------------

  /** `getUserByScreenName`: the user of that company with that screen name;
      None where the service throws `NoSuchUserException`. */
  function FindUserByScreenName(users: seq<User>, companyId: int, screenName: string): (user: Option<User>)
    ensures user.Some? ==> user.value in users && user.value.companyId == companyId
                           && user.value.screenName == screenName
    ensures user.None? ==> forall u | u in users :: !(u.companyId == companyId && u.screenName == screenName)
  {
    if users == [] then None
    else if users[0].companyId == companyId && users[0].screenName == screenName then Some(users[0])
    else FindUserByScreenName(users[1..], companyId, screenName)
  }

  /** `getUserByEmailAddress`: the user of that company with that address;
      None where the service throws `NoSuchUserException`. */
  function FindUserByEmail(users: seq<User>, companyId: int, emailAddress: string): (user: Option<User>)
    ensures user.Some? ==> user.value in users && user.value.companyId == companyId
                           && user.value.emailAddress == emailAddress
    ensures user.None? ==> forall u | u in users :: !(u.companyId == companyId && u.emailAddress == emailAddress)
  {
    if users == [] then None
    else if users[0].companyId == companyId && users[0].emailAddress == emailAddress then Some(users[0])
    else FindUserByEmail(users[1..], companyId, emailAddress)
  }

  /** A result together with the stores it leaves behind. */
  datatype Step<T> = Step(value: T, portal: Portal)

  /** `addUser`: a screen name or an e-mail address already used in the
      company is rejected; otherwise the user gets the next id and, since the
      hook asks for an automatic password, the generated password. */
  function AddUser(p: Portal, request: AddUserRequest, generatedPassword: string): Step<Result<User>>
  {
    if FindUserByScreenName(p.users, request.companyId, request.screenName).Some?
       || FindUserByEmail(p.users, request.companyId, request.emailAddress).Some?
    then Step(Failure(UserExistsException), p)
    else
      var user := User(p.nextUserId, request.companyId, request.screenName, request.emailAddress,
                       request.firstName, request.lastName, generatedPassword);
      Step(Success(user), p.(users := p.users + [user], nextUserId := p.nextUserId + 1))
  }

  /** A successful `addUser` appends exactly one user, with the requested
      company, screen name, e-mail and names, under an id no stored user has;
      a rejected one changes nothing. */
  lemma AddUserAppendsOne(p: Portal, request: AddUserRequest, generatedPassword: string)
    requires ValidPortal(p)
    ensures var r := AddUser(p, request, generatedPassword);
      && ValidPortal(r.portal)
      && (r.value.Failure? ==> r.portal == p)
      && (r.value.Success? ==>
            var u := r.value.value;
            && r.portal.users == p.users + [u]
            && r.portal.roles == p.roles && r.portal.userRoles == p.userRoles
            && u.companyId == request.companyId && u.screenName == request.screenName
            && u.emailAddress == request.emailAddress
            && u.firstName == request.firstName && u.lastName == request.lastName
            && forall v | v in p.users :: v.userId != u.userId)
  {
  }

  /** `updateUser` on a stored user: its record is replaced by the new one. */
  function ReplaceUser(users: seq<User>, user: User): (users': seq<User>)
    ensures |users'| == |users|
    ensures forall i | 0 <= i < |users| ::
      users'[i] == (if users[i].userId == user.userId then user else users[i])
  {
    if users == [] then []
    else [if users[0].userId == user.userId then user else users[0]] + ReplaceUser(users[1..], user)
  }

  // ---------------------------------------------------------------------------
  // Roles
  // ---------------------------------------------------------------------------

  /** `getRole(companyId, name)`: None where the service throws. */
  function FindRole(roles: seq<Role>, companyId: int, name: string): (role: Option<Role>)
    ensures role.Some? ==> role.value in roles && role.value.companyId == companyId && role.value.name == name
    ensures role.None? ==> forall r | r in roles :: !(r.companyId == companyId && r.name == name)
  {
    if roles == [] then None
    else if roles[0].companyId == companyId && roles[0].name == name then Some(roles[0])
    else FindRole(roles[1..], companyId, name)
  }

  /** `getRole(roleId)`: None where the service throws. */
  function FindRoleById(roles: seq<Role>, roleId: int): (role: Option<Role>)
    ensures role.Some? ==> role.value in roles && role.value.roleId == roleId
    ensures role.None? ==> forall r | r in roles :: r.roleId != roleId
  {
    if roles == [] then None
    else if roles[0].roleId == roleId then Some(roles[0])
    else FindRoleById(roles[1..], roleId)
  }

  /** `getRoles(companyId)`: the roles of one company, in store order. */
  function CompanyRoles(roles: seq<Role>, companyId: int): (company: seq<Role>)
    ensures forall r | r in company :: r in roles && r.companyId == companyId
    ensures forall r | r in roles && r.companyId == companyId :: r in company
  {
    if roles == [] then []
    else (if roles[0].companyId == companyId then [roles[0]] else []) + CompanyRoles(roles[1..], companyId)
  }

  /** `getSubtypeRoles(subtype)`: the roles of every company with that subtype,
      in store order. */
  function SubtypeRoles(roles: seq<Role>, subtype: string): (matching: seq<Role>)
    ensures forall r | r in matching :: r in roles && r.subtype == subtype
    ensures forall r | r in roles && r.subtype == subtype :: r in matching
  {
    if roles == [] then []
    else (if roles[0].subtype == subtype then [roles[0]] else []) + SubtypeRoles(roles[1..], subtype)
  }

  /** The ids of a list of roles, collected one role at a time: one id per
      role, each in its role's position. */
  function RoleIds(roles: seq<Role>): (ids: seq<int>)
    ensures |ids| == |roles|
    ensures forall i | 0 <= i < |roles| :: ids[i] == roles[i].roleId
  {
    if roles == [] then []
    else [roles[0].roleId] + RoleIds(roles[1..])
  }

  /** The largest id: the last element once `Arrays.sort` has run. */
  function MaxId(ids: seq<int>): (m: int)
    requires |ids| > 0
    ensures m in ids
    ensures forall x | x in ids :: x <= m
  {
    if |ids| == 1 then ids[0]
    else
      var rest := MaxId(ids[1..]);
      assert forall x | x in ids[1..] :: x <= rest;
      assert forall x | x in ids :: x == ids[0] || x in ids[1..];
      if ids[0] >= rest then ids[0] else rest
  }

  /** `unsetUserRoles(userId, removed)` followed by `addUserRoles(userId, added)`. */
  function Reassigned(userRoles: set<(int, int)>, userId: int, removed: seq<int>, added: seq<int>): set<(int, int)>
  {
    (userRoles - set r | r in removed :: (userId, r)) + set r | r in added :: (userId, r)
  }

  /** Reassignment touches one user's assignments: afterwards that user holds
      exactly the added roles and those of their old roles that were not
      removed; every other user keeps theirs. */
  lemma ReassignedOneUser(userRoles: set<(int, int)>, userId: int, removed: seq<int>, added: seq<int>,
                          u: int, r: int)
    ensures (u, r) in Reassigned(userRoles, userId, removed, added) <==>
      if u == userId then r in added || ((u, r) in userRoles && r !in removed)
      else (u, r) in userRoles
  {
    var result := Reassigned(userRoles, userId, removed, added);
    if u == userId && r in added {
      assert (u, r) in set x | x in added :: (userId, x);
    }
    if (u, r) in set x | x in removed :: (userId, x) {
      assert u == userId && r in removed;
    }
  }
}
